/** What folds into one row of the execution tree and what the row tells, told by the properties of
    the nodes. */
module RowLaws {
  import opened Sequences
  import opened ActionRows

  /** A tool call with an icon that may stand in a group: not one that waits for the user, and not
      the start of an agent. */
  predicate Foldable(h: Host, n: Node) {
    n.kind == "tool_call" && n.toolName !in {"request_user_input", "agent"} && h.iconKind(n.toolName) != ""
  }

  predicate OneKind(h: Host, a: Node, b: Node) {
    Foldable(h, a) && Foldable(h, b) && h.iconKind(a.toolName) == h.iconKind(b.toolName)
  }

  lemma OneKindMeans(h: Host, a: Node, b: Node)
    ensures OneKind(h, a, b) <==> Key(h, a) == Key(h, b) != ""
  {
  }

  /** In the one grouping of the nodes, a group holds at least three nodes, all of one kind; next to
      a group stands no node of its kind; and no three nodes of one kind stand alone in a row. */
  lemma GroupsAreMaximal(h: Host, nodes: seq<Node>, rows: seq<Row>, i: nat)
    requires Groups(h, nodes, rows) && i < |rows|
    ensures rows[i].GroupRow? ==>
      |rows[i].nodes| >= 3 && forall a, b :: a in rows[i].nodes && b in rows[i].nodes ==> OneKind(h, a, b)
    ensures i + 1 < |rows| && (rows[i].GroupRow? || rows[i + 1].GroupRow?) ==>
      forall a, b :: a in NodesOf(rows[i]) && b in NodesOf(rows[i + 1]) ==> !OneKind(h, a, b)
    ensures i + 2 < |rows| && rows[i].NodeRow? && rows[i + 1].NodeRow? && rows[i + 2].NodeRow? ==>
      !(OneKind(h, rows[i].node, rows[i + 1].node) && OneKind(h, rows[i + 1].node, rows[i + 2].node))
  {
    assert WellFormed(h, rows[i]);
    forall a, b ensures OneKind(h, a, b) <==> Key(h, a) == Key(h, b) != "" { OneKindMeans(h, a, b); }
    RowHasFirstKey(h, rows[i]);
    if i + 1 < |rows| {
      assert WellFormed(h, rows[i + 1]) && Separate(h, rows[i], rows[i + 1]);
      RowHasFirstKey(h, rows[i + 1]);
    }
    if i + 2 < |rows| { assert !Ungrouped(h, rows, i); }
  }

  lemma RowHasFirstKey(h: Host, row: Row)
    requires WellFormed(h, row)
    ensures forall a :: a in NodesOf(row) ==> Key(h, a) == FirstKey(h, row)
  {
  }

  // ---- what a group tells ----

  /** The words for each state of a node; any other word means that it has not begun. */
  lemma StateOf(status: string)
    ensures Normalize(status) == Success <==> status in SUCCEEDED
    ensures Normalize(status) == Error <==> status in FAILED
    ensures Normalize(status) == Stopped <==> status in {"cancelled", "interrupted", "stopped"}
    ensures Normalize(status) == Running <==> status == "running"
  {
  }

  /** How many nodes are in one of the states. */
  function Count(nodes: seq<Node>, states: set<string>): nat {
    if nodes == [] then 0 else (if nodes[0].status in states then 1 else 0) + Count(nodes[1..], states)
  }

  /** The seconds the nodes report, added up. */
  function Spent(nodes: seq<Node>): real {
    if nodes == [] then 0.0
    else (if nodes[0].elapsed.Seconds? then nodes[0].elapsed.s else 0.0) + Spent(nodes[1..])
  }

  const SUCCEEDED := {"succeeded", "completed", "success"}
  const FAILED := {"failed", "error"}

  lemma {:induction false} CountsIn(nodes: seq<Node>, states: set<string>, p: Node -> bool)
    requires forall n :: p(n) <==> n.status in states
    ensures |Filter(nodes, p)| == Count(nodes, states)
  {
    if nodes != [] { CountsIn(nodes[1..], states, p); }
  }

  lemma CountsState(nodes: seq<Node>, states: set<string>, s: NodeStatus)
    requires forall status :: Normalize(status) == s <==> status in states
    ensures |Filter(nodes, HasStatus(s))| == Count(nodes, states)
    ensures AnyStatus(nodes, s) <==> Count(nodes, states) > 0
  {
    CountsIn(nodes, states, HasStatus(s));
    SomeIn(nodes, states, s);
  }

  lemma {:induction false} SomeIn(nodes: seq<Node>, states: set<string>, s: NodeStatus)
    requires forall status :: Normalize(status) == s <==> status in states
    ensures AnyStatus(nodes, s) <==> Count(nodes, states) > 0
  {
    if nodes != [] {
      var tail := nodes[1..];
      SomeIn(tail, states, s);
      assert forall i :: 0 <= i < |tail| ==> tail[i] == nodes[i + 1];
      assert forall i :: 1 <= i < |nodes| ==> nodes[i] == tail[i - 1];
    }
  }

  lemma {:induction false} SpentIsTotal(nodes: seq<Node>, last: Node)
    ensures Spent(nodes + [last]) == Spent(nodes) + if last.elapsed.Seconds? then last.elapsed.s else 0.0
  {
    if nodes == [] {
      assert nodes + [last] == [last] && [last][1..] == [];
    } else {
      assert (nodes + [last])[1..] == nodes[1..] + [last];
      SpentIsTotal(nodes[1..], last);
    }
  }

  lemma {:induction false} TotalIsSpent(nodes: seq<Node>)
    ensures TotalElapsed(nodes) == Spent(nodes)
  {
    if nodes != [] {
      TotalIsSpent(nodes[..|nodes| - 1]);
      SpentIsTotal(nodes[..|nodes| - 1], nodes[|nodes| - 1]);
      assert nodes == nodes[..|nodes| - 1] + [nodes[|nodes| - 1]];
    }
  }

  /** A group tells how many nodes it has and how many succeeded, whether some run or failed, the
      time they took together, and the icon and subtitle of the last; it shows failure before
      running, and success only when neither is the case. */
  ghost predicate Tells(h: Host, group: seq<Node>, s: Summary)
    requires group != []
  {
    && s.count == |group| && s.successCount == Count(group, SUCCEEDED)
    && (s.hasRunning <==> Count(group, {"running"}) > 0) && (s.hasError <==> Count(group, FAILED) > 0)
    && s.totalElapsed == Spent(group)
    && (s.status == Error <==> Count(group, FAILED) > 0)
    && (s.status == Running <==> Count(group, FAILED) == 0 && Count(group, {"running"}) > 0)
    && (s.status == Success <==> Count(group, FAILED) == 0 && Count(group, {"running"}) == 0)
    && var last := group[|group| - 1];
    s.latestPreview == h.subtitle(last, last.status == "running") && s.latestToolName == h.iconKind(last.toolName)
  }

  lemma SummaryTells(h: Host, group: seq<Node>)
    requires group != []
    ensures Tells(h, group, Summarize(h, group))
  {
    LastShown(h, group);
    StatusShown(h, group);
    StatesCounted(group);
    TotalIsSpent(group);
  }

  /** So does every group of the one grouping, under the icon of its nodes. */
  lemma GroupTells(h: Host, nodes: seq<Node>, rows: seq<Row>, i: nat)
    requires Groups(h, nodes, rows) && i < |rows| && rows[i].GroupRow?
    ensures rows[i].nodes != [] && rows[i].key == h.iconKind(rows[i].nodes[0].toolName)
    ensures Tells(h, rows[i].nodes, rows[i].summary)
  {
    assert WellFormed(h, rows[i]);
    SummaryTells(h, rows[i].nodes);
  }

  lemma LastShown(h: Host, nodes: seq<Node>)
    requires nodes != []
    ensures var s, last := Summarize(h, nodes), nodes[|nodes| - 1];
      s.latestPreview == h.subtitle(last, last.status == "running") && s.latestToolName == h.iconKind(last.toolName)
  {
    StateOf(nodes[|nodes| - 1].status);
  }

  lemma StatusShown(h: Host, nodes: seq<Node>)
    requires nodes != []
    ensures var s := Summarize(h, nodes);
      s.status == if AnyStatus(nodes, Error) then Error else if AnyStatus(nodes, Running) then Running else Success
  {
  }

  lemma StatesCounted(nodes: seq<Node>)
    ensures |Filter(nodes, HasStatus(Success))| == Count(nodes, SUCCEEDED)
    ensures AnyStatus(nodes, Running) <==> Count(nodes, {"running"}) > 0
    ensures AnyStatus(nodes, Error) <==> Count(nodes, FAILED) > 0
  {
    forall status ensures Normalize(status) == Success <==> status in SUCCEEDED { StateOf(status); }
    CountsState(nodes, SUCCEEDED, Success);
    forall status ensures Normalize(status) == Running <==> status in {"running"} { StateOf(status); }
    CountsState(nodes, {"running"}, Running);
    forall status ensures Normalize(status) == Error <==> status in FAILED { StateOf(status); }
    CountsState(nodes, FAILED, Error);
  }

  /** A node that may not stand in a group gets a row of its own, wherever it stands. */
  lemma LoneNode(h: Host, nodes: seq<Node>)
    requires nodes != [] && !Foldable(h, nodes[0])
    ensures Rows(h, nodes) == [NodeRow(nodes[0])] + Rows(h, nodes[1..])
  {
    OneKindMeans(h, nodes[0], nodes[0]);
  }
}
