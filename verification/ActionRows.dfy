/** Rows of the execution tree: runs of adjacent tool calls of one kind fold into a group. */
module ActionRows {
  import opened Sequences

  datatype Elapsed = NoNumber | Seconds(s: real)

  datatype Node = Node(id: string, kind: string, toolName: string, status: string, elapsed: Elapsed)

  datatype NodeStatus = Success | Error | Stopped | Running | Pending

  datatype Summary = Summary(count: nat, successCount: nat, hasRunning: bool, hasError: bool, totalElapsed: real,
                             status: NodeStatus, latestPreview: string, latestToolName: string)

  datatype Row = NodeRow(node: Node) | GroupRow(key: string, nodes: seq<Node>, summary: Summary)

  /** The presentation tables: the icon of a tool, and the subtitle of a call that runs or not. */
  datatype Host = Host(iconKind: string -> string, subtitle: (Node, bool) -> string)

  const GROUP_MIN := 3

  function Normalize(status: string): NodeStatus {
    if status == "succeeded" || status == "completed" || status == "success" then Success
    else if status == "failed" || status == "error" then Error
    else if status == "cancelled" || status == "interrupted" || status == "stopped" then Stopped
    else if status == "running" then Running
    else Pending
  }

  /** The group key of a node; "" when it is never grouped. */
  function Key(h: Host, node: Node): string {
    if node.kind != "tool_call" || node.toolName == "request_user_input" || node.toolName == "agent" then ""
    else h.iconKind(node.toolName)
  }

  function HasStatus(s: NodeStatus): Node -> bool { (n: Node) => Normalize(n.status) == s }

  predicate AnyStatus(nodes: seq<Node>, s: NodeStatus) {
    exists i :: 0 <= i < |nodes| && Normalize(nodes[i].status) == s
  }

  lemma AnyStatusAppend(nodes: seq<Node>, node: Node, s: NodeStatus)
    ensures AnyStatus(nodes + [node], s) <==> AnyStatus(nodes, s) || Normalize(node.status) == s
  {
    var all := nodes + [node];
    assert all[|nodes|] == node && forall i :: 0 <= i < |nodes| ==> all[i] == nodes[i];
  }

  function TotalElapsed(nodes: seq<Node>): real {
    if nodes == [] then 0.0
    else
      var last := nodes[|nodes| - 1];
      TotalElapsed(nodes[..|nodes| - 1]) + if last.elapsed.Seconds? then last.elapsed.s else 0.0
  }

  /** What a group shows of its nodes. */
  function Summarize(h: Host, nodes: seq<Node>): Summary
    requires nodes != []
  {
    var latest := nodes[|nodes| - 1];
    var hasRunning, hasError := AnyStatus(nodes, Running), AnyStatus(nodes, Error);
    Summary(|nodes|, |Filter(nodes, HasStatus(Success))|, hasRunning, hasError, TotalElapsed(nodes),
            if hasError then Error else if hasRunning then Running else Success,
            h.subtitle(latest, Normalize(latest.status) == Running), h.iconKind(latest.toolName))
  }

  // ---- the reference ----

  /** The nodes of the rows, in order. */
  function Flatten(rows: seq<Row>): seq<Node> {
    if rows == [] then [] else NodesOf(rows[0]) + Flatten(rows[1..])
  }

  function NodesOf(row: Row): seq<Node> { if row.NodeRow? then [row.node] else row.nodes }

  predicate AllKeyed(h: Host, nodes: seq<Node>, key: string) {
    forall i :: 0 <= i < |nodes| ==> Key(h, nodes[i]) == key
  }

  /** A group row: at least three nodes of its key, summed up. */
  predicate WellFormed(h: Host, row: Row) {
    row.GroupRow? ==> |row.nodes| >= GROUP_MIN && row.key != "" && AllKeyed(h, row.nodes, row.key)
                      && row.summary == Summarize(h, row.nodes)
  }

  function FirstKey(h: Host, row: Row): string
    requires WellFormed(h, row)
  {
    Key(h, NodesOf(row)[0])
  }

  /** Two adjacent rows: a group does not stop short of a node with its key. */
  predicate Separate(h: Host, left: Row, right: Row)
    requires WellFormed(h, left) && WellFormed(h, right)
  {
    left.GroupRow? || right.GroupRow? ==> FirstKey(h, left) != FirstKey(h, right)
  }

  /** Three adjacent nodes with one key, left ungrouped. */
  predicate Ungrouped(h: Host, rows: seq<Row>, i: nat)
    requires i + 2 < |rows|
  {
    && rows[i].NodeRow? && rows[i + 1].NodeRow? && rows[i + 2].NodeRow?
    && Key(h, rows[i].node) != ""
    && Key(h, rows[i].node) == Key(h, rows[i + 1].node) == Key(h, rows[i + 2].node)
  }

  /** The rows are a grouping of the nodes: they contain the nodes in order, groups are maximal
      runs of at least three nodes with one key, and no such run is left ungrouped. */
  ghost predicate Groups(h: Host, nodes: seq<Node>, rows: seq<Row>) {
    Flatten(rows) == nodes && Maximal(h, rows)
  }

  ghost predicate Maximal(h: Host, rows: seq<Row>) {
    && (forall i :: 0 <= i < |rows| ==> WellFormed(h, rows[i]))
    && (forall i :: 0 <= i < |rows| - 1 ==> Separate(h, rows[i], rows[i + 1]))
    && (forall i :: 0 <= i < |rows| - 2 ==> !Ungrouped(h, rows, i))
  }

  // ---- the rows, run by run ----

  /** How many nodes from the first on have the key. */
  function RunLength(h: Host, nodes: seq<Node>, key: string): (n: nat)
    ensures n <= |nodes| && AllKeyed(h, nodes[..n], key)
    ensures n < |nodes| ==> Key(h, nodes[n]) != key
  {
    if nodes == [] || Key(h, nodes[0]) != key then 0
    else
      var n := 1 + RunLength(h, nodes[1..], key);
      assert forall i :: 1 <= i < n ==> nodes[..n][i] == nodes[1..][..n - 1][i - 1];
      n
  }

  function Singles(nodes: seq<Node>): (r: seq<Row>)
    ensures |r| == |nodes| && forall i :: 0 <= i < |r| ==> r[i] == NodeRow(nodes[i])
  {
    if nodes == [] then [] else [NodeRow(nodes[0])] + Singles(nodes[1..])
  }

  function Flush(h: Host, key: string, buffer: seq<Node>): seq<Row> {
    if |buffer| >= GROUP_MIN then [GroupRow(key, buffer, Summarize(h, buffer))] else Singles(buffer)
  }

  function Rows(h: Host, nodes: seq<Node>): seq<Row>
    decreases |nodes|
  {
    if nodes == [] then []
    else if Key(h, nodes[0]) == "" then [NodeRow(nodes[0])] + Rows(h, nodes[1..])
    else
      var key := Key(h, nodes[0]);
      var n := RunLength(h, nodes, key);
      Flush(h, key, nodes[..n]) + Rows(h, nodes[n..])
  }

  lemma {:induction false} RunLengthOfRun(h: Host, run: seq<Node>, rest: seq<Node>, key: string)
    requires AllKeyed(h, run, key) && (rest == [] || Key(h, rest[0]) != key)
    ensures RunLength(h, run + rest, key) == |run|
  {
    if run == [] {
      assert run + rest == rest;
    } else {
      assert (run + rest)[1..] == run[1..] + rest;
      RunLengthOfRun(h, run[1..], rest, key);
    }
  }

  /** A maximal run at the front is flushed on its own. */
  lemma RunFlushes(h: Host, run: seq<Node>, rest: seq<Node>, key: string)
    requires key != "" && AllKeyed(h, run, key) && (rest == [] || Key(h, rest[0]) != key)
    ensures Rows(h, run + rest) == Flush(h, key, run) + Rows(h, rest)
  {
    if run == [] {
      assert run + rest == rest;
      assert Flush(h, key, run) == [];
    } else {
      RunLengthOfRun(h, run, rest, key);
      assert (run + rest)[0] == run[0];
      assert (run + rest)[..|run|] == run && (run + rest)[|run|..] == rest;
    }
  }

  // ---- existence ----

  lemma {:induction false} FlattenSingles(nodes: seq<Node>)
    ensures Flatten(Singles(nodes)) == nodes
  {
    if nodes != [] {
      FlattenSingles(nodes[1..]);
      assert Singles(nodes)[1..] == Singles(nodes[1..]);
    }
  }

  lemma {:induction false} FlattenAppend(left: seq<Row>, right: seq<Row>)
    ensures Flatten(left + right) == Flatten(left) + Flatten(right)
  {
    if left == [] {
      assert left + right == right;
    } else {
      assert (left + right)[1..] == left[1..] + right;
      FlattenAppend(left[1..], right);
      Associates(NodesOf(left[0]), Flatten(left[1..]), Flatten(right));
    }
  }

  lemma Associates(a: seq<Node>, b: seq<Node>, c: seq<Node>)
    ensures (a + b) + c == a + (b + c)
  {
  }

  /** The first row of the rows starts with the first node. */
  lemma FirstRow(h: Host, nodes: seq<Node>)
    requires nodes != []
    ensures var rows := Rows(h, nodes);
      rows != [] && NodesOf(rows[0]) != [] && NodesOf(rows[0])[0] == nodes[0]
  {
    if Key(h, nodes[0]) != "" {
      var n := RunLength(h, nodes, Key(h, nodes[0]));
      assert n >= 1 && nodes[..n][0] == nodes[0];
      assert Flush(h, Key(h, nodes[0]), nodes[..n]) != [];
    }
  }

  lemma MaximalPrepend(h: Host, row: Row, tail: seq<Row>)
    requires Maximal(h, tail) && WellFormed(h, row)
    requires tail != [] ==> Separate(h, row, tail[0])
    requires |tail| > 1 ==> !Ungrouped(h, [row, tail[0], tail[1]], 0)
    ensures Maximal(h, [row] + tail)
  {
    var rows := [row] + tail;
    assert forall i :: 1 <= i < |rows| ==> rows[i] == tail[i - 1];
    forall i | 0 <= i < |rows| - 1 ensures Separate(h, rows[i], rows[i + 1]) {
      if i > 0 { assert Separate(h, tail[i - 1], tail[i]); }
    }
    forall i | 0 <= i < |rows| - 2 ensures !Ungrouped(h, rows, i) {
      if i > 0 { assert !Ungrouped(h, tail, i - 1); }
    }
  }

  lemma GroupsNode(h: Host, node: Node, rest: seq<Node>)
    requires Groups(h, rest, Rows(h, rest)) && Key(h, node) == ""
    ensures Groups(h, [node] + rest, [NodeRow(node)] + Rows(h, rest))
  {
    var tail := Rows(h, rest);
    assert ([NodeRow(node)] + tail)[1..] == tail;
    if tail != [] { assert WellFormed(h, tail[0]); }
    MaximalPrepend(h, NodeRow(node), tail);
  }

  lemma GroupsRun(h: Host, key: string, run: seq<Node>, rest: seq<Node>)
    requires Groups(h, rest, Rows(h, rest)) && run != [] && key != "" && AllKeyed(h, run, key)
    requires rest == [] || Key(h, rest[0]) != key
    ensures Groups(h, run + rest, Flush(h, key, run) + Rows(h, rest))
  {
    var tail, head := Rows(h, rest), Flush(h, key, run);
    var rows := head + tail;
    if rest != [] { FirstRow(h, rest); }
    FlattenFlush(h, key, run);
    FlattenAppend(head, tail);
    RunSeparate(h, key, run, head, tail);
  }

  lemma SinglesShort(a: Node, b: Node)
    ensures Singles([a]) == [NodeRow(a)] && Singles([a, b]) == [NodeRow(a), NodeRow(b)]
  {
  }

  lemma FlattenFlush(h: Host, key: string, run: seq<Node>)
    ensures Flatten(Flush(h, key, run)) == run
  {
    if |run| < GROUP_MIN {
      FlattenSingles(run);
    } else {
      var head := Flush(h, key, run);
      assert head[1..] == [];
      assert Flatten(head) == run + Flatten([]);
    }
  }

  /** The rows of a run go before rows that start with another key. */
  lemma RunSeparate(h: Host, key: string, run: seq<Node>, head: seq<Row>, tail: seq<Row>)
    requires run != [] && key != "" && AllKeyed(h, run, key) && head == Flush(h, key, run) && Maximal(h, tail)
    requires tail != [] ==> NodesOf(tail[0]) != [] && Key(h, NodesOf(tail[0])[0]) != key
    ensures Maximal(h, head + tail)
  {
    if tail != [] { assert WellFormed(h, tail[0]); }
    if |run| >= GROUP_MIN {
      assert head == [head[0]];
      MaximalPrepend(h, head[0], tail);
    } else if |run| == 1 {
      assert head == [NodeRow(run[0])];
      MaximalPrepend(h, NodeRow(run[0]), tail);
    } else {
      assert head == [NodeRow(run[0]), NodeRow(run[1])];
      MaximalPair(h, run[0], run[1], tail);
    }
  }

  lemma MaximalPair(h: Host, a: Node, b: Node, tail: seq<Row>)
    requires Maximal(h, tail) && Key(h, a) == Key(h, b) != ""
    requires tail != [] ==> WellFormed(h, tail[0]) && FirstKey(h, tail[0]) != Key(h, a)
    ensures Maximal(h, [NodeRow(a), NodeRow(b)] + tail)
  {
    var rows := [NodeRow(b)] + tail;
    MaximalPrepend(h, NodeRow(b), tail);
    if |tail| > 0 { assert rows[1] == tail[0]; }
    MaximalPrepend(h, NodeRow(a), rows);
    RowsAssociate([NodeRow(a)], [NodeRow(b)], tail);
    assert [NodeRow(a)] + [NodeRow(b)] == [NodeRow(a), NodeRow(b)];
  }

  lemma {:induction false} RowsGroup(h: Host, nodes: seq<Node>)
    ensures Groups(h, nodes, Rows(h, nodes))
    decreases |nodes|
  {
    if nodes == [] {
    } else if Key(h, nodes[0]) == "" {
      RowsGroup(h, nodes[1..]);
      GroupsNode(h, nodes[0], nodes[1..]);
      SuffixStep(nodes, 0);
    } else {
      var key := Key(h, nodes[0]);
      var n := RunLength(h, nodes, key);
      RowsGroup(h, nodes[n..]);
      GroupsRun(h, key, nodes[..n], nodes[n..]);
      Cut(nodes, n);
    }
  }

  // ---- uniqueness ----

  lemma GroupsTail(h: Host, nodes: seq<Node>, rows: seq<Row>)
    requires Groups(h, nodes, rows) && rows != []
    ensures Groups(h, nodes[|NodesOf(rows[0])|..], rows[1..])
    ensures NodesOf(rows[0]) != [] && NodesOf(rows[0]) <= nodes
  {
    var tail := rows[1..];
    assert WellFormed(h, rows[0]);
    assert nodes == NodesOf(rows[0]) + Flatten(tail);
    assert nodes[|NodesOf(rows[0])|..] == Flatten(tail);
    assert forall i :: 0 <= i < |tail| ==> tail[i] == rows[i + 1];
    forall i | 0 <= i < |tail| - 1 ensures Separate(h, tail[i], tail[i + 1]) {
      assert Separate(h, rows[i + 1], rows[i + 2]);
    }
    forall i | 0 <= i < |tail| - 2 ensures !Ungrouped(h, tail, i) {
      assert !Ungrouped(h, rows, i + 1);
    }
  }

  /** The node after the first row does not have the key of a group there. */
  lemma NextKeyDiffers(h: Host, nodes: seq<Node>, rows: seq<Row>)
    requires Groups(h, nodes, rows) && |rows| > 1
    requires rows[0].GroupRow? || rows[1].GroupRow?
    ensures var n := |NodesOf(rows[0])|; n < |nodes| && Key(h, nodes[n]) != Key(h, nodes[0])
  {
    var n := |NodesOf(rows[0])|;
    GroupsTail(h, nodes, rows);
    GroupsTail(h, nodes[n..], rows[1..]);
    assert WellFormed(h, rows[0]) && WellFormed(h, rows[1]) && Separate(h, rows[0], rows[1]);
    assert nodes[n..][0] == NodesOf(rows[1])[0];
    assert nodes[0] == NodesOf(rows[0])[0];
  }

  lemma NoNodesNoRows(h: Host, nodes: seq<Node>, rows: seq<Row>)
    requires Groups(h, nodes, rows)
    ensures nodes == [] <==> rows == []
  {
    if rows != [] { GroupsTail(h, nodes, rows); }
  }

  /** A grouping is determined by its nodes. */
  lemma {:induction false} GroupingUnique(h: Host, nodes: seq<Node>, rows: seq<Row>)
    requires Groups(h, nodes, rows)
    ensures rows == Rows(h, nodes)
    decreases |rows|
  {
    NoNodesNoRows(h, nodes, rows);
    if rows != [] {
      GroupsTail(h, nodes, rows);
      GroupingUnique(h, nodes[|NodesOf(rows[0])|..], rows[1..]);
      assert WellFormed(h, rows[0]);
      Cons(rows);
      if rows[0].GroupRow? {
        GroupThenOther(h, nodes, rows);
        RowsOfGroup(h, rows[0], nodes);
      } else if Key(h, nodes[0]) != "" {
        SingleFirst(h, nodes, rows);
      }
    }
  }

  lemma Cons(rows: seq<Row>)
    requires rows != []
    ensures rows == [rows[0]] + rows[1..]
  {
  }

  lemma GroupThenOther(h: Host, nodes: seq<Node>, rows: seq<Row>)
    requires Groups(h, nodes, rows) && rows != [] && rows[0].GroupRow?
    ensures rows[0].nodes <= nodes && WellFormed(h, rows[0])
    ensures |rows[0].nodes| < |nodes| ==> Key(h, nodes[|rows[0].nodes|]) != rows[0].key
  {
    GroupsTail(h, nodes, rows);
    NoNodesNoRows(h, nodes[|rows[0].nodes|..], rows[1..]);
    assert WellFormed(h, rows[0]);
    if |rows| > 1 { NextKeyDiffers(h, nodes, rows); }
  }

  lemma {:induction false} RunLengthIs(h: Host, nodes: seq<Node>, key: string, n: nat)
    requires n <= |nodes| && AllKeyed(h, nodes[..n], key) && (n < |nodes| ==> Key(h, nodes[n]) != key)
    ensures RunLength(h, nodes, key) == n
  {
    if n > 0 {
      assert nodes[..n][0] == nodes[0];
      assert nodes[1..][..n - 1] == nodes[..n][1..];
      RunLengthIs(h, nodes[1..], key, n - 1);
    }
  }

  /** A group at the front is the whole run. */
  lemma RowsOfGroup(h: Host, row: Row, nodes: seq<Node>)
    requires row.GroupRow? && WellFormed(h, row) && row.nodes <= nodes
    requires |row.nodes| < |nodes| ==> Key(h, nodes[|row.nodes|]) != row.key
    ensures Rows(h, nodes) == [row] + Rows(h, nodes[|row.nodes|..])
  {
    var n := |row.nodes|;
    assert nodes[..n] == row.nodes && nodes[0] == row.nodes[0];
    RunLengthIs(h, nodes, row.key, n);
    assert Flush(h, row.key, row.nodes) == [row];
  }

  lemma RowsOfOne(h: Host, node: Node, rest: seq<Node>)
    requires Key(h, node) != "" && (rest == [] || Key(h, rest[0]) != Key(h, node))
    ensures Rows(h, [node] + rest) == [NodeRow(node)] + Rows(h, rest)
  {
    RunFlushes(h, [node], rest, Key(h, node));
    SinglesShort(node, node);
  }

  lemma RowsOfTwo(h: Host, a: Node, b: Node, rest: seq<Node>)
    requires Key(h, a) == Key(h, b) != "" && (rest == [] || Key(h, rest[0]) != Key(h, a))
    ensures Rows(h, [a, b] + rest) == [NodeRow(a)] + Rows(h, [b] + rest)
  {
    RunFlushes(h, [a, b], rest, Key(h, a));
    RowsOfOne(h, b, rest);
    SinglesShort(a, b);
    RowsAssociate([NodeRow(a)], [NodeRow(b)], Rows(h, rest));
    assert [NodeRow(a)] + [NodeRow(b)] == [NodeRow(a), NodeRow(b)];
  }

  /** A run of one or two stays ungrouped. */
  lemma RowsOfShortRun(h: Host, nodes: seq<Node>)
    requires nodes != [] && Key(h, nodes[0]) != ""
    requires |nodes| > 1 && Key(h, nodes[1]) == Key(h, nodes[0]) ==>
      |nodes| == 2 || Key(h, nodes[2]) != Key(h, nodes[0])
    ensures Rows(h, nodes) == [NodeRow(nodes[0])] + Rows(h, nodes[1..])
  {
    if |nodes| > 1 && Key(h, nodes[1]) == Key(h, nodes[0]) {
      RowsOfTwo(h, nodes[0], nodes[1], nodes[2..]);
      assert nodes == [nodes[0], nodes[1]] + nodes[2..] && nodes[1..] == [nodes[1]] + nodes[2..];
    } else {
      RowsOfOne(h, nodes[0], nodes[1..]);
      assert nodes == [nodes[0]] + nodes[1..];
    }
  }

  /** A keyed node on its own at the front is part of a run of one or two. */
  lemma SingleFirst(h: Host, nodes: seq<Node>, rows: seq<Row>)
    requires Groups(h, nodes, rows) && rows != [] && rows[0].NodeRow? && Key(h, rows[0].node) != ""
    requires nodes != [] && rows[1..] == Rows(h, nodes[1..])
    ensures rows == Rows(h, nodes)
  {
    GroupsTail(h, nodes, rows);
    assert rows[0] == NodeRow(nodes[0]);
    if |nodes| > 1 && Key(h, nodes[1]) == Key(h, nodes[0]) {
      RunOfTwo(h, nodes, rows);
    }
    RowsOfShortRun(h, nodes);
    assert rows == [rows[0]] + rows[1..];
  }

  /** Two keyed nodes at the front, the first on its own, are a run of two. */
  lemma RunOfTwo(h: Host, nodes: seq<Node>, rows: seq<Row>)
    requires Groups(h, nodes, rows) && rows != [] && |nodes| > 1 && rows[0].NodeRow?
    requires Key(h, nodes[0]) == Key(h, nodes[1]) != ""
    ensures |nodes| > 2 ==> Key(h, nodes[2]) != Key(h, nodes[0])
  {
    var tail := nodes[1..];
    GroupsTail(h, nodes, rows);
    NoNodesNoRows(h, tail, rows[1..]);
    if rows[1].GroupRow? { NextKeyDiffers(h, nodes, rows); }
    GroupsTail(h, tail, rows[1..]);
    if |nodes| > 2 {
      assert tail[1..] == nodes[2..] && rows[1..][1..] == rows[2..];
      NoNodesNoRows(h, nodes[2..], rows[2..]);
      GroupsTail(h, nodes[2..], rows[2..]);
      if rows[2].GroupRow? {
        NextKeyDiffers(h, tail, rows[1..]);
      } else {
        assert !Ungrouped(h, rows, 0);
      }
    }
  }

  /** The rows are the one and only grouping of the nodes. */
  lemma RowsAreTheGrouping(h: Host, nodes: seq<Node>, rows: seq<Row>)
    ensures Groups(h, nodes, rows) <==> rows == Rows(h, nodes)
  {
    RowsGroup(h, nodes);
    if Groups(h, nodes, rows) { GroupingUnique(h, nodes, rows); }
  }

  // ---- the code ----

  /** The accumulators of makeGroupRow. */
  method Tally(nodes: seq<Node>) returns (totalElapsed: real, hasRunning: bool, hasError: bool, successCount: nat)
    ensures totalElapsed == TotalElapsed(nodes)
    ensures hasRunning == AnyStatus(nodes, Running) && hasError == AnyStatus(nodes, Error)
    ensures successCount == |Filter(nodes, HasStatus(Success))|
  {
    totalElapsed, hasRunning, hasError, successCount := 0.0, false, false, 0;
    for i := 0 to |nodes|
      invariant totalElapsed == TotalElapsed(nodes[..i])
      invariant hasRunning == AnyStatus(nodes[..i], Running) && hasError == AnyStatus(nodes[..i], Error)
      invariant successCount == |Filter(nodes[..i], HasStatus(Success))|
    {
      TallyStep(nodes, i);
      var status := Normalize(nodes[i].status);
      if status == Running { hasRunning := true; }
      if status == Error { hasError := true; }
      if status == Success { successCount := successCount + 1; }
      if nodes[i].elapsed.Seconds? { totalElapsed := totalElapsed + nodes[i].elapsed.s; }
    }
    assert nodes[..|nodes|] == nodes;
  }

  lemma TallyStep(nodes: seq<Node>, i: nat)
    requires i < |nodes|
    ensures var init, next, status := nodes[..i], nodes[..i + 1], Normalize(nodes[i].status);
      && TotalElapsed(next) == TotalElapsed(init) + (if nodes[i].elapsed.Seconds? then nodes[i].elapsed.s else 0.0)
      && AnyStatus(next, Running) == (AnyStatus(init, Running) || status == Running)
      && AnyStatus(next, Error) == (AnyStatus(init, Error) || status == Error)
      && |Filter(next, HasStatus(Success))| == |Filter(init, HasStatus(Success))| + if status == Success then 1 else 0
  {
    FilterAppend(nodes[..i], [nodes[i]], HasStatus(Success));
    AnyStatusAppend(nodes[..i], nodes[i], Running);
    AnyStatusAppend(nodes[..i], nodes[i], Error);
    assert nodes[..i + 1] == nodes[..i] + [nodes[i]] && nodes[..i + 1][..i] == nodes[..i];
  }

  /** makeGroupRow. */
  method MakeGroupRow(h: Host, key: string, nodes: seq<Node>) returns (row: Row)
    requires nodes != []
    ensures row == GroupRow(key, nodes, Summarize(h, nodes))
  {
    var totalElapsed, hasRunning, hasError, successCount := Tally(nodes);
    var latest := nodes[|nodes| - 1];
    row := GroupRow(key, nodes, Summary(|nodes|, successCount, hasRunning, hasError, totalElapsed,
      if hasError then Error else if hasRunning then Running else Success,
      h.subtitle(latest, Normalize(latest.status) == Running), h.iconKind(latest.toolName)));
  }

  /** flushBuffer. */
  method FlushBuffer(h: Host, key: string, buffer: seq<Node>) returns (rows: seq<Row>)
    ensures rows == Flush(h, key, buffer)
  {
    if |buffer| >= GROUP_MIN {
      var row := MakeGroupRow(h, key, buffer);
      return [row];
    }
    rows := [];
    for i := 0 to |buffer|
      invariant rows == Singles(buffer[..i])
    {
      rows := rows + [NodeRow(buffer[i])];
      assert rows == Singles(buffer[..i + 1]);
    }
    assert buffer[..|buffer|] == buffer;
  }

  /** A node that does not carry the buffer on flushes it. */
  lemma NodeFlushes(h: Host, key: string, buffer: seq<Node>, node: Node, rest: seq<Node>)
    requires AllKeyed(h, buffer, key) && (key == "" ==> buffer == []) && (Key(h, node) == "" || Key(h, node) != key)
    ensures Rows(h, buffer + ([node] + rest)) == Flush(h, key, buffer) + Rows(h, [node] + rest)
    ensures Key(h, node) == "" ==> Rows(h, [node] + rest) == [NodeRow(node)] + Rows(h, rest)
  {
    assert ([node] + rest)[0] == node && ([node] + rest)[1..] == rest;
    if key != "" {
      RunFlushes(h, buffer, [node] + rest, key);
    } else {
      assert buffer + ([node] + rest) == [node] + rest;
      assert Flush(h, key, buffer) == [];
    }
  }

  lemma EndFlushes(h: Host, key: string, buffer: seq<Node>, rest: seq<Node>)
    requires AllKeyed(h, buffer, key) && (key == "" ==> buffer == []) && rest == []
    ensures Rows(h, buffer + rest) == Flush(h, key, buffer)
  {
    assert buffer + rest == buffer;
    if key != "" {
      RunFlushes(h, buffer, [], key);
      assert buffer + [] == buffer;
      assert Flush(h, key, buffer) + [] == Flush(h, key, buffer);
    }
  }

  /** One turn of the loop over the nodes: the rows it emits, and the buffer it leaves. */
  method TakeNode(h: Host, bufferKey: string, buffer: seq<Node>, node: Node, ghost rest: seq<Node>)
    returns (emitted: seq<Row>, nextKey: string, next: seq<Node>)
    requires AllKeyed(h, buffer, bufferKey) && (bufferKey == "" ==> buffer == [])
    ensures AllKeyed(h, next, nextKey) && (nextKey == "" ==> next == [])
    ensures Rows(h, buffer + ([node] + rest)) == emitted + Rows(h, next + rest)
  {
    var key := Key(h, node);
    if key != "" && key == bufferKey {
      NodesAssociate(buffer, node, rest);
      NoRows(Rows(h, buffer + ([node] + rest)));
      return [], bufferKey, buffer + [node];
    }
    NodeFlushes(h, bufferKey, buffer, node, rest);
    emitted := FlushBuffer(h, bufferKey, buffer);
    if key != "" { return emitted, key, [node]; }
    RowsAssociate(emitted, [NodeRow(node)], Rows(h, rest));
    NoBuffer(rest);
    return emitted + [NodeRow(node)], "", [];
  }

  method BuildActionRows(h: Host, nodes: seq<Node>) returns (rows: seq<Row>)
    ensures Groups(h, nodes, rows)
  {
    rows := [];
    var buffer, bufferKey := [], "";
    ghost var rest := nodes;
    NoBuffer(nodes);
    for i := 0 to |nodes|
      invariant rest == nodes[i..]
      invariant AllKeyed(h, buffer, bufferKey) && (bufferKey == "" ==> buffer == [])
      invariant rows + Rows(h, buffer + rest) == Rows(h, nodes)
    {
      ghost var next := nodes[i + 1..];
      SuffixStep(nodes, i);
      var emitted, nextKey, nextBuffer := TakeNode(h, bufferKey, buffer, nodes[i], next);
      RowsAssociate(rows, emitted, Rows(h, nextBuffer + next));
      rows, buffer, bufferKey := rows + emitted, nextBuffer, nextKey;
      rest := next;
    }
    EndFlushes(h, bufferKey, buffer, rest);
    var flushed := FlushBuffer(h, bufferKey, buffer);
    rows := rows + flushed;
    RowsGroup(h, nodes);
  }

  lemma Cut(nodes: seq<Node>, n: nat)
    requires n <= |nodes|
    ensures nodes == nodes[..n] + nodes[n..]
  {
  }

  lemma SuffixStep(nodes: seq<Node>, i: nat)
    requires i < |nodes|
    ensures nodes[i..] == [nodes[i]] + nodes[i + 1..]
    ensures i == 0 ==> nodes == [nodes[0]] + nodes[1..]
  {
  }

  lemma NoRows(rows: seq<Row>)
    ensures [] + rows == rows
  {
  }

  lemma NoBuffer(nodes: seq<Node>)
    ensures [] + nodes == nodes
  {
  }

  lemma NodesAssociate(buffer: seq<Node>, node: Node, rest: seq<Node>)
    ensures buffer + ([node] + rest) == (buffer + [node]) + rest
  {
  }

  lemma RowsAssociate(a: seq<Row>, b: seq<Row>, c: seq<Row>)
    ensures (a + b) + c == a + (b + c)
  {
  }

  /** What a group's badge tells: it shows success iff nothing in it failed or runs, which is
      less than all of it having succeeded. */
  lemma GroupStatus(h: Host, nodes: seq<Node>)
    requires nodes != []
    ensures var s := Summarize(h, nodes);
      && s.successCount <= s.count
      && (s.successCount == s.count <==> forall i :: 0 <= i < |nodes| ==> Normalize(nodes[i].status) == Success)
      && (s.status == Success <==>
            forall i :: 0 <= i < |nodes| ==> Normalize(nodes[i].status) in {Success, Stopped, Pending})
      && (s.successCount == s.count ==> s.status == Success)
  {
    FilterCounts(nodes, HasStatus(Success));
    if |Filter(nodes, HasStatus(Success))| == |nodes| {
      assert forall i :: 0 <= i < |nodes| ==> HasStatus(Success)(nodes[i]);
    } else {
      assert exists i :: 0 <= i < |nodes| && !HasStatus(Success)(nodes[i]);
    }
    assert forall i :: 0 <= i < |nodes| ==> Normalize(nodes[i].status) in {Success, Stopped, Pending, Error, Running};
  }

  lemma {:induction false} FilterCounts(nodes: seq<Node>, p: Node -> bool)
    ensures |Filter(nodes, p)| <= |nodes|
    ensures |Filter(nodes, p)| == |nodes| <==> forall i :: 0 <= i < |nodes| ==> p(nodes[i])
  {
    if nodes != [] {
      FilterCounts(nodes[1..], p);
      assert forall i :: 1 <= i < |nodes| ==> nodes[i] == nodes[1..][i - 1];
      assert forall i :: 0 <= i < |nodes[1..]| ==> nodes[1..][i] == nodes[i + 1];
    }
  }
}
