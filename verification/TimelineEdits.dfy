/** The root timeline under its edits: the list of messages, the index that designates the
    streaming assistant, and what each edit does to both. */
module TimelineEdits {
  import opened Sequences
  import opened TimelineMessages
  import opened TimelineSort
  import opened TimelineReconcile
  import StableSort

  /** `cursor` is activeRun.assistantMsgIndex, -1 for none. */
  datatype Timeline<!M> = Timeline(rows: seq<M>, cursor: int, heap: Heap<M>) {
    predicate Designates(m: M) { 0 <= cursor < |rows| && rows[cursor] == m }

    predicate Aimed() { 0 <= cursor < |rows| }
  }

  datatype Edit<!M> =
    /** Any assignment to a message's properties outside the list edits, such as streaming. */
    | Mutate(target: M, props: Props)
    | Reconcile(page: seq<M>, preserveLive: bool)
    | Upsert(message: M)
    | Reorder
    | InsertUser(message: M, run: string)
    | Append(message: M)
    | RemovePending

  /** The index that designates, in `next`, what the cursor designated before. */
  function ReAim<M(==)>(rows: seq<M>, cursor: int, next: seq<M>): int {
    if 0 <= cursor < |rows| then IndexOf(next, rows[cursor]) else cursor
  }

  /** `findIndex` of an assistant the predicate accepts. */
  function FindFirst<M>(rows: seq<M>, p: M -> bool): (i: int)
    ensures -1 <= i < |rows|
    ensures i >= 0 ==> p(rows[i])
    ensures forall j :: 0 <= j < (if i < 0 then |rows| else i) ==> !p(rows[j])
  {
    if rows == [] then -1
    else if p(rows[0]) then 0
    else var k := FindFirst(rows[1..], p); if k < 0 then -1 else k + 1
  }

  lemma {:induction false} FindFirstAgrees<M>(rows: seq<M>, p: M -> bool, q: M -> bool)
    requires forall m :: m in rows ==> p(m) == q(m)
    ensures FindFirst(rows, p) == FindFirst(rows, q)
  {
    if rows != [] {
      assert rows[0] in rows && forall m :: m in rows[1..] ==> m in rows;
      FindFirstAgrees(rows[1..], p, q);
    }
  }

  function AssistantOfRun<M>(heap: Heap<M>, run: string): M -> bool {
    m => IsAssistant(At(heap, m)) && RunOf(At(heap, m)) == run
  }

  function AssistantOfDispatcherRun<M>(heap: Heap<M>, run: string): M -> bool {
    m => IsAssistant(At(heap, m)) && DispatcherRunOf(At(heap, m)) == run
  }

  predicate IsFinished(p: Props) {
    Key.Finished in p && p[Key.Finished] == Flag(true)
  }

  /** upsertParticipantMessage before its sort: merge in place, insert before the carrier of
      the run, or append. */
  function Upserted<M(==)>(rows: seq<M>, heap: Heap<M>, message: M): (r: (seq<M>, Heap<M>)) {
    var p := At(heap, message);
    var i := FindUnclaimed(rows, [], heap, p, 0);
    if i >= 0 then (rows, MergeInto(heap, rows[i], message, true))
    else if IsUser(p) && MetaOf(p).agentMessage && RunOf(p) != "" then
      var carrier := FindFirst(rows, AssistantOfRun(heap, RunOf(p)));
      (Insert(rows, if carrier >= 0 then carrier else |rows|, message), heap)
    else (rows + [message], heap)
  }

  /** The index insertNewRunUserMessage inserts at, or -1 to append. */
  function InsertionPoint<M>(t: Timeline<M>, run: string): (i: int)
    ensures -1 <= i < |t.rows|
  {
    var i := FindFirst(t.rows, AssistantOfDispatcherRun(t.heap, run));
    if i < 0 && t.Aimed() && IsAssistant(At(t.heap, t.rows[t.cursor])) && !IsFinished(At(t.heap, t.rows[t.cursor]))
    then t.cursor else i
  }

  function Inserted<M>(t: Timeline<M>, message: M, run: string): Timeline<M> {
    var i := InsertionPoint(t, run);
    if i < 0 then t.(rows := t.rows + [message])
    else t.(rows := Insert(t.rows, i, message), cursor := if t.cursor >= i then t.cursor + 1 else t.cursor)
  }

  /** removeCompactPendingMessages with `n` positions still to look at, from the back. */
  function PendingRemoved<M>(t: Timeline<M>, n: nat): Timeline<M>
    requires n <= |t.rows|
    decreases n
  {
    if n == 0 then t
    else if IsCompactPending(At(t.heap, t.rows[n - 1])) then
      PendingRemoved(Spliced(t, n), n - 1)
    else PendingRemoved(t, n - 1)
  }

  function Apply<M(==)>(t: Timeline<M>, e: Edit<M>): Timeline<M> {
    match e
    case Mutate(m, props) => t.(heap := t.heap[m := props])
    case Reconcile(page, preserveLive) =>
      var (next, heap) := Reconciled(t.rows, page, t.heap, preserveLive);
      Timeline(next, ReAim(t.rows, t.cursor, next), heap)
    case Upsert(message) =>
      var (rows, heap) := Upserted(t.rows, t.heap, message);
      var next := Sort(rows, heap);
      Timeline(next, ReAim(t.rows, t.cursor, next), heap)
    case Reorder =>
      var next := Sort(t.rows, t.heap);
      Timeline(next, ReAim(t.rows, t.cursor, next), t.heap)
    case InsertUser(message, run) => Inserted(t, message, run)
    case Append(message) => t.(rows := t.rows + [message])
    case RemovePending => PendingRemoved(t, |t.rows|)
  }

  function Run<M(==)>(t: Timeline<M>, edits: seq<Edit<M>>): Timeline<M>
    decreases |edits|
  {
    if edits == [] then t else Run(Apply(t, edits[0]), edits[1..])
  }

  // ---- removal of the transient rows ----

  function NotPending<M>(heap: Heap<M>): M -> bool { m => !IsCompactPending(At(heap, m)) }

  /** One splice of the removal loop. */
  function Spliced<M>(t: Timeline<M>, n: nat): Timeline<M>
    requires 0 < n <= |t.rows|
  {
    t.(rows := Remove(t.rows, n - 1), cursor := if t.cursor > n - 1 then t.cursor - 1 else t.cursor)
  }

  /** Removing the transient rows keeps the others in order. */
  lemma {:induction false} PendingRemovedRows<M>(t: Timeline<M>, n: nat)
    requires n <= |t.rows|
    ensures PendingRemoved(t, n).rows == Filter(t.rows[..n], NotPending(t.heap)) + t.rows[n..]
    ensures PendingRemoved(t, n).heap == t.heap
    decreases n
  {
    if n > 0 {
      var last := t.rows[n - 1];
      FilterLast(t.rows, n, NotPending(t.heap));
      if IsCompactPending(At(t.heap, last)) {
        PendingRemovedRows(Spliced(t, n), n - 1);
        assert Spliced(t, n).rows[..n - 1] == t.rows[..n - 1] && Spliced(t, n).rows[n - 1..] == t.rows[n..];
      } else {
        PendingRemovedRows(t, n - 1);
        assert t.rows[n - 1..] == [last] + t.rows[n..];
      }
    }
  }

  lemma FilterLast<M>(rows: seq<M>, n: nat, p: M -> bool)
    requires 0 < n <= |rows|
    ensures Filter(rows[..n], p) == Filter(rows[..n - 1], p) + if p(rows[n - 1]) then [rows[n - 1]] else []
  {
    assert rows[..n] == rows[..n - 1] + [rows[n - 1]];
    FilterAppend(rows[..n - 1], [rows[n - 1]], p);
  }

  /** The rows kept before an index. */
  function KeptBefore<M>(t: Timeline<M>, i: nat): nat
    requires i <= |t.rows|
  {
    |Filter(t.rows[..i], NotPending(t.heap))|
  }

  /** The cursor goes down by the transient rows removed before it; a removal at the cursor
      itself leaves it where it is. */
  lemma {:induction false} PendingRemovedCursor<M>(t: Timeline<M>, n: nat)
    requires n <= |t.rows|
    ensures PendingRemoved(t, n).cursor ==
      if t.cursor < 0 then t.cursor
      else if t.cursor < n then KeptBefore(t, t.cursor)
      else KeptBefore(t, n) + (t.cursor - n)
    decreases n
  {
    if n > 0 {
      FilterLast(t.rows, n, NotPending(t.heap));
      if IsCompactPending(At(t.heap, t.rows[n - 1])) {
        var next := Spliced(t, n);
        PendingRemovedCursor(next, n - 1);
        assert next.rows[..n - 1] == t.rows[..n - 1];
        if 0 <= t.cursor < n { assert next.rows[..t.cursor] == t.rows[..t.cursor]; }
      } else {
        PendingRemovedCursor(t, n - 1);
      }
    }
  }

  /** The filtered rows up to an index are a front part of all filtered rows, and the row at the
      index comes right after them when it is kept. */
  lemma FilterSplits<M>(rows: seq<M>, i: nat, p: M -> bool)
    requires i < |rows|
    ensures var k := |Filter(rows[..i], p)|;
      p(rows[i]) ==> k < |Filter(rows, p)| && Filter(rows, p)[k] == rows[i]
  {
    assert rows == rows[..i + 1] + rows[i + 1..];
    FilterAppend(rows[..i + 1], rows[i + 1..], p);
    FilterLast(rows, i + 1, p);
  }

  /** Removing the transient rows keeps the others in order and moves the cursor to the number of
      rows kept before it: its message, when that is kept, and else the row that followed it. */
  lemma PendingRemovedKeeps<M>(t: Timeline<M>)
    ensures var u := Apply(t, RemovePending);
      && u.rows == Filter(t.rows, NotPending(t.heap)) && u.heap == t.heap
      && (t.cursor < 0 ==> u.cursor == t.cursor)
      && (t.Aimed() ==> u.cursor == KeptBefore(t, t.cursor))
  {
    PendingRemovedRows(t, |t.rows|);
    PendingRemovedCursor(t, |t.rows|);
    assert t.rows[..|t.rows|] == t.rows && t.rows[|t.rows|..] == [];
  }

  /** The cursor survives the removal exactly when its message is not transient. */
  lemma RemovePendingCursor<M>(t: Timeline<M>)
    requires t.Aimed()
    ensures Apply(t, RemovePending).Designates(t.rows[t.cursor]) <==> !IsCompactPending(At(t.heap, t.rows[t.cursor]))
    ensures t.rows[t.cursor] in Apply(t, RemovePending).rows <==> !IsCompactPending(At(t.heap, t.rows[t.cursor]))
  {
    PendingRemovedKeeps(t);
    FilterMember(t.rows, NotPending(t.heap), t.rows[t.cursor]);
    FilterSplits(t.rows, t.cursor, NotPending(t.heap));
  }

  /** With the index on a transient row, which takes an index left over from another list, the
      removal hands the cursor to the row behind it. */
  lemma StaleCursorMovesOn(heap: Heap<bool>)
    requires IsCompactPending(At(heap, false)) && !IsCompactPending(At(heap, true))
    ensures var t := Timeline([false, true], 0, heap);
      Apply(t, RemovePending).Designates(true) && !Apply(t, RemovePending).Designates(false)
  {
    var t := Timeline([false, true], 0, heap);
    PendingRemovedKeeps(t);
    assert Filter([true], NotPending(heap)) == [true] && [false, true][1..] == [true];
  }

  // ---- one edit ----

  /** The edit removes the message the cursor designates. */
  ghost predicate Loses<M>(t: Timeline<M>, e: Edit<M>) {
    t.Aimed() && t.rows[t.cursor] !in Apply(t, e).rows
  }

  lemma SortMember<M(!new)>(rows: seq<M>, heap: Heap<M>, m: M)
    ensures m in Sort(rows, heap) <==> m in rows
  {
    SortPermutes(rows, heap);
    assert m in Sort(rows, heap) <==> m in multiset(Sort(rows, heap));
    assert m in rows <==> m in multiset(rows);
  }

  /** One edit keeps the cursor on the same message exactly unless it removes that message. Only
      two edits can: a reconcile, which then clears the cursor, and the removal of the
      transient rows, which then leaves it on the row that followed. */
  lemma StepKeepsCursor<M(!new)>(t: Timeline<M>, e: Edit<M>)
    requires t.Aimed()
    ensures Apply(t, e).Designates(t.rows[t.cursor]) <==> !Loses(t, e)
    ensures Loses(t, e) ==> e.Reconcile? || e.RemovePending?
    ensures Loses(t, e) && e.Reconcile? ==> Apply(t, e).cursor == -1
    ensures Loses(t, e) && e.RemovePending? ==> Apply(t, e).cursor == KeptBefore(t, t.cursor)
  {
    var m := t.rows[t.cursor];
    match e
    case Mutate(_, _) =>
    case Reconcile(_, _) =>
    case Upsert(message) =>
      var (rows, heap) := Upserted(t.rows, t.heap, message);
      assert m in rows by { UpsertedKeeps(t.rows, t.heap, message, t.cursor); }
      SortMember(rows, heap, m);
    case Reorder => SortMember(t.rows, t.heap, m);
    case InsertUser(message, run) =>
      var u := Apply(t, e);
      assert u.rows[u.cursor] == m;
    case Append(_) =>
    case RemovePending =>
      PendingRemovedKeeps(t);
      RemovePendingCursor(t);
  }

  lemma UpsertedKeeps<M>(rows: seq<M>, heap: Heap<M>, message: M, i: nat)
    requires i < |rows|
    ensures rows[i] in Upserted(rows, heap, message).0
  {
    var next := Upserted(rows, heap, message).0;
    assert next[if |next| == |rows| || next[i] == rows[i] then i else i + 1] == rows[i];
  }

  /** A reconcile loses the cursor exactly when no page row claims the message, the message is
      persisted and the page does not carry that very object unmatched. */
  lemma ReconcileLoses<M(!new)>(t: Timeline<M>, page: seq<M>, preserveLive: bool)
    requires t.Aimed() && Distinct(t.rows)
    ensures var c := ClaimAll(t.rows, page, t.heap, preserveLive);
      Loses(t, Reconcile(page, preserveLive)) <==>
        && t.cursor !in c.claims
        && Persisted(At(t.heap, t.rows[t.cursor]))
        && !ArrivesUnmatched(page, c, t.rows[t.cursor])
  {
    ReconcileDrops(t.rows, page, t.heap, preserveLive, t.cursor);
  }

  /** Saving a user message under a number: after the re-sort that follows, every streaming
      assistant of its run stands behind it. Its run is its own, else the one the event names. */
  lemma SavedMessagePrecedesCarriers<M(!new)>(
    t: Timeline<M>, target: M, saved: SavedEvent, hasRoot: Value -> bool, carrier: M)
    requires Distinct(t.rows) && target in t.rows && IsUser(At(t.heap, target))
    requires saved.seqNo.Number? && -MAX_SAFE_INTEGER <= saved.seqNo.number <= MAX_SAFE_INTEGER
    ensures var p := At(t.heap, target);
      var u := Apply(Apply(t, Mutate(target, SavedProps(p, saved, hasRoot))), Reorder);
      var run := if TextOf(p, RunId) != "" then TextOf(p, RunId)
                 else Named(saved.runId, Or(saved.metadata.runId, MetaOf(p).runId));
      carrier in u.rows && IsCarrier(At(u.heap, carrier)) && RunOf(At(u.heap, carrier)) == run ==>
        target in u.rows && IndexOf(u.rows, target) < IndexOf(u.rows, carrier)
  {
    var p := At(t.heap, target);
    var mutated := Apply(t, Mutate(target, SavedProps(p, saved, hasRoot)));
    var u := Apply(mutated, Reorder);
    SavedRun(p, saved, hasRoot);
    SavedKeeps(p, saved, hasRoot, Role);
    SortingEditsOrder(mutated, Reorder);
    SortMember(t.rows, mutated.heap, target);
    if carrier in u.rows && IsCarrier(At(u.heap, carrier)) && RunOf(At(u.heap, carrier)) == RunOf(At(u.heap, target)) {
      var i, j := IndexOf(u.rows, carrier), IndexOf(u.rows, target);
      assert u.rows[i] == carrier && u.rows[j] == target;
      assert IsBoundary(At(u.heap, target), RunOf(At(u.heap, carrier)));
    }
  }

  /** Every edit that sorts leaves each carrier behind all boundaries of its run and the
      persisted rows in ascending order, judged by the properties after the edit. */
  lemma SortingEditsOrder<M(!new)>(t: Timeline<M>, e: Edit<M>)
    requires Distinct(t.rows) && BringsFresh(t, e) && (e.Reconcile? || e.Upsert? || e.Reorder?)
    ensures var u := Apply(t, e);
      && StableSort.Sorted(Filter(u.rows, PersistedIn(u.heap)), BySeq(u.heap))
      && forall c :: c in u.rows && IsCarrier(At(u.heap, c)) ==> Placed(u.rows, u.heap, c)
  {
    match e
    case Reconcile(page, preserveLive) =>
      ReconcileDistinct(t.rows, page, t.heap, preserveLive);
      var c := ClaimAll(t.rows, page, t.heap, preserveLive);
      var unsorted := c.durable + Live(t.rows, c.claims, c.heap, 0);
      SortPermutes(unsorted, c.heap);
      DistinctPermutation(Sort(unsorted, c.heap), unsorted);
      SortedIsOrdered(unsorted, c.heap);
    case Upsert(message) =>
      var (rows, heap) := Upserted(t.rows, t.heap, message);
      SortedIsOrdered(rows, heap);
    case Reorder => SortedIsOrdered(t.rows, t.heap);
  }

  lemma SortedIsOrdered<M(!new)>(rows: seq<M>, heap: Heap<M>)
    requires Distinct(rows)
    ensures StableSort.Sorted(Filter(Sort(rows, heap), PersistedIn(heap)), BySeq(heap))
    ensures forall c :: c in Sort(rows, heap) && IsCarrier(At(heap, c)) ==> Placed(Sort(rows, heap), heap, c)
  {
    SortOrders(rows, heap);
    forall c | c in Sort(rows, heap) ensures c in rows { SortMember(rows, heap, c); }
  }

  // ---- whole runs ----

  /** Some edit along the run removes the message the cursor designates. */
  ghost predicate LosesAlong<M>(t: Timeline<M>, edits: seq<Edit<M>>)
    decreases |edits|
  {
    edits != [] && (Loses(t, edits[0]) || LosesAlong(Apply(t, edits[0]), edits[1..]))
  }

  /** The first edit that does is a reconcile. */
  ghost predicate DropsAlong<M>(t: Timeline<M>, edits: seq<Edit<M>>)
    decreases |edits|
  {
    edits != [] &&
    if Loses(t, edits[0]) then edits[0].Reconcile? else DropsAlong(Apply(t, edits[0]), edits[1..])
  }

  /** Cursor stability over every sequence of edits: the cursor designates the same message until
      an edit removes it; when that edit is a reconcile the cursor is cleared for good. */
  lemma {:induction false} RunKeepsCursor<M(!new)>(t: Timeline<M>, edits: seq<Edit<M>>)
    requires t.Aimed()
    ensures !LosesAlong(t, edits) ==> Run(t, edits).Designates(t.rows[t.cursor])
    ensures DropsAlong(t, edits) ==> Run(t, edits).cursor == -1
    decreases |edits|
  {
    if edits != [] {
      var next := Apply(t, edits[0]);
      StepKeepsCursor(t, edits[0]);
      if !Loses(t, edits[0]) {
        RunKeepsCursor(next, edits[1..]);
      } else if edits[0].Reconcile? {
        ClearedStaysCleared(next, edits[1..]);
      }
    }
  }

  lemma {:induction false} ClearedStaysCleared<M>(t: Timeline<M>, edits: seq<Edit<M>>)
    requires t.cursor == -1
    ensures Run(t, edits).cursor == -1
    decreases |edits|
  {
    if edits != [] {
      PendingRemovedKeeps(t);
      ClearedStaysCleared(Apply(t, edits[0]), edits[1..]);
    }
  }

  /** An edit that could turn the message into a transient row, or drop it. */
  predicate Touches<M(==)>(e: Edit<M>, m: M) {
    match e
    case Mutate(target, props) => target == m && IsCompactPending(props)
    case Reconcile(_, _) => true
    case Upsert(_) => true
    case _ => false
  }

  /** In particular streaming, re-sorting, inserting and removing transient rows never take the
      cursor off a message that is not transient itself. */
  lemma {:induction false} OrdinaryMessageKeepsCursor<M(!new)>(t: Timeline<M>, edits: seq<Edit<M>>)
    requires t.Aimed() && !IsCompactPending(At(t.heap, t.rows[t.cursor]))
    requires forall i :: 0 <= i < |edits| ==> !Touches(edits[i], t.rows[t.cursor])
    ensures !LosesAlong(t, edits) && Run(t, edits).Designates(t.rows[t.cursor])
    decreases |edits|
  {
    if edits != [] {
      var next, m := Apply(t, edits[0]), t.rows[t.cursor];
      assert !Touches(edits[0], m);
      StepKeepsCursor(t, edits[0]);
      RemovePendingCursor(t);
      PendingRemovedKeeps(t);
      forall i | 0 <= i < |edits| - 1 ensures !Touches(edits[1..][i], m) { assert edits[1..][i] == edits[i + 1]; }
      OrdinaryMessageKeepsCursor(next, edits[1..]);
    }
  }

  /** The objects the edit brings are not in the list yet. */
  ghost predicate BringsFresh<M>(t: Timeline<M>, e: Edit<M>) {
    match e
    case Reconcile(page, _) => Distinct(page) && forall m :: m in page ==> m !in t.rows
    case Upsert(message) => message !in t.rows
    case InsertUser(message, _) => message !in t.rows
    case Append(message) => message !in t.rows
    case _ => true
  }

  ghost predicate BringsFreshAlong<M>(t: Timeline<M>, edits: seq<Edit<M>>)
    decreases |edits|
  {
    edits == [] || (BringsFresh(t, edits[0]) && BringsFreshAlong(Apply(t, edits[0]), edits[1..]))
  }

  lemma SortKeepsDistinct<M(!new)>(rows: seq<M>, heap: Heap<M>)
    requires Distinct(rows)
    ensures Distinct(Sort(rows, heap))
  {
    SortPermutes(rows, heap);
    DistinctPermutation(rows, Sort(rows, heap));
  }

  lemma InsertKeepsDistinct<M>(rows: seq<M>, i: nat, m: M)
    requires Distinct(rows) && m !in rows && i <= |rows|
    ensures Distinct(Insert(rows, i, m))
  {
  }

  lemma UpsertKeepsDistinct<M>(rows: seq<M>, heap: Heap<M>, message: M)
    requires Distinct(rows) && message !in rows
    ensures Distinct(Upserted(rows, heap, message).0)
  {
    var carrier := FindFirst(rows, AssistantOfRun(heap, RunOf(At(heap, message))));
    InsertKeepsDistinct(rows, if carrier >= 0 then carrier else |rows|, message);
  }

  lemma StepKeepsDistinct<M(!new)>(t: Timeline<M>, e: Edit<M>)
    requires Distinct(t.rows) && BringsFresh(t, e)
    ensures Distinct(Apply(t, e).rows)
  {
    match e
    case Mutate(_, _) =>
    case Reconcile(page, preserveLive) => ReconcileDistinct(t.rows, page, t.heap, preserveLive);
    case Upsert(message) =>
      UpsertKeepsDistinct(t.rows, t.heap, message);
      SortKeepsDistinct(Upserted(t.rows, t.heap, message).0, Upserted(t.rows, t.heap, message).1);
    case Reorder => SortKeepsDistinct(t.rows, t.heap);
    case InsertUser(message, run) =>
      if InsertionPoint(t, run) >= 0 { InsertKeepsDistinct(t.rows, InsertionPoint(t, run), message); }
    case Append(message) => DistinctAppend(t.rows, [message]);
    case RemovePending =>
      PendingRemovedKeeps(t);
      FilterDistinct(t.rows, NotPending(t.heap));
  }

  /** No run of edits ever puts a message in the list twice. */
  lemma {:induction false} RunKeepsDistinct<M(!new)>(t: Timeline<M>, edits: seq<Edit<M>>)
    requires Distinct(t.rows) && BringsFreshAlong(t, edits)
    ensures Distinct(Run(t, edits).rows)
    decreases |edits|
  {
    if edits != [] {
      StepKeepsDistinct(t, edits[0]);
      RunKeepsDistinct(Apply(t, edits[0]), edits[1..]);
    }
  }
}
