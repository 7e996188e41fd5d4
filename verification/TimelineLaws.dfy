/** What the timeline does, told by the properties that messages store. The statements below have
    their own vocabulary: none of it is used by the operations they are about. */
module TimelineLaws {
  import opened Sequences
  import opened TimelineMessages
  import opened TimelineSort
  import opened TimelineReconcile
  import opened TimelineEdits
  import StableSort

  // ---- what a message says ----

  predicate Says(p: Props, k: Key, text: string) { k in p && p[k] == Text(text) }

  /** It has a sequence number that a double holds exactly. */
  predicate Numbered(p: Props) {
    Seq in p && p[Seq].Number? && -9007199254740991 <= p[Seq].number <= 9007199254740991
  }

  predicate Told(p: Props) { Metadata in p && p[Metadata].Record? }

  /** It belongs to the run: by its run id or, when it has none, by its metadata. */
  predicate InRun(p: Props, run: string) {
    run != "" &&
    if RunId in p && p[RunId].Text? && p[RunId].text != "" then Says(p, RunId, run)
    else Told(p) && p[Metadata].meta.runId == run
  }

  /** A streaming assistant of the run. */
  predicate Streams(p: Props, run: string) { Says(p, Role, "assistant") && !Numbered(p) && InRun(p, run) }

  /** A persisted user message of the run. */
  predicate Bounds(p: Props, run: string) { Says(p, Role, "user") && Numbered(p) && InRun(p, run) }

  lemma NumberedMeans(p: Props)
    ensures Persisted(p) <==> Numbered(p)
    ensures Numbered(p) ==> SeqOf(p) == p[Seq].number
  {
  }

  lemma RunMeans(p: Props, run: string)
    ensures InRun(p, run) <==> run != "" && RunOf(p) == run
    ensures Streams(p, run) <==> IsCarrier(p) && RunOf(p) == run
    ensures run != "" ==> (Bounds(p, run) <==> IsBoundary(p, run))
  {
    NumberedMeans(p);
  }

  // ---- order ----

  /** The numbers ascend. */
  ghost predicate Ascending<M>(rows: seq<M>, heap: Heap<M>) {
    forall i, j :: 0 <= i < j < |rows| && Numbered(At(heap, rows[i])) && Numbered(At(heap, rows[j])) ==>
      At(heap, rows[i])[Seq].number <= At(heap, rows[j])[Seq].number
  }

  /** No persisted user message stands behind a streaming assistant of its run. */
  ghost predicate BoundariesFirst<M>(rows: seq<M>, heap: Heap<M>) {
    forall i, j, run :: 0 <= i < j < |rows| && Streams(At(heap, rows[i]), run) ==> !Bounds(At(heap, rows[j]), run)
  }

  ghost predicate Pairwise<M>(rows: seq<M>, p: M -> bool, le: (M, M) -> bool) {
    forall i, j :: 0 <= i < j < |rows| && p(rows[i]) && p(rows[j]) ==> le(rows[i], rows[j])
  }

  lemma SortedHead<M>(head: M, tail: seq<M>, le: (M, M) -> bool)
    ensures StableSort.Sorted([head] + tail, le) <==>
      StableSort.Sorted(tail, le) && forall y :: y in tail ==> le(head, y)
  {
    var all := [head] + tail;
    assert forall k :: 0 <= k < |tail| ==> all[k + 1] == tail[k];
    if StableSort.Sorted(all, le) {
      forall y | y in tail ensures le(head, y) {
        var k :| 0 <= k < |tail| && tail[k] == y;
        assert all[0] == head && all[k + 1] == y;
      }
    }
  }

  lemma PairwiseHead<M>(rows: seq<M>, p: M -> bool, le: (M, M) -> bool)
    requires rows != []
    ensures Pairwise(rows, p, le) <==>
      Pairwise(rows[1..], p, le) && (p(rows[0]) ==> forall y :: y in rows[1..] && p(y) ==> le(rows[0], y))
  {
    var tail := rows[1..];
    assert forall k :: 0 <= k < |tail| ==> tail[k] == rows[k + 1];
    if Pairwise(tail, p, le) && (p(rows[0]) ==> forall y :: y in tail && p(y) ==> le(rows[0], y)) {
      forall i, j | 0 <= i < j < |rows| && p(rows[i]) && p(rows[j]) ensures le(rows[i], rows[j]) {
        assert rows[j] == tail[j - 1];
        assert i > 0 ==> rows[i] == tail[i - 1];
      }
    }
  }

  lemma {:induction false} SortedFilter<M>(rows: seq<M>, p: M -> bool, le: (M, M) -> bool)
    ensures StableSort.Sorted(Filter(rows, p), le) <==> Pairwise(rows, p, le)
  {
    if rows != [] {
      var kept := Filter(rows[1..], p);
      SortedFilter(rows[1..], p, le);
      SortedHead(rows[0], kept, le);
      PairwiseHead(rows, p, le);
      assert Filter(rows, p) == if p(rows[0]) then [rows[0]] + kept else kept;
      if forall y :: y in kept ==> le(rows[0], y) {
        forall y | y in rows[1..] && p(y) ensures le(rows[0], y) { FilterMember(rows[1..], p, y); }
      } else {
        var y :| y in kept && !le(rows[0], y);
        FilterMember(rows[1..], p, y);
      }
    }
  }

  lemma AscendingMeans<M>(rows: seq<M>, heap: Heap<M>)
    ensures Ascending(rows, heap) <==> StableSort.Sorted(Filter(rows, PersistedIn(heap)), BySeq(heap))
  {
    SortedFilter(rows, PersistedIn(heap), BySeq(heap));
    forall m ensures Persisted(At(heap, m)) <==> Numbered(At(heap, m)) { NumberedMeans(At(heap, m)); }
  }

  lemma BoundariesFirstMeans<M>(rows: seq<M>, heap: Heap<M>)
    ensures BoundariesFirst(rows, heap) <==>
      forall c :: c in rows && IsCarrier(At(heap, c)) ==> Placed(rows, heap, c)
  {
    if BoundariesFirst(rows, heap) {
      forall c, i, j | IsCarrier(At(heap, c)) && 0 <= i < j < |rows| && rows[i] == c
        ensures !IsBoundary(At(heap, rows[j]), RunOf(At(heap, c)))
      {
        RunMeans(At(heap, c), RunOf(At(heap, c)));
        RunMeans(At(heap, rows[j]), RunOf(At(heap, c)));
      }
    } else {
      var i, j, run :| 0 <= i < j < |rows| && Streams(At(heap, rows[i]), run) && Bounds(At(heap, rows[j]), run);
      RunMeans(At(heap, rows[i]), run);
      RunMeans(At(heap, rows[j]), run);
      assert !Placed(rows, heap, rows[i]);
    }
  }

  /** Sorting puts the sequence numbers in ascending order and every streaming assistant behind
      the persisted user messages of its run. */
  lemma SortedByNumber<M(!new)>(rows: seq<M>, heap: Heap<M>)
    requires Distinct(rows)
    ensures multiset(Sort(rows, heap)) == multiset(rows)
    ensures Ascending(Sort(rows, heap), heap) && BoundariesFirst(Sort(rows, heap), heap)
  {
    SortPermutes(rows, heap);
    SortedIsOrdered(rows, heap);
    AscendingMeans(Sort(rows, heap), heap);
    BoundariesFirstMeans(Sort(rows, heap), heap);
  }

  /** And it leaves a list alone exactly when it is so already. */
  lemma SortFixesIff<M(!new)>(rows: seq<M>, heap: Heap<M>)
    requires Distinct(rows)
    ensures Sort(rows, heap) == rows <==> Ascending(rows, heap) && BoundariesFirst(rows, heap)
  {
    SortedByNumber(rows, heap);
    if Ascending(rows, heap) && BoundariesFirst(rows, heap) {
      AscendingMeans(rows, heap);
      BoundariesFirstMeans(rows, heap);
      SortFixesOrdered(rows, heap);
    }
  }

  /** Every sorting edit leaves the list so, by the properties after the edit. */
  lemma EditsSortByNumber<M(!new)>(t: Timeline<M>, e: Edit<M>)
    requires Distinct(t.rows) && BringsFresh(t, e) && (e.Reconcile? || e.Upsert? || e.Reorder?)
    ensures var u := Apply(t, e); Ascending(u.rows, u.heap) && BoundariesFirst(u.rows, u.heap)
  {
    var u := Apply(t, e);
    SortingEditsOrder(t, e);
    AscendingMeans(u.rows, u.heap);
    BoundariesFirstMeans(u.rows, u.heap);
  }

  /** Between the assistant at `y` and the nearest persisted user message of the run before it
      stand only streaming assistants of that run. */
  ghost predicate FollowsBoundary<M>(rows: seq<M>, heap: Heap<M>, y: nat, run: string)
    requires y < |rows|
  {
    exists k :: 0 <= k < y && Bounds(At(heap, rows[k]), run)
      && forall j :: k < j < y ==> Streams(At(heap, rows[j]), run)
  }

  /** Where the numbers ascend already, a streaming assistant that stands before a persisted user
      message of its run is moved right behind the last one. */
  lemma DisplacedFollowsBoundary<M(!new)>(rows: seq<M>, heap: Heap<M>, i: nat, j: nat, run: string)
    requires Distinct(rows) && Ascending(rows, heap) && i < j < |rows|
    requires Streams(At(heap, rows[i]), run) && Bounds(At(heap, rows[j]), run)
    ensures var y := IndexOf(Sort(rows, heap), rows[i]);
      y >= 0 && FollowsBoundary(Sort(rows, heap), heap, y, run)
  {
    var c, sorted := rows[i], Sort(rows, heap);
    RunMeans(At(heap, c), run);
    RunMeans(At(heap, rows[j]), run);
    AscendingMeans(rows, heap);
    SlottedFixesSorted(rows, heap);
    RelocatedCarriersHug(rows, heap, c);
    SortMember(rows, heap, c);
    SortedByNumber(rows, heap);
    var y, k := IndexOf(sorted, c), LastBoundary(sorted, heap, run);
    RunMeans(At(heap, sorted[k]), run);
    assert Streams(At(heap, sorted[y]), run) && Bounds(At(heap, sorted[k]), run);
    forall x | k < x < y ensures Streams(At(heap, sorted[x]), run) { RunMeans(At(heap, sorted[x]), run); }
  }

  /** The loop relocates the carriers one after another. */
  lemma EachIsRelocated<M>(rows: seq<M>, heap: Heap<M>, carriers: seq<M>, c: M)
    ensures RelocateAll(rows, heap, []) == rows
    ensures RelocateAll(rows, heap, carriers + [c]) == Relocate(RelocateAll(rows, heap, carriers), heap, c)
  {
    assert (carriers + [c])[..|carriers|] == carriers;
  }

  // ---- which message a row is ----

  predicate SharesId(c: Props, r: Props) {
    Id in r && r[Id].Text? && r[Id].text != "" && Id in c && c[Id] == r[Id]
  }

  ghost predicate SharesRun(c: Props, r: Props) { exists run :: InRun(c, run) && InRun(r, run) }

  predicate SharesRequest(c: Props, r: Props) {
    && Told(c) && Told(r)
    && r[Metadata].meta.requestId != "" && c[Metadata].meta.requestId == r[Metadata].meta.requestId
  }

  /** Two user rows that the system wrote from the same source. */
  predicate SharesSource(c: Props, r: Props) {
    && Says(c, Role, "user") && Says(r, Role, "user") && Told(c) && Told(r)
    && c[Metadata].meta.source == r[Metadata].meta.source
    && (r[Metadata].meta.source == "background_notification" || r[Metadata].meta.source == "goal_continuation")
  }

  /** Two records of one message: they share their id, or are assistants of one run, or system
      rows of one source with the same run or request. */
  ghost predicate SameMessage(c: Props, r: Props) {
    || SharesId(c, r)
    || (Says(c, Role, "assistant") && Says(r, Role, "assistant") && SharesRun(c, r))
    || (SharesSource(c, r) && (SharesRun(c, r) || SharesRequest(c, r)))
  }

  lemma SharesRunMeans(c: Props, r: Props)
    ensures SharesRun(c, r) <==> RunOf(r) != "" && RunOf(c) == RunOf(r)
  {
    RunMeans(c, RunOf(r));
    RunMeans(r, RunOf(r));
    forall run | InRun(c, run) && InRun(r, run) ensures run == RunOf(r) == RunOf(c) {
      RunMeans(c, run);
      RunMeans(r, run);
    }
  }

  lemma SameMessageMeans(c: Props, r: Props)
    ensures SameMessage(c, r) <==> Matches(c, r)
  {
    SharesRunMeans(c, r);
  }

  /** A row of a page of fresh objects claims exactly the first message, in list order, that it
      is a record of and that no earlier row claimed. */
  lemma FreshRowClaims<M>(current: seq<M>, page: seq<M>, heap: Heap<M>, preserveLive: bool, i: nat, x: nat)
    requires Distinct(current) && i < |page| && x < |current|
    requires forall m :: m in page ==> m !in current
    ensures var claims := ClaimAll(current, page, heap, preserveLive).claims; var row := At(heap, page[i]);
      claims[i] == x <==>
        && x !in claims[..i] && SameMessage(At(heap, current[x]), row)
        && forall y :: 0 <= y < x && SameMessage(At(heap, current[y]), row) ==> y in claims[..i]
  {
    FreshPageClaims(current, page, heap, preserveLive, i);
    forall y | 0 <= y < |current|
      ensures SameMessage(At(heap, current[y]), At(heap, page[i])) <==> Matches(At(heap, current[y]), At(heap, page[i]))
    {
      SameMessageMeans(At(heap, current[y]), At(heap, page[i]));
    }
  }

  /** After a reload every message is still there that has no number or that some row claimed. */
  lemma FreshPageDrops<M(!new)>(current: seq<M>, page: seq<M>, heap: Heap<M>, preserveLive: bool, x: nat)
    requires Distinct(current) && x < |current|
    requires forall m :: m in page ==> m !in current
    ensures current[x] !in Reconciled(current, page, heap, preserveLive).0 <==>
      Numbered(At(heap, current[x])) && x !in ClaimAll(current, page, heap, preserveLive).claims
  {
    ReconcileDrops(current, page, heap, preserveLive, x);
    NumberedMeans(At(heap, current[x]));
    assert current[x] in current;
  }

  // ---- merging ----

  predicate LiveKey(k: Key) {
    || k == ExecState || k == ExecutionRootCallId || k == ExecutionTree
    || k == StepsLoaded || k == StepsLoading || k == StepsLoadError
  }

  predicate SameRole(c: Props, r: Props) {
    (Says(c, Role, "user") && Says(r, Role, "user")) || (Says(c, Role, "assistant") && Says(r, Role, "assistant"))
  }

  predicate Holds(p: Props, k: Key) { k in p && !p[k].Undefined? && !p[k].Null? }

  /** `after` is the record `c` with the record `r` written into it: the execution fields that `c`
      holds stay when that is asked for and the roles agree; all else comes from `r`. */
  ghost predicate WrittenInto(c: Props, r: Props, preserveLive: bool, after: Props) {
    forall k :: k in after || k in c || k in r ==>
      && k in after && (k in c || k in r)
      && after[k] == if preserveLive && SameRole(c, r) && LiveKey(k) && Holds(c, k) then c[k]
                     else if k in r then r[k]
                     else c[k]
  }

  lemma MergedMeans(c: Props, r: Props, preserveLive: bool)
    ensures WrittenInto(c, r, preserveLive, Merged(c, r, preserveLive))
  {
    assert forall k :: Holds(c, k) <==> Present(c, k);
    assert forall k :: LiveKey(k) <==> k in EXECUTION_KEYS;
  }

  /** A message keeps its object through a reload: when a row of the page is a record of it and of
      nothing else in the list, and no earlier row is a record of it, the object stays in the list
      with the row written into it and its live execution intact. */
  lemma ReloadKeepsObject<M(!new)>(current: seq<M>, page: seq<M>, heap: Heap<M>, preserveLive: bool, i: nat, x: nat)
    requires Distinct(current) && i < |page| && x < |current|
    requires forall m :: m in page ==> m !in current
    requires forall y :: 0 <= y < |current| ==> (SameMessage(At(heap, current[y]), At(heap, page[i])) <==> y == x)
    requires forall j :: 0 <= j < i ==> !SameMessage(At(heap, current[x]), At(heap, page[j]))
    ensures var (rows, after) := Reconciled(current, page, heap, preserveLive);
      && current[x] in rows
      && WrittenInto(At(heap, current[x]), At(heap, page[i]), preserveLive, At(after, current[x]))
  {
    var claims := ClaimAll(current, page, heap, preserveLive).claims;
    forall j | 0 <= j < i ensures claims[j] != x { FreshRowClaims(current, page, heap, preserveLive, j, x); }
    FreshRowClaims(current, page, heap, preserveLive, i, x);
    assert claims[i] in claims;
    FreshPageDrops(current, page, heap, preserveLive, x);
    FreshPageClaims(current, page, heap, preserveLive, i);
    MergedMeans(At(heap, current[x]), At(heap, page[i]), preserveLive);
  }

  // ---- upserting ----

  ghost predicate FirstAt<M(!new)>(rows: seq<M>, k: int, p: M -> bool) {
    0 <= k < |rows| && p(rows[k]) && forall j :: 0 <= j < k ==> !p(rows[j])
  }

  ghost function RecordOf<M>(heap: Heap<M>, message: M): M -> bool {
    m => SameMessage(At(heap, m), At(heap, message))
  }

  ghost function AssistantIn<M>(heap: Heap<M>, run: string): M -> bool {
    m => Says(At(heap, m), Role, "assistant") && InRun(At(heap, m), run)
  }

  /** A user message that one agent wrote to another in a run. */
  predicate FromAgent(p: Props, run: string) {
    Says(p, Role, "user") && Told(p) && p[Metadata].meta.agentMessage && InRun(p, run)
  }

  /** An upsert of a message that some row is a record of never lengthens the list: it is written
      into the first such row. */
  lemma KnownMessageIsMerged<M(!new)>(rows: seq<M>, heap: Heap<M>, message: M, k: nat)
    requires FirstAt(rows, k, RecordOf(heap, message)) && message != rows[k]
    ensures var (next, after) := Upserted(rows, heap, message);
      && next == rows
      && WrittenInto(At(heap, rows[k]), At(heap, message), true, At(after, rows[k]))
      && forall m :: m != rows[k] ==> At(after, m) == At(heap, m)
  {
    var p := At(heap, message);
    forall m ensures SameMessage(At(heap, m), p) <==> Matches(At(heap, m), p) { SameMessageMeans(At(heap, m), p); }
    assert FindUnclaimed(rows, [], heap, p, 0) == k;
    UpsertMergesLive(rows, heap, message, k);
    MergedMeans(At(heap, rows[k]), p, true);
  }

  lemma UpsertMergesLive<M>(rows: seq<M>, heap: Heap<M>, message: M, k: int)
    requires FindUnclaimed(rows, [], heap, At(heap, message), 0) == k >= 0
    ensures Upserted(rows, heap, message) == (rows, MergeInto(heap, rows[k], message, true))
  {
  }

  /** Any other message is added: one from an agent before the first assistant of its run, if
      there is one, and every other at the end. */
  lemma NewMessageIsPlaced<M(!new)>(rows: seq<M>, heap: Heap<M>, message: M, run: string, k: nat)
    requires forall m :: m in rows ==> !RecordOf(heap, message)(m)
    ensures var (next, after) := Upserted(rows, heap, message);
      && after == heap
      && (FromAgent(At(heap, message), run) && FirstAt(rows, k, AssistantIn(heap, run)) ==>
            next == rows[..k] + [message] + rows[k..])
      && ((forall r :: FromAgent(At(heap, message), r) ==> forall m :: m in rows ==> !AssistantIn(heap, r)(m)) ==>
            next == rows + [message])
  {
    var p := At(heap, message);
    forall m | m in rows ensures !Matches(At(heap, m), p) {
      SameMessageMeans(At(heap, m), p);
      assert !RecordOf(heap, message)(m);
    }
    AgentMeans(p);
    var carrier := FindFirst(rows, AssistantOfRun(heap, RunOf(p)));
    if FromAgent(p, run) {
      RunMeans(p, run);
      forall m ensures AssistantIn(heap, run)(m) <==> AssistantOfRun(heap, run)(m) { RunMeans(At(heap, m), run); }
    }
    if carrier >= 0 && RunOf(p) != "" {
      RunMeans(At(heap, rows[carrier]), RunOf(p));
      assert AssistantIn(heap, RunOf(p))(rows[carrier]);
    }
  }

  lemma AgentMeans(p: Props)
    ensures IsUser(p) && MetaOf(p).agentMessage && RunOf(p) != "" <==> FromAgent(p, RunOf(p))
    ensures forall run :: FromAgent(p, run) ==> run == RunOf(p)
  {
    forall run ensures InRun(p, run) <==> run != "" && RunOf(p) == run { RunMeans(p, run); }
  }

  /** So an upsert lengthens the list by one iff no row is a record of its message. */
  lemma UpsertLengthens<M(!new)>(t: Timeline<M>, message: M)
    ensures |Apply(t, Upsert(message)).rows| ==
      |t.rows| + if exists m :: m in t.rows && RecordOf(t.heap, message)(m) then 0 else 1
  {
    var (rows, heap) := Upserted(t.rows, t.heap, message);
    UpsertedLength(t.rows, t.heap, message);
    SortPermutes(rows, heap);
    assert |multiset(Sort(rows, heap))| == |multiset(rows)|;
  }

  lemma UpsertedLength<M(!new)>(rows: seq<M>, heap: Heap<M>, message: M)
    ensures |Upserted(rows, heap, message).0| ==
      |rows| + if exists m :: m in rows && RecordOf(heap, message)(m) then 0 else 1
  {
    var p := At(heap, message);
    forall m ensures RecordOf(heap, message)(m) <==> Matches(At(heap, m), p) { SameMessageMeans(At(heap, m), p); }
  }

  // ---- inserting and removing ----

  /** The run the dispatcher reads off a message: its own, else the one that consumed it, else the
      one in its metadata. */
  predicate BoundTo(p: Props, run: string) {
    if RunId in p && p[RunId].Text? && p[RunId].text != "" then Says(p, RunId, run)
    else if !Told(p) then run == ""
    else if p[Metadata].meta.consumedByRunId != "" then p[Metadata].meta.consumedByRunId == run
    else p[Metadata].meta.runId == run
  }

  ghost function AssistantBoundTo<M>(heap: Heap<M>, run: string): M -> bool {
    m => Says(At(heap, m), Role, "assistant") && BoundTo(At(heap, m), run)
  }

  /** The designated message is an assistant that is not finished. */
  predicate ActiveUnfinished<M>(t: Timeline<M>) {
    0 <= t.cursor < |t.rows| &&
    var p := At(t.heap, t.rows[t.cursor]);
    Says(p, Role, "assistant") && !(Key.Finished in p && p[Key.Finished] == Flag(true))
  }

  /** The user message of a new run goes before the first assistant of the run, else before the
      active assistant while it is unfinished, else to the end. */
  lemma NewRunMessageIsPlaced<M(!new)>(t: Timeline<M>, message: M, run: string, k: nat)
    ensures var rows := Apply(t, InsertUser(message, run)).rows;
      && (FirstAt(t.rows, k, AssistantBoundTo(t.heap, run)) ==> rows == t.rows[..k] + [message] + t.rows[k..])
      && ((forall m :: m in t.rows ==> !AssistantBoundTo(t.heap, run)(m)) ==>
            rows == if ActiveUnfinished(t) then t.rows[..t.cursor] + [message] + t.rows[t.cursor..]
                    else t.rows + [message])
  {
    var i := FindFirst(t.rows, AssistantOfDispatcherRun(t.heap, run));
    assert forall m :: AssistantBoundTo(t.heap, run)(m) <==> AssistantOfDispatcherRun(t.heap, run)(m);
    assert i >= 0 ==> t.rows[i] in t.rows;
  }

  predicate Transient(p: Props) { Told(p) && p[Metadata].meta.msgType == "context_compression_pending" }

  /** Removing the compaction dividers removes these and nothing else. */
  lemma DividersGo<M>(t: Timeline<M>, m: M)
    ensures m in Apply(t, RemovePending).rows <==> m in t.rows && !Transient(At(t.heap, m))
  {
    PendingRemovedKeeps(t);
    FilterMember(t.rows, NotPending(t.heap), m);
  }

  // ---- saving ----

  /** The new entry, else the one the event's metadata carries, else the old one. */
  predicate Overrides<T(==)>(now: T, named: T, none: T, carried: Entry<T>, was: T) {
    now == if named != none then named else if carried.Set? then carried.value else was
  }

  /** Saving binds the message to what the event names and keeps the rest of its metadata; only a
      user message shows an execution, and only if it did before or its tree has a root. */
  lemma SavedEntries(p: Props, e: SavedEvent, hasRoot: Value -> bool, m: Meta)
    requires m == if Told(p) then p[Metadata].meta else Meta("", "", "", "", false, "")
    ensures var q := SavedProps(p, e, hasRoot);
      && Told(q) && var n := q[Metadata].meta;
      && Overrides(n.runId, e.runId, "", e.metadata.runId, m.runId)
      && Overrides(n.consumedByRunId, e.consumedByRunId, "", e.metadata.consumedByRunId, m.consumedByRunId)
      && Overrides(n.requestId, e.requestId, "", e.metadata.requestId, m.requestId)
      && Overrides(n.source, "", "", e.metadata.source, m.source)
      && Overrides(n.agentMessage, false, false, e.metadata.agentMessage, m.agentMessage)
      && Overrides(n.msgType, "", "", e.metadata.msgType, m.msgType)
      && HAS_EXECUTION in q
      && q[HAS_EXECUTION] == Flag(Says(p, Role, "user") &&
           ((HAS_EXECUTION in p && p[HAS_EXECUTION] == Flag(true))
            || (ExecutionTree in p && hasRoot(p[ExecutionTree]))))
      && (Says(p, Role, "user") ==> Key.Finished in q && q[Key.Finished] == Flag(true))
  {
    SavedState(p, e, hasRoot);
  }

  /** What an event carries: neither undefined nor null. */
  predicate Carried(v: Value) { v != Undefined && v != Null }

  /** The id, the number and the content parts are those the event carries, and a user message's
      attachments come with the parts. */
  lemma SavedContents(p: Props, e: SavedEvent, hasRoot: Value -> bool)
    ensures var q := SavedProps(p, e, hasRoot);
      && (Carried(e.id) ==> Id in q && q[Id] == e.id)
      && (Carried(e.seqNo) ==> Seq in q && q[Seq] == e.seqNo)
      && (Carried(e.parts) ==> PARTS in q && q[PARTS] == e.parts)
      && (Carried(e.parts) && Says(p, Role, "user") ==> ATTACHMENTS in q && q[ATTACHMENTS] == e.attachments)
  {
    SavedIdentity(p, e, hasRoot);
    IdsKeep(p, e, Role);
  }

  predicate Stays(p: Props, q: Props, k: Key) { (k in p <==> k in q) && (k in p ==> p[k] == q[k]) }

  /** What the event does not carry stays, and so does everything that saving does not write. */
  lemma SavedLeavesTheRest(p: Props, e: SavedEvent, hasRoot: Value -> bool, k: Key)
    ensures var q := SavedProps(p, e, hasRoot); var user := Says(p, Role, "user");
      && (!Carried(e.id) ==> Stays(p, q, Id)) && (!Carried(e.seqNo) ==> Stays(p, q, Seq))
      && (!Carried(e.parts) ==> Stays(p, q, PARTS) && Stays(p, q, ATTACHMENTS))
      && (!user ==> Stays(p, q, ATTACHMENTS) && Stays(p, q, Key.Finished))
      && (k !in {Id, Seq, Metadata, Key.Finished, PARTS, ATTACHMENTS, HAS_EXECUTION} ==> Stays(p, q, k))
  {
    SavedIdentity(p, e, hasRoot);
    SavedState(p, e, hasRoot);
    IdsKeep(p, e, Role);
    IdsKeep(p, e, PARTS);
    IdsKeep(p, e, ATTACHMENTS);
    if k !in {Id, Seq, Metadata, Key.Finished, PARTS, ATTACHMENTS, HAS_EXECUTION} { SavedKeeps(p, e, hasRoot, k); }
  }

  // ---- the rest ----

  /** A message pushed stands at the end and moves nothing. */
  lemma PushedAtTheEnd<M>(t: Timeline<M>, message: M, p: Props)
    ensures Apply(t, Append(message)) == t.(rows := t.rows + [message])
    ensures Apply(t, Mutate(message, p)) == t.(heap := t.heap[message := p])
  {
  }

  /** The edits that can take the cursor off an ordinary message: a page, an upsert, and one that makes
      the message itself a divider. */
  lemma TouchesMeans<M>(e: Edit<M>, m: M)
    ensures Touches(e, m) <==> e.Reconcile? || e.Upsert? || (e.Mutate? && e.target == m && Transient(e.props))
  {
  }
}
