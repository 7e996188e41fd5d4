/** The session-run store's message lists as the objects and fields it updates. Each method is
    tied to the edit of the same name on the value of the store. */
module TimelineStore {
  import opened Sequences
  import opened TimelineMessages
  import opened TimelineSort
  import opened TimelineReconcile
  import opened TimelineEdits
  import StableSort
  import Text

  class Message {
    var props: Props

    constructor (props: Props)
      ensures this.props == props
    {
      this.props := props;
    }

    /** The assignments of applyMessageSaved, in its order. */
    method SaveIdentity(saved: SavedEvent, hasRoot: Value -> bool)
      modifies this
      ensures props == SavedProps(old(props), saved, hasRoot)
    {
      if saved.id != Undefined && saved.id != Null { props := props[Id := saved.id]; }
      if saved.seqNo != Undefined && saved.seqNo != Null { props := props[Seq := saved.seqNo]; }
      ghost var named := props;
      assert named == SavedIds(old(props), saved);
      if saved.parts != Undefined && saved.parts != Null {
        props := props[PARTS := saved.parts];
        if IsUser(props) { props := props[ATTACHMENTS := saved.attachments]; }
      }
      assert props == SavedParts(named, saved);
      BindSaved(saved, hasRoot);
    }

    method BindSaved(saved: SavedEvent, hasRoot: Value -> bool)
      modifies this
      ensures props == SavedBinding(old(props), saved, hasRoot)
    {
      props := props[Metadata := Record(SavedMeta(MetaOf(props), saved))];
      props := props[HAS_EXECUTION := Flag(HasExecution(props, hasRoot))];
      if IsUser(props) { props := props[Key.Finished := Flag(true)]; }
    }
  }

  /** The current properties of the messages. */
  function Snapshot(messages: set<Message>): (heap: Heap<Message>)
    reads messages
    ensures heap.Keys == messages
    ensures forall m :: m in messages ==> heap[m] == m.props
  {
    map m | m in messages :: m.props
  }

  function Members(messages: seq<Message>): set<Message> { set m | m in messages }

  function NormalizeParticipant(id: string): (r: string)
    ensures r == if Text.AllWhite(id) then "root" else Text.Trim(id)
  {
    Text.TrimsAllWhite(id);
    if Text.Trim(id) != "" then Text.Trim(id) else "root"
  }

  /** `next` is what the first `i` rows contributed, having used `k` canonical rows. */
  ghost predicate FilledUpTo(
    items: seq<Message>, canonical: seq<Message>, heap: Heap<Message>, i: nat, k: nat, next: seq<Message>)
    requires |canonical| == |Filter(items, PersistedIn(heap))|
  {
    && i <= |items| && k <= |canonical|
    && |canonical| - k == |Filter(items[i..], PersistedIn(heap))|
    && next + Fill(items[i..], canonical[k..], heap) == Fill(items, canonical, heap)
  }

  lemma FillUnroll(
    items: seq<Message>, canonical: seq<Message>, heap: Heap<Message>, i: nat, k: nat, next: seq<Message>)
    requires |canonical| == |Filter(items, PersistedIn(heap))| && i < |items|
    requires FilledUpTo(items, canonical, heap, i, k, next)
    ensures if Persisted(At(heap, items[i])) then
        k < |canonical| && FilledUpTo(items, canonical, heap, i + 1, k + 1, next + [canonical[k]])
      else
        FilledUpTo(items, canonical, heap, i + 1, k, next + [items[i]])
  {
    assert items[i..][1..] == items[i + 1..];
    if Persisted(At(heap, items[i])) {
      assert canonical[k..][1..] == canonical[k + 1..];
    }
  }

  lemma FillBounds(items: seq<Message>, canonical: seq<Message>, heap: Heap<Message>)
    requires |canonical| == |Filter(items, PersistedIn(heap))|
    ensures FilledUpTo(items, canonical, heap, 0, 0, [])
    ensures forall k: nat, next :: FilledUpTo(items, canonical, heap, |items|, k, next) ==>
      next == Fill(items, canonical, heap)
  {
    assert items[0..] == items && canonical[0..] == canonical;
    assert items[|items|..] == [];
  }

  /** The first half of sortParticipantMessages: the persisted rows, sorted, go back into the
      slots they occupied. */
  method FillSlots(items: seq<Message>, canonical: seq<Message>, heap: Heap<Message>) returns (next: seq<Message>)
    requires |canonical| == |Filter(items, PersistedIn(heap))|
    ensures next == Fill(items, canonical, heap)
  {
    var canonicalIndex := 0;
    next := [];
    FillBounds(items, canonical, heap);
    for i := 0 to |items|
      invariant 0 <= canonicalIndex && FilledUpTo(items, canonical, heap, i, canonicalIndex, next)
    {
      FillUnroll(items, canonical, heap, i, canonicalIndex, next);
      if Persisted(At(heap, items[i])) {
        next := next + [canonical[canonicalIndex]];
        canonicalIndex := canonicalIndex + 1;
      } else {
        next := next + [items[i]];
      }
    }
  }

  /** sortParticipantMessages, on messages whose properties are those in `heap`. */
  method SortParticipantMessages(items: seq<Message>, heap: Heap<Message>) returns (next: seq<Message>)
    ensures next == Sort(items, heap)
  {
    StableSort.SortPermutes(Filter(items, PersistedIn(heap)), BySeq(heap));
    var slotted := FillSlots(items, Canonical(items, heap), heap);
    next := RelocateCarriers(slotted, Filter(slotted, CarrierIn(heap)), heap);
  }

  /** The second half: each streaming assistant goes behind the boundaries of its run. */
  method RelocateCarriers(
    slotted: seq<Message>, carriers: seq<Message>, heap: Heap<Message>) returns (next: seq<Message>)
    ensures next == RelocateAll(slotted, heap, carriers)
  {
    next := slotted;
    for i := 0 to |carriers|
      invariant next == RelocateAll(slotted, heap, carriers[..i])
    {
      assert carriers[..i + 1][..i] == carriers[..i];
      next := RelocateCarrier(next, carriers[i], heap);
    }
    assert carriers[..|carriers|] == carriers;
  }

  method RelocateCarrier(rows: seq<Message>, assistant: Message, heap: Heap<Message>) returns (next: seq<Message>)
    ensures next == Relocate(rows, heap, assistant)
  {
    next := rows;
    var runId := RunOf(At(heap, assistant));
    var assistantIndex := IndexOf(next, assistant);
    var lastBoundaryIndex := LastBoundary(next, heap, runId);
    if assistantIndex < 0 || lastBoundaryIndex < assistantIndex { return; }
    next := Remove(next, assistantIndex);
    var relocatedBoundaryIndex := LastBoundary(next, heap, runId);
    next := Insert(next, relocatedBoundaryIndex + 1, assistant);
  }

  class SessionRunStore {
    var participantMessages: map<string, seq<Message>>
    var assistantMsgIndex: int

    constructor ()
      ensures participantMessages == map["root" := []] && assistantMsgIndex == -1
    {
      participantMessages := map["root" := []];
      assistantMsgIndex := -1;
    }

    function Thread(id: string): seq<Message>
      reads this
    {
      if id in participantMessages then participantMessages[id] else []
    }

    /** The root timeline, with the properties of the given messages. */
    function Root(messages: set<Message>): Timeline<Message>
      reads this, messages
    {
      Timeline(Thread("root"), assistantMsgIndex, Snapshot(messages))
    }

    /** Stores a thread and, for the root, re-aims the cursor at the message it designated. */
    method Publish(id: string, next: seq<Message>)
      modifies this
      ensures participantMessages == old(participantMessages)[id := next]
      ensures assistantMsgIndex ==
        if id == "root" then ReAim(old(Thread("root")), old(assistantMsgIndex), next) else old(assistantMsgIndex)
    {
      var current := Thread(id);
      if id == "root" && 0 <= assistantMsgIndex < |current| {
        var activeAssistant := current[assistantMsgIndex];
        participantMessages := participantMessages[id := next];
        assistantMsgIndex := IndexOf(next, activeAssistant);
      } else {
        participantMessages := participantMessages[id := next];
      }
    }

    /** mergeParticipantMessage. */
    method Merge(current: Message, incoming: Message, preserveLive: bool, ghost messages: set<Message>)
      requires current in messages && incoming in messages
      modifies current
      ensures Snapshot(messages) == MergeInto(old(Snapshot(messages)), current, incoming, preserveLive)
    {
      if current != incoming {
        current.props := Merged(current.props, incoming.props, preserveLive);
      }
    }

    /** `current.findIndex` over the messages not yet claimed. */
    method FindMatch(
      current: seq<Message>, claimed: set<int>, incoming: Message, ghost claims: seq<int>,
      ghost messages: set<Message>)
      returns (index: int)
      requires Members(current) <= messages && incoming in messages
      requires forall i :: 0 <= i ==> (i in claimed <==> i in claims)
      ensures index == FindUnclaimed(current, claims, Snapshot(messages), At(Snapshot(messages), incoming), 0)
    {
      index := -1;
      var j := 0;
      while j < |current| && index < 0
        invariant 0 <= j <= |current|
        invariant FindUnclaimed(current, claims, Snapshot(messages), At(Snapshot(messages), incoming), 0)
               == if index >= 0 then index
                 else FindUnclaimed(current, claims, Snapshot(messages), At(Snapshot(messages), incoming), j)
      {
        assert current[j] in Members(current);
        if j !in claimed && Matches(current[j].props, incoming.props) {
          index := j;
        }
        j := j + 1;
      }
    }

    /** One turn of the claiming loop: the row claims a message and is merged into it, or stays. */
    method ClaimRow(
      current: seq<Message>, incoming: Message, preserveLive: bool,
      durable: seq<Message>, claimed: set<int>, ghost claims: seq<int>, ghost messages: set<Message>)
      returns (rows: seq<Message>, taken: set<int>, ghost next: seq<int>)
      requires Members(current) <= messages && incoming in messages
      requires forall k :: 0 <= k ==> (k in claimed <==> k in claims)
      modifies Members(current)
      ensures Claiming(rows, next, Snapshot(messages))
           == ClaimNext(current, Claiming(durable, claims, old(Snapshot(messages))), incoming, preserveLive)
      ensures forall k :: 0 <= k ==> (k in taken <==> k in next)
    {
      var index := FindMatch(current, claimed, incoming, claims, messages);
      next := claims + [index];
      if index < 0 {
        rows, taken := durable + [incoming], claimed;
      } else {
        assert current[index] in Members(current);
        Merge(current[index], incoming, preserveLive, messages);
        rows, taken := durable + [current[index]], claimed + {index};
      }
    }

    /** The claiming loop of reconcileParticipantMessages. */
    method ClaimPage(current: seq<Message>, value: seq<Message>, preserveLive: bool, ghost messages: set<Message>)
      returns (durable: seq<Message>, claimed: set<int>, ghost claims: seq<int>)
      requires Members(current) + Members(value) == messages
      modifies Members(current)
      ensures ClaimAll(current, value, old(Snapshot(messages)), preserveLive)
           == Claiming(durable, claims, Snapshot(messages))
      ensures forall k :: 0 <= k ==> (k in claimed <==> k in claims)
    {
      ghost var heap0 := Snapshot(messages);
      claimed, claims, durable := {}, [], [];
      for i := 0 to |value|
        invariant forall k :: 0 <= k ==> (k in claimed <==> k in claims)
        invariant ClaimAll(current, value[..i], heap0, preserveLive) == Claiming(durable, claims, Snapshot(messages))
      {
        ClaimTurn(current, value, heap0, preserveLive, i);
        assert value[i] in Members(value);
        durable, claimed, claims := ClaimRow(current, value[i], preserveLive, durable, claimed, claims, messages);
      }
      assert value[..|value|] == value;
    }

    /** The messages that outlive a reconcile unclaimed. */
    method CollectLive(current: seq<Message>, claimed: set<int>, ghost claims: seq<int>, ghost messages: set<Message>)
      returns (live: seq<Message>)
      requires Members(current) <= messages
      requires forall k :: 0 <= k ==> (k in claimed <==> k in claims)
      ensures live == Live(current, claims, Snapshot(messages), 0)
    {
      ghost var heap := Snapshot(messages);
      live := [];
      for i := 0 to |current|
        invariant live + Live(current, claims, heap, i) == Live(current, claims, heap, 0)
      {
        assert current[i] in Members(current);
        LiveTurn(current, claims, heap, i, live);
        if i !in claimed && !Persisted(current[i].props) {
          live := live + [current[i]];
        }
      }
    }

    method ReconcileParticipantMessages(participantId: string, value: seq<Message>, preserveLive: bool)
      returns (next: seq<Message>)
      modifies this, Members(Thread(NormalizeParticipant(participantId)))
      ensures var id := NormalizeParticipant(participantId);
        var messages := Members(old(Thread(id))) + Members(value);
        && participantMessages == old(participantMessages)[id := next]
        && (next, Snapshot(messages)) == Reconciled(old(Thread(id)), value, old(Snapshot(messages)), preserveLive)
        && assistantMsgIndex == (if id == "root" then ReAim(old(Thread("root")), old(assistantMsgIndex), next)
                                 else old(assistantMsgIndex))
    {
      var id := NormalizeParticipant(participantId);
      var current := Thread(id);
      next := ReconcileThread(current, value, preserveLive);
      Publish(id, next);
    }

    /** The part of reconcileParticipantMessages before it publishes the list. */
    method ReconcileThread(current: seq<Message>, value: seq<Message>, preserveLive: bool) returns (next: seq<Message>)
      modifies Members(current)
      ensures var messages := Members(current) + Members(value);
        (next, Snapshot(messages)) == Reconciled(current, value, old(Snapshot(messages)), preserveLive)
    {
      var messages := Members(current) + Members(value);
      var durable, claimed, claims := ClaimPage(current, value, preserveLive, messages);
      var live := CollectLive(current, claimed, claims, messages);
      next := SortParticipantMessages(durable + live, Snapshot(messages));
    }

    /** The part of upsertParticipantMessage before its sort. */
    method MergeOrPlace(
      current: seq<Message>, message: Message, ghost messages: set<Message>) returns (next: seq<Message>)
      requires messages == Members(current) + {message}
      modifies Members(current)
      ensures (next, Snapshot(messages)) == Upserted(current, old(Snapshot(messages)), message)
    {
      var heap := Snapshot(Members(current) + {message});
      var index := FindMatch(current, {}, message, [], messages);
      next := current;
      if index >= 0 {
        assert current[index] in Members(current);
        Merge(next[index], message, true, messages);
      } else if IsUser(message.props) && MetaOf(message.props).agentMessage && RunOf(message.props) != "" {
        var carrierIndex := FindFirst(next, AssistantOfRun(heap, RunOf(message.props)));
        next := Insert(next, if carrierIndex >= 0 then carrierIndex else |next|, message);
      } else {
        next := next + [message];
      }
    }

    method UpsertParticipantMessage(participantId: string, message: Message)
      modifies this, Members(Thread(NormalizeParticipant(participantId)))
      ensures var id := NormalizeParticipant(participantId);
        var messages := Members(old(Thread(id))) + {message};
        var (rows, heap) := Upserted(old(Thread(id)), old(Snapshot(messages)), message);
        && participantMessages == old(participantMessages)[id := Sort(rows, heap)]
        && Snapshot(messages) == heap
        && assistantMsgIndex == (if id == "root" then ReAim(old(Thread("root")), old(assistantMsgIndex), Thread(id))
                                 else old(assistantMsgIndex))
    {
      var id := NormalizeParticipant(participantId);
      var current := Thread(id);
      var messages := Members(current) + {message};
      var next := MergeOrPlace(current, message, messages);
      var sorted := SortParticipantMessages(next, Snapshot(messages));
      Publish(id, sorted);
    }

    method ReorderParticipantMessages(participantId: string) returns (sorted: seq<Message>)
      modifies this
      ensures var id := NormalizeParticipant(participantId);
        && sorted == Sort(old(Thread(id)), Snapshot(Members(old(Thread(id)))))
        && participantMessages == old(participantMessages)[id := sorted]
        && assistantMsgIndex == (if id == "root" then ReAim(old(Thread("root")), old(assistantMsgIndex), sorted)
                                 else old(assistantMsgIndex))
    {
      var id := NormalizeParticipant(participantId);
      var current := Thread(id);
      sorted := SortParticipantMessages(current, Snapshot(Members(current)));
      Publish(id, sorted);
    }

    /** Where insertNewRunUserMessage inserts: before the assistant of the run, else before the
        active assistant while it is unfinished. */
    method FindInsertionPoint(runId: string, ghost messages: set<Message>) returns (assistantIndex: int)
      requires Members(Thread("root")) <= messages
      ensures assistantIndex == InsertionPoint(Root(messages), runId)
    {
      var rows := Thread("root");
      var heap := Snapshot(Members(rows));
      assistantIndex := FindFirst(rows, AssistantOfDispatcherRun(heap, runId));
      FindFirstAgrees(rows, AssistantOfDispatcherRun(heap, runId), AssistantOfDispatcherRun(Snapshot(messages), runId));
      if assistantIndex < 0 && 0 <= assistantMsgIndex < |rows| {
        var activeAssistant := rows[assistantMsgIndex];
        assert activeAssistant in Members(rows);
        if IsAssistant(activeAssistant.props) && !IsFinished(activeAssistant.props) {
          assistantIndex := assistantMsgIndex;
        }
      }
    }

    /** Splices the message into the root list, or appends it when the index is negative. */
    method SpliceIn(message: Message, index: int)
      requires index <= |Thread("root")|
      modifies this
      ensures var rows := old(Thread("root"));
        participantMessages == old(participantMessages)[
          "root" := if index < 0 then rows + [message] else Insert(rows, index, message)]
      ensures assistantMsgIndex == old(assistantMsgIndex) + if 0 <= index <= old(assistantMsgIndex) then 1 else 0
    {
      var rows := Thread("root");
      if index < 0 {
        participantMessages := participantMessages["root" := rows + [message]];
      } else {
        participantMessages := participantMessages["root" := Insert(rows, index, message)];
        if assistantMsgIndex >= index { assistantMsgIndex := assistantMsgIndex + 1; }
      }
    }

    /** The dispatcher's insertNewRunUserMessage. */
    method InsertNewRunUserMessage(message: Message, runId: string)
      modifies this
      ensures var messages := Members(old(Thread("root"))) + {message};
        Root(messages) == Apply(old(Root(messages)), InsertUser(message, runId))
      ensures participantMessages == old(participantMessages)["root" := Thread("root")]
    {
      ghost var messages := Members(Thread("root")) + {message};
      ghost var was := Root(messages);
      var assistantIndex := FindInsertionPoint(runId, messages);
      SpliceIn(message, assistantIndex);
      assert Snapshot(messages) == was.heap;
      assert Root(messages) == Inserted(was, message, runId);
    }

    /** The dispatcher's applyMessageSaved: the saved identity is written into the message, and a
        persisted message re-sorts the root list. */
    method ApplyMessageSaved(target: Message, saved: SavedEvent, hasRoot: Value -> bool)
      modifies this, target
      ensures var messages := Members(old(Thread("root"))) + {target};
        var props := SavedProps(old(target.props), saved, hasRoot);
        var mutated := Apply(old(Root(messages)), Mutate(target, props));
        Root(messages) == if Persisted(props) then Apply(mutated, Reorder) else mutated
      ensures participantMessages ==
        if Persisted(SavedProps(old(target.props), saved, hasRoot))
        then old(participantMessages)["root" := Thread("root")]
        else old(participantMessages)
    {
      var messages := Members(Thread("root")) + {target};
      target.SaveIdentity(saved, hasRoot);
      assert Root(messages).heap == old(Root(messages)).heap[target := target.props];
      if Persisted(target.props) {
        ResortRoot(messages);
      }
    }

    /** reorderMessages of the dispatcher. */
    method ResortRoot(messages: set<Message>)
      requires Members(Thread("root")) <= messages
      modifies this
      ensures Root(messages) == Apply(old(Root(messages)), Reorder)
      ensures participantMessages == old(participantMessages)["root" := Thread("root")]
    {
      var sorted := SortParticipantMessages(Thread("root"), Snapshot(messages));
      Publish("root", sorted);
    }

    /** The reducer shows one compaction divider at the end of the root list while a compaction
        runs. */
    method ShowCompactPending(divider: Message)
      modifies this
      ensures var messages := Members(old(Thread("root"))) + {divider};
        var t := old(Root(messages));
        Root(messages) ==
          if exists i :: 0 <= i < |t.rows| && IsCompactPending(At(t.heap, t.rows[i]))
          then t
          else Apply(t, Append(divider))
      ensures participantMessages ==
        if Thread("root") == old(Thread("root"))
        then old(participantMessages)
        else old(participantMessages)["root" := Thread("root")]
    {
      var rows := Thread("root");
      ghost var messages := Members(rows) + {divider};
      ghost var was := Root(messages);
      var shown := AnyCompactPending(rows, messages);
      if !shown { participantMessages := participantMessages["root" := rows + [divider]]; }
      assert Snapshot(messages) == was.heap;
    }

    /** `messages.value.some(...)` of the transient rows. */
    method AnyCompactPending(rows: seq<Message>, ghost messages: set<Message>) returns (found: bool)
      requires Members(rows) <= messages
      ensures found <==> exists i :: 0 <= i < |rows| && IsCompactPending(At(Snapshot(messages), rows[i]))
    {
      for j := 0 to |rows|
        invariant forall i :: 0 <= i < j ==> !IsCompactPending(At(Snapshot(messages), rows[i]))
      {
        assert rows[j] in Members(rows);
        if IsCompactPending(rows[j].props) { return true; }
      }
      return false;
    }

    /** removeCompactPendingMessages: the reverse splice loop over the root list. */
    method RemoveCompactPendingMessages()
      modifies this
      ensures var messages := Members(old(Thread("root")));
        Root(messages) == Apply(old(Root(messages)), RemovePending)
      ensures participantMessages ==
        if Thread("root") == old(Thread("root"))
        then old(participantMessages)
        else old(participantMessages)["root" := Thread("root")]
    {
      ghost var messages := Members(Thread("root"));
      ghost var start := Root(messages);
      var i := |Thread("root")|;
      while i > 0
        invariant 0 <= i <= |Thread("root")|
        invariant Members(Thread("root")) <= messages
        invariant |Thread("root")| <= |start.rows|
        invariant participantMessages ==
          if |Thread("root")| == |start.rows|
          then old(participantMessages)
          else old(participantMessages)["root" := Thread("root")]
        invariant Root(messages).heap == start.heap
        invariant PendingRemoved(start, |start.rows|) == PendingRemoved(Root(messages), i)
      {
        i := i - 1;
        RemoveIfPending(i, messages);
      }
    }

    method RemoveIfPending(i: nat, ghost messages: set<Message>)
      requires i < |Thread("root")| && Members(Thread("root")) <= messages
      modifies this
      ensures var t := old(Root(messages));
        Root(messages) ==
          if IsCompactPending(At(t.heap, t.rows[i])) then
            t.(rows := Remove(t.rows, i), cursor := if t.cursor > i then t.cursor - 1 else t.cursor)
          else t
      ensures Members(Thread("root")) <= messages
      ensures |Thread("root")| <= |old(Thread("root"))|
      ensures participantMessages ==
        if |Thread("root")| == |old(Thread("root"))|
        then old(participantMessages)
        else old(participantMessages)["root" := Thread("root")]
    {
      var current := Thread("root");
      assert current[i] in Members(current);
      if IsCompactPending(current[i].props) {
        participantMessages := participantMessages["root" := Remove(current, i)];
        if assistantMsgIndex > i { assistantMsgIndex := assistantMsgIndex - 1; }
        assert forall m :: m in Remove(current, i) ==> m in current;
      }
    }
  }
}
