/** useMessageExecution: the queues, the frame handle and the message fields it updates, tied
    to the batching of StreamProjection. */
module StreamProjector {
  import opened StreamProjection

  class Message {
    const slot: Slot
    var fed: seq<Envelope>
    var rootCallId: string
    var executionTree: Tree

    constructor (slot: Slot, tree: Tree)
      ensures Value() == Projection(slot, [], "", tree)
    {
      this.slot, fed, rootCallId, executionTree := slot, [], "", tree;
    }

    function Value(): Projection
      reads this
    {
      Projection(slot, fed, rootCallId, executionTree)
    }

    /** projectEnvelopeForMessage. */
    method ProjectEnvelope(envelope: Envelope) returns (projected: Envelope)
      modifies this`rootCallId
      ensures projected == Projected(slot, old(rootCallId), envelope)
      ensures rootCallId == RootAfter(slot, old(rootCallId), envelope)
    {
      if slot.runId == "" || envelope.runId != slot.runId { return envelope; }
      if rootCallId == "" && CanIdentifyRootCall(envelope) && envelope.callId != "" {
        var child := envelope.childAgentId;
        if envelope.kind != "agent_started" || child == "" || child == slot.participantId {
          rootCallId := envelope.callId;
        }
      }
      if rootCallId == "" || envelope.callId != rootCallId { return envelope; }
      if envelope.parentCallId == "" { return envelope; }
      return envelope.(parentCallId := "");
    }

    method ApplyProjectedEnvelope(envelope: Envelope)
      modifies this
      ensures Value() == Feed(old(Value()), envelope)
    {
      var projected := ProjectEnvelope(envelope);
      fed := fed + [projected];
    }

    method PublishExecutionTree()
      modifies this
      ensures Value() == Publish(old(Value()))
    {
      executionTree := Built(fed);
    }

    method ClearPresentation()
      modifies this
      ensures Value() == Cleared(old(Value()))
    {
      executionTree := Built([]);
      fed := [];
    }

    /** Applies a queue and publishes the tree once. */
    method TakeIn(queued: seq<Envelope>)
      modifies this
      ensures Value() == Publish(FeedAll(old(Value()), queued))
    {
      for i := 0 to |queued|
        invariant Value() == FeedAll(old(Value()), queued[..i])
      {
        assert queued[..i + 1][..i] == queued[..i];
        ApplyProjectedEnvelope(queued[i]);
      }
      assert queued[..|queued|] == queued;
      PublishExecutionTree();
    }

    /** The state replacement of ensureExecutionStepsLoaded once its history has arrived. */
    method ReplayHistory(history: seq<Envelope>)
      modifies this
      ensures Value() == Replayed(old(Value()), history)
    {
      fed := [];
      TakeIn(history);
    }
  }

  class MessageExecution {
    const on: Platform
    var pending: map<Message, seq<Envelope>>
    var streamFlushRaf: nat
    var frames: set<nat>
    var nextFrame: nat

    constructor (on: Platform)
      ensures Valid() && this.on == on
      ensures pending == map[] && streamFlushRaf == 0 && frames == {} && nextFrame == 1
    {
      this.on := on;
      pending, streamFlushRaf, frames, nextFrame := map[], 0, {}, 1;
    }

    /** A queue exists only while it holds something. */
    predicate Valid()
      reads this
    {
      forall m :: m in pending ==> pending[m] != []
    }

    function State(messages: set<Message>): Batch<Message>
      reads this, messages
    {
      Batch(map m | m in messages :: m.Value(), pending, streamFlushRaf, frames, nextFrame)
    }

    method FlushMessageStreamEvents(msg: Message)
      requires Valid()
      modifies msg, this`pending
      ensures Valid() && pending == old(pending) - {msg}
      ensures msg.Value() == Flushed(old(msg.Value()), if msg in old(pending) then old(pending)[msg] else [])
    {
      if msg !in pending {
        assert pending - {msg} == pending;
        return;
      }
      var queued := pending[msg];
      pending := pending - {msg};
      msg.TakeIn(queued);
    }

    method FlushAllStreamEvents(ghost messages: set<Message>)
      requires Valid() && pending.Keys <= messages
      modifies this`pending, pending.Keys
      ensures Valid() && State(messages) == FlushAll(old(State(messages)))
    {
      ghost var queues := pending;
      var keys := pending.Keys;
      ghost var done: set<Message> := {};
      while keys != {}
        invariant Valid() && keys !! done && keys + done == queues.Keys
        invariant pending == queues - done
        invariant forall m :: m in done ==> m.Value() == Flushed(old(m.Value()), queues[m])
        invariant forall m :: m in messages && m !in done ==> m.Value() == old(m.Value())
        decreases keys
      {
        var msg :| msg in keys;
        FlushMessageStreamEvents(msg);
        assert pending == queues - (done + {msg});
        keys, done := keys - {msg}, done + {msg};
      }
      assert pending == map[];
    }

    method CancelScheduledStreamFlush(ghost messages: set<Message>)
      modifies this
      ensures State(messages) == CancelFrame(old(State(messages)), on)
    {
      if streamFlushRaf == 0 { return; }
      if on.canCancel { frames := frames - {streamFlushRaf}; }
      streamFlushRaf := 0;
    }

    method ScheduleStreamFlush(ghost messages: set<Message>)
      requires Valid() && pending.Keys <= messages
      modifies this, pending.Keys
      ensures Valid() && State(messages) == ScheduleFrame(old(State(messages)), on)
    {
      if streamFlushRaf != 0 { return; }
      if !on.canRequest {
        FlushAllStreamEvents(messages);
        return;
      }
      streamFlushRaf := nextFrame;
      frames := frames + {nextFrame};
      nextFrame := nextFrame + 1;
    }

    method ApplyEnvelopeToMessage(msg: Message, envelope: Envelope, ghost messages: set<Message>)
      requires Valid() && pending.Keys <= messages && msg in messages
      modifies this, msg, pending.Keys
      ensures Valid() && State(messages) == Apply(old(State(messages)), on, Arrives(msg, envelope))
    {
      if Deferred(envelope) {
        Enqueue(msg, envelope, messages);
        ScheduleStreamFlush(messages);
      } else {
        ApplyNow(msg, envelope, messages);
      }
    }

    method Enqueue(msg: Message, envelope: Envelope, ghost messages: set<Message>)
      requires Valid() && msg in messages
      modifies this`pending
      ensures Valid() && pending.Keys == old(pending.Keys) + {msg}
      ensures var b := old(State(messages));
        State(messages) == b.(queues := b.queues[msg := QueueOf(b, msg) + [envelope]])
    {
      var queued := if msg in pending then pending[msg] else [];
      pending := pending[msg := queued + [envelope]];
    }

    method ApplyNow(msg: Message, envelope: Envelope, ghost messages: set<Message>)
      requires Valid() && pending.Keys <= messages && msg in messages && !Deferred(envelope)
      modifies this`pending, msg
      ensures Valid() && State(messages) == ApplyToMessage(old(State(messages)), on, msg, envelope)
    {
      ghost var b := State(messages);
      ghost var after := Publish(Feed(Flushed(b.messages[msg], QueueOf(b, msg)), envelope));
      FlushMessageStreamEvents(msg);
      msg.ApplyProjectedEnvelope(envelope);
      msg.PublishExecutionTree();
      ImmediateEffect(b, on, msg, envelope);
      assert State(messages).messages == b.messages[msg := after];
    }

    /** The callback given to requestAnimationFrame. */
    method OnFrame(frame: nat, ghost messages: set<Message>)
      requires Valid() && pending.Keys <= messages && frame in frames
      modifies this, pending.Keys
      ensures Valid() && State(messages) == Apply(old(State(messages)), on, FrameFires(frame))
    {
      frames := frames - {frame};
      streamFlushRaf := 0;
      FlushAllStreamEvents(messages);
    }

    /** The watcher of the current session: queued frames are discarded. */
    method OnSessionSwitch(ghost messages: set<Message>)
      modifies this
      ensures Valid() && State(messages) == Apply(old(State(messages)), on, SwitchSession)
    {
      CancelScheduledStreamFlush(messages);
      pending := map[];
    }

    method OnScopeDispose(ghost messages: set<Message>)
      requires Valid() && pending.Keys <= messages
      modifies this, pending.Keys
      ensures Valid() && State(messages) == Apply(old(State(messages)), on, DisposeScope)
    {
      CancelScheduledStreamFlush(messages);
      FlushAllStreamEvents(messages);
    }

    method OnHistory(msg: Message, history: seq<Envelope>, ghost messages: set<Message>)
      requires Valid() && msg in messages
      modifies this, msg
      ensures Valid() && State(messages) == Apply(old(State(messages)), on, Replay(msg, history))
    {
      pending := pending - {msg};
      msg.ReplayHistory(history);
    }

    /** resetActiveRunPresentation, on the active message: its queue is left alone. */
    method OnResetPresentation(msg: Message, ghost messages: set<Message>)
      requires Valid() && msg in messages
      modifies msg
      ensures Valid() && State(messages) == Apply(old(State(messages)), on, ResetPresentation(msg))
    {
      msg.ClearPresentation();
    }
  }
}
