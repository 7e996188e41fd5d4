/** What the execution projection feeds to a message and when, told by the envelopes themselves:
    these statements share no vocabulary with the operations they are about. */
module StreamLaws {
  import opened StreamProjection

  // ---- which call is the root, and what is fed ----

  /** An agent-level event of the slot's run that tells its call: the start of an agent counts only
      when it is the slot's own participant, or tells none. */
  predicate TellsRoot(slot: Slot, e: Envelope) {
    && slot.runId != "" && e.runId == slot.runId && e.callId != ""
    && (|| e.kind in {"model_request", "model_attempt_started", "model_attempt_completed"}
        || e.kind in {"stream_output", "agent_ended"}
        || (e.kind == "agent_started" && e.childAgentId in {"", slot.participantId}))
  }

  lemma TellsRootMeans(slot: Slot, root: string, e: Envelope)
    ensures RootAfter(slot, root, e) == if root == "" && TellsRoot(slot, e) then e.callId else root
  {
  }

  /** The root call after some envelopes is the one known before, else the call of the first that
      tells it, else none. */
  ghost predicate IsRootAfter(slot: Slot, known: string, es: seq<Envelope>, root: string) {
    if known != "" then root == known
    else
      || (root == "" && forall i :: 0 <= i < |es| ==> !TellsRoot(slot, es[i]))
      || exists k :: 0 <= k < |es| && TellsRoot(slot, es[k]) && root == es[k].callId
           && forall i :: 0 <= i < k ==> !TellsRoot(slot, es[i])
  }

  lemma {:induction false} RootIsFirstTold(p: Projection, es: seq<Envelope>)
    ensures Direct(p, es).slot == p.slot
    ensures IsRootAfter(p.slot, p.rootCallId, es, Direct(p, es).rootCallId)
  {
    if es != [] {
      var init, last := es[..|es| - 1], es[|es| - 1];
      RootIsFirstTold(p, init);
      TellsRootMeans(p.slot, Direct(p, init).rootCallId, last);
      assert forall i :: 0 <= i < |init| ==> init[i] == es[i];
      if p.rootCallId == "" && Direct(p, init).rootCallId != "" {
        var k :| 0 <= k < |init| && TellsRoot(p.slot, init[k]) && Direct(p, init).rootCallId == init[k].callId
          && forall i :: 0 <= i < k ==> !TellsRoot(p.slot, init[i]);
        assert TellsRoot(p.slot, es[k]) && forall i :: 0 <= i < k ==> !TellsRoot(p.slot, es[i]);
      } else if p.rootCallId == "" && TellsRoot(p.slot, last) {
        assert TellsRoot(p.slot, es[|es| - 1]);
      }
    }
  }

  /** The envelope without its link to the caller when it is of the run's root call. */
  function Cut(slot: Slot, root: string, e: Envelope): Envelope {
    if slot.runId != "" && e.runId == slot.runId && e.callId != "" && e.callId == root
    then e.(parentCallId := "")
    else e
  }

  /** The message is fed every envelope in order, each as it came but for those of the run's root
      call, which lose the link to the caller. */
  lemma {:induction false} FedAsTheyCame(p: Projection, es: seq<Envelope>, i: nat)
    requires i < |es|
    ensures var fed := Direct(p, es).fed; var root := Direct(p, es[..i + 1]).rootCallId;
      && |fed| == |p.fed| + |es| && fed[..|p.fed|] == p.fed
      && Direct(p, es).tree == Built(fed)
      && fed[|p.fed| + i] == Cut(p.slot, root, es[i])
    decreases |es|
  {
    var init := es[..|es| - 1];
    FedLength(p, init);
    FedKeeps(p, init);
    LastIsFed(p, es);
    if i < |init| {
      FedAsTheyCame(p, init, i);
      assert init[..i + 1] == es[..i + 1];
    } else {
      assert es[..i + 1] == es;
    }
  }

  lemma ProjectedMeans(slot: Slot, root: string, e: Envelope)
    ensures Projected(slot, root, e) == Cut(slot, RootAfter(slot, root, e), e)
  {
  }

  lemma LastIsFed(p: Projection, es: seq<Envelope>)
    requires es != []
    ensures var q := Direct(p, es);
      q.fed == Direct(p, es[..|es| - 1]).fed + [Cut(p.slot, q.rootCallId, es[|es| - 1])] && q.tree == Built(q.fed)
  {
    var before := Direct(p, es[..|es| - 1]);
    RootIsFirstTold(p, es[..|es| - 1]);
    ProjectedMeans(before.slot, before.rootCallId, es[|es| - 1]);
  }

  lemma {:induction false} FedKeeps(p: Projection, es: seq<Envelope>)
    ensures |Direct(p, es).fed| >= |p.fed| && Direct(p, es).fed[..|p.fed|] == p.fed
  {
    if es != [] { FedKeeps(p, es[..|es| - 1]); }
  }

  /** In particular, whatever is queued and flushed on the way, a message that starts with nothing
      is finally fed its arrivals so. */
  lemma BatchedFeedsAsTheyCame<M>(b: Batch<M>, on: Platform, events: seq<Event<M>>, m: M, i: nat)
    requires b.queues == map[] && Possible(b, on, events) && m in b.messages && b.messages[m].fed == []
    requires forall j :: 0 <= j < |events| ==> Live(events[j])
    requires i < |ArrivalsOf(events, m)|
    ensures var r := Run(b, on, events); var es := ArrivalsOf(events, m); var slot := b.messages[m].slot;
      && m in r.messages
      && var fed := Flushed(r.messages[m], QueueOf(r, m)).fed;
      && |fed| == |es|
      && exists root ::
           IsRootAfter(slot, b.messages[m].rootCallId, es[..i + 1], root) && fed[i] == Cut(slot, root, es[i])
  {
    var es := ArrivalsOf(events, m);
    BatchedRefinesDirect(b, on, events, m);
    FedAsTheyCame(b.messages[m], es, i);
    RootIsFirstTold(b.messages[m], es[..i + 1]);
  }

  // ---- what waits for a frame ----

  /** A piece of streamed text or thought. */
  predicate IsDelta(e: Envelope) { e.kind == "stream_output" && e.phase in {"delta", "reasoning_delta"} }

  /** Where frames can be requested, pieces wait for one behind the pieces before them; everything
      else is applied on arrival, after the pieces that waited. */
  lemma OnlyDeltasWait<M>(b: Batch<M>, on: Platform, m: M, e: Envelope)
    requires m in b.messages && on.canRequest
    ensures var after := Apply(b, on, Arrives(m, e)); var waiting := if m in b.queues then b.queues[m] else [];
      && m in after.messages
      && (IsDelta(e) ==> m in after.queues && after.queues[m] == waiting + [e] && after.messages == b.messages)
      && (!IsDelta(e) ==> m !in after.queues && after.messages[m] == Direct(b.messages[m], waiting + [e]))
  {
    if !IsDelta(e) {
      var waiting := QueueOf(b, m);
      FlushIsDirect(b.messages[m], waiting);
      assert (waiting + [e])[..|waiting|] == waiting;
    }
  }

  /** Where they cannot, everything is applied on arrival. */
  lemma NothingWaitsWithoutFrames<M>(b: Batch<M>, on: Platform, m: M, e: Envelope)
    requires m in b.messages && !on.canRequest && b.queues == map[] && b.raf == 0
    ensures var after := Apply(b, on, Arrives(m, e));
      m in after.messages && after.queues == map[] && after.messages[m] == Direct(b.messages[m], [e])
  {
    assert [] + [e] == [e] && [e][..0] == [];
    FlushIsDirect(b.messages[m], [e]);
    assert Direct(b.messages[m], []) == b.messages[m];
  }

  // ---- the frames ----

  /** The frame on record was asked for and has not fired; where frames can be withdrawn no other
      is owed. */
  ghost predicate FramesTidy<M>(b: Batch<M>, on: Platform) {
    && (forall f :: f in b.frames ==> 0 < f < b.nextFrame)
    && b.nextFrame > 0
    && (b.raf != 0 ==> b.raf in b.frames)
    && (on.canCancel ==> forall f :: f in b.frames ==> f == b.raf)
  }

  /** Over every run there is at most one frame owed at a time, as long as frames can be withdrawn;
      and while nothing is on record none is. */
  lemma {:induction false} OneFrameAtATime<M>(b: Batch<M>, on: Platform, events: seq<Event<M>>)
    requires FramesTidy(b, on) && Possible(b, on, events)
    ensures FramesTidy(Run(b, on, events), on)
    decreases |events|
  {
    if events != [] {
      StepKeepsTidy(b, on, events[0]);
      OneFrameAtATime(Apply(b, on, events[0]), on, events[1..]);
    }
  }

  lemma StepKeepsTidy<M>(b: Batch<M>, on: Platform, e: Event<M>)
    requires FramesTidy(b, on) && Enabled(b, e)
    ensures FramesTidy(Apply(b, on, e), on)
  {
  }

  /** A switch of the session, and the end of the scope, forget the frame on record; it is still
      owed when it cannot be withdrawn. The switch applies nothing of what waited. */
  lemma FrameForgotten<M>(b: Batch<M>, on: Platform, e: Event<M>)
    requires FramesTidy(b, on) && (e.SwitchSession? || e.DisposeScope?)
    ensures var after := Apply(b, on, e);
      && after.raf == 0 && after.queues == map[]
      && after.frames == (if on.canCancel then {} else b.frames)
      && (e.SwitchSession? ==> after.messages == b.messages)
  {
  }

  // ---- replays and resets ----

  /** A replay shows what its history builds from nothing, and drops what waited for the message; a
      reset shows nothing and keeps what waits. Both keep the root call and all other messages. */
  lemma ReplayAndResetAct<M>(b: Batch<M>, on: Platform, m: M, history: seq<Envelope>)
    requires m in b.messages
    ensures var p := b.messages[m]; var after := Apply(b, on, ResetPresentation(m));
      after == b.(messages := b.messages[m := Projection(p.slot, [], p.rootCallId, Built([]))])
    ensures var p := b.messages[m]; var after := Apply(b, on, Replay(m, history));
      var q := Direct(Projection(p.slot, [], p.rootCallId, p.tree), history);
      after == b.(queues := b.queues - {m}, messages := b.messages[m := q.(tree := Built(q.fed))])
  {
    var p := b.messages[m];
    FlushIsDirect(p.(fed := []), history);
    assert p.(fed := []) == Projection(p.slot, [], p.rootCallId, p.tree);
  }
}
