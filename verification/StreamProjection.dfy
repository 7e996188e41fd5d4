/** Projecting a run's envelopes into the execution tree of a message, applied at once or
    batched per animation frame. The tree library is not part of this model: the state it
    builds is a function of the envelopes it has been fed, so it is represented by them. */
module StreamProjection {

  /** An event of a run; the empty string stands for a missing entry. */
  datatype Envelope = Envelope(kind: string, runId: string, callId: string, childAgentId: string,
                               parentCallId: string, phase: string, body: nat)

  /** The tree last published: one that was loaded, or the one built from the envelopes. */
  datatype Tree = Loaded(handle: nat) | Built(envelopes: seq<Envelope>)

  /** What a message is a slot for; held fixed. */
  datatype Slot = Slot(participantId: string, runId: string)

  /** The projection state of a message. */
  datatype Projection = Projection(slot: Slot, fed: seq<Envelope>, rootCallId: string, tree: Tree)

  predicate Deferred(e: Envelope) {
    e.kind == "stream_output" && (e.phase == "delta" || e.phase == "reasoning_delta")
  }

  predicate CanIdentifyRootCall(e: Envelope) {
    || e.kind == "agent_started" || e.kind == "model_request" || e.kind == "model_attempt_started"
    || e.kind == "model_attempt_completed" || e.kind == "stream_output" || e.kind == "agent_ended"
  }

  /** The root call after the envelope: the first agent-level event of the run names it. */
  function RootAfter(slot: Slot, root: string, e: Envelope): string {
    if slot.runId == "" || e.runId != slot.runId then root
    else if root == "" && CanIdentifyRootCall(e) && e.callId != ""
            && (e.kind != "agent_started" || e.childAgentId == "" || e.childAgentId == slot.participantId)
    then e.callId
    else root
  }

  /** projectEnvelopeForMessage: events of the root call lose the link to the caller's run. */
  function Projected(slot: Slot, root: string, e: Envelope): Envelope {
    var after := RootAfter(slot, root, e);
    if slot.runId == "" || e.runId != slot.runId || after == "" || e.callId != after then e
    else e.(parentCallId := "")
  }

  /** applyProjectedEnvelope. */
  function Feed(p: Projection, e: Envelope): Projection {
    p.(fed := p.fed + [Projected(p.slot, p.rootCallId, e)], rootCallId := RootAfter(p.slot, p.rootCallId, e))
  }

  function FeedAll(p: Projection, es: seq<Envelope>): Projection {
    if es == [] then p else Feed(FeedAll(p, es[..|es| - 1]), es[|es| - 1])
  }

  /** publishExecutionTree. */
  function Publish(p: Projection): Projection { p.(tree := Built(p.fed)) }

  /** The simple version: every event is applied and published when it arrives. */
  function Direct(p: Projection, es: seq<Envelope>): Projection {
    if es == [] then p else Publish(Feed(Direct(p, es[..|es| - 1]), es[|es| - 1]))
  }

  /** flushMessageStreamEvents. */
  function Flushed(p: Projection, queue: seq<Envelope>): Projection {
    if queue == [] then p else Publish(FeedAll(p, queue))
  }

  /** Applying a queue and publishing once is applying and publishing each event. */
  lemma {:induction false} FlushIsDirect(p: Projection, queue: seq<Envelope>)
    ensures Flushed(p, queue) == Direct(p, queue)
  {
    if queue != [] {
      var init, last := queue[..|queue| - 1], queue[|queue| - 1];
      FlushIsDirect(p, init);
      var fed := FeedAll(p, init);
      assert Publish(Feed(Publish(fed), last)) == Publish(Feed(fed, last));
    }
  }

  lemma {:induction false} DirectAppend(p: Projection, xs: seq<Envelope>, ys: seq<Envelope>)
    ensures Direct(p, xs + ys) == Direct(Direct(p, xs), ys)
  {
    if ys == [] {
      assert xs + ys == xs;
    } else {
      assert (xs + ys)[..|xs + ys| - 1] == xs + ys[..|ys| - 1];
      DirectAppend(p, xs, ys[..|ys| - 1]);
    }
  }

  // ---- the batching ----

  /** The queues of pendingStreamEvents, the handle in streamFlushRaf (0 for none) and the
      frame callbacks the browser still owes. */
  datatype Batch<!M> = Batch(messages: map<M, Projection>, queues: map<M, seq<Envelope>>,
                             raf: nat, frames: set<nat>, nextFrame: nat)

  /** Whether the environment has requestAnimationFrame and cancelAnimationFrame. */
  datatype Platform = Platform(canRequest: bool, canCancel: bool)

  datatype Event<!M> =
    | Arrives(message: M, envelope: Envelope)
    | FrameFires(frame: nat)
    | FlushNow
    | SwitchSession
    | DisposeScope
    | Replay(message: M, history: seq<Envelope>)
    | ResetPresentation(message: M)

  function QueueOf<M>(b: Batch<M>, m: M): seq<Envelope> { if m in b.queues then b.queues[m] else [] }

  function FlushMessage<M>(b: Batch<M>, m: M): Batch<M>
    requires m in b.messages
  {
    b.(queues := b.queues - {m}, messages := b.messages[m := Flushed(b.messages[m], QueueOf(b, m))])
  }

  function FlushAll<M>(b: Batch<M>): Batch<M> {
    b.(queues := map[], messages := map m | m in b.messages :: Flushed(b.messages[m], QueueOf(b, m)))
  }

  function CancelFrame<M>(b: Batch<M>, on: Platform): Batch<M> {
    if b.raf == 0 then b
    else b.(raf := 0, frames := if on.canCancel then b.frames - {b.raf} else b.frames)
  }

  function ScheduleFrame<M>(b: Batch<M>, on: Platform): Batch<M> {
    if b.raf != 0 then b
    else if !on.canRequest then FlushAll(b)
    else b.(raf := b.nextFrame, frames := b.frames + {b.nextFrame}, nextFrame := b.nextFrame + 1)
  }

  /** applyEnvelopeToMessage. */
  function ApplyToMessage<M>(b: Batch<M>, on: Platform, m: M, e: Envelope): Batch<M>
    requires m in b.messages
  {
    if Deferred(e) then ScheduleFrame(b.(queues := b.queues[m := QueueOf(b, m) + [e]]), on)
    else
      var flushed := FlushMessage(b, m);
      flushed.(messages := flushed.messages[m := Publish(Feed(flushed.messages[m], e))])
  }

  /** An event that is not queued, in one step. */
  lemma ImmediateEffect<M>(b: Batch<M>, on: Platform, m: M, e: Envelope)
    requires m in b.messages && !Deferred(e)
    ensures ApplyToMessage(b, on, m, e) ==
      b.(queues := b.queues - {m}, messages := b.messages[m := Publish(Feed(Flushed(b.messages[m], QueueOf(b, m)), e))])
  {
  }

  /** The replacement of a message's state by its replayed history. */
  function Replayed(p: Projection, history: seq<Envelope>): Projection {
    Publish(FeedAll(p.(fed := []), history))
  }

  /** resetActiveRunPresentation: the state and the tree start over; the root call and the queue
      stay. */
  function Cleared(p: Projection): Projection { p.(fed := [], tree := Built([])) }

  predicate Enabled<M>(b: Batch<M>, e: Event<M>) {
    match e
    case Arrives(m, _) => m in b.messages
    case Replay(m, _) => m in b.messages
    case ResetPresentation(m) => m in b.messages
    case FrameFires(frame) => frame in b.frames
    case _ => true
  }

  function Apply<M>(b: Batch<M>, on: Platform, e: Event<M>): Batch<M>
    requires Enabled(b, e)
  {
    match e
    case Arrives(m, envelope) => ApplyToMessage(b, on, m, envelope)
    case FrameFires(frame) => FlushAll(b.(raf := 0, frames := b.frames - {frame}))
    case FlushNow => FlushAll(b)
    case SwitchSession => CancelFrame(b, on).(queues := map[])
    case DisposeScope => FlushAll(CancelFrame(b, on))
    case Replay(m, history) =>
      b.(queues := b.queues - {m}, messages := b.messages[m := Replayed(b.messages[m], history)])
    case ResetPresentation(m) => b.(messages := b.messages[m := Cleared(b.messages[m])])
  }

  /** What the simple version would have been given since the message was last loaded: its
      state then and the events in order of arrival. A session switch discards the frames that
      were still queued; they count as never having arrived. A reset keeps them: they count as
      arriving after it. */
  datatype Past = Past(base: Projection, arrived: seq<Envelope>)

  function WithoutLast(es: seq<Envelope>, n: nat): seq<Envelope> {
    if n <= |es| then es[..|es| - n] else []
  }

  function PastAfter<M(==)>(b: Batch<M>, m: M, past: Past, e: Event<M>): Past
    requires m in b.messages
  {
    match e
    case Arrives(x, envelope) => if x == m then past.(arrived := past.arrived + [envelope]) else past
    case SwitchSession => past.(arrived := WithoutLast(past.arrived, |QueueOf(b, m)|))
    case Replay(x, history) => if x == m then Past(Replayed(b.messages[m], history), []) else past
    case ResetPresentation(x) => if x == m then Past(Cleared(b.messages[m]), QueueOf(b, m)) else past
    case _ => past
  }

  /** The arrivals are those taken in followed by those queued, and the message is where the
      simple version is after the ones taken in, with the same tree on show. */
  ghost predicate TookIn(p: Projection, queue: seq<Envelope>, past: Past, taken: seq<Envelope>) {
    past.arrived == taken + queue && p == Direct(past.base, taken)
  }

  ghost predicate InStep(p: Projection, queue: seq<Envelope>, past: Past) {
    exists taken :: TookIn(p, queue, past, taken)
  }

  /** Only delta frames are queued, only for known messages, and a frame is then scheduled. */
  ghost predicate QueuesScheduled<M>(b: Batch<M>) {
    && (forall m :: m in b.queues ==> m in b.messages && forall e :: e in b.queues[m] ==> Deferred(e))
    && (forall m :: m in b.queues && b.queues[m] != [] ==> b.raf != 0)
    && (b.raf != 0 ==> b.raf in b.frames)
    && b.nextFrame > 0
  }

  lemma DeferStaysInStep(p: Projection, queue: seq<Envelope>, past: Past, e: Envelope)
    requires InStep(p, queue, past)
    ensures InStep(p, queue + [e], past.(arrived := past.arrived + [e]))
  {
    var taken :| TookIn(p, queue, past, taken);
    assert TookIn(p, queue + [e], past.(arrived := past.arrived + [e]), taken);
  }

  lemma FlushGetsInStep(p: Projection, queue: seq<Envelope>, past: Past)
    requires InStep(p, queue, past)
    ensures InStep(Flushed(p, queue), [], past)
    ensures Flushed(p, queue) == Direct(past.base, past.arrived)
  {
    var taken :| TookIn(p, queue, past, taken);
    FlushIsDirect(p, queue);
    DirectAppend(past.base, taken, queue);
    assert TookIn(Flushed(p, queue), [], past, past.arrived);
  }

  lemma ImmediateStaysInStep(p: Projection, past: Past, e: Envelope)
    requires InStep(p, [], past)
    ensures InStep(Publish(Feed(p, e)), [], past.(arrived := past.arrived + [e]))
  {
    var taken :| TookIn(p, [], past, taken);
    var more := taken + [e];
    assert more[..|more| - 1] == taken;
    assert TookIn(Publish(Feed(p, e)), [], past.(arrived := past.arrived + [e]), more);
  }

  lemma DropGetsInStep(p: Projection, queue: seq<Envelope>, past: Past)
    requires InStep(p, queue, past)
    ensures |queue| <= |past.arrived|
    ensures InStep(p, [], past.(arrived := WithoutLast(past.arrived, |queue|)))
  {
    var taken :| TookIn(p, queue, past, taken);
    assert WithoutLast(past.arrived, |queue|) == taken;
    assert TookIn(p, [], past.(arrived := taken), taken);
  }

  /** What an arrival does to its own message: a delta is queued, or without animation frames
      flushed at once; anything else is applied after the queue. */
  lemma ArrivalEffect<M>(b: Batch<M>, on: Platform, m: M, e: Envelope)
    requires m in b.messages
    ensures var after := ApplyToMessage(b, on, m, e);
      var p, queue := b.messages[m], QueueOf(b, m);
      && m in after.messages
      && if !Deferred(e) then after.messages[m] == Publish(Feed(Flushed(p, queue), e)) && QueueOf(after, m) == []
         else if b.raf == 0 && !on.canRequest
         then after.messages[m] == Flushed(p, queue + [e]) && QueueOf(after, m) == []
         else after.messages[m] == p && QueueOf(after, m) == queue + [e]
  {
  }

  lemma ArrivalInStep<M>(b: Batch<M>, on: Platform, m: M, past: Past, e: Envelope)
    requires m in b.messages && InStep(b.messages[m], QueueOf(b, m), past)
    ensures var after := ApplyToMessage(b, on, m, e);
      m in after.messages && InStep(after.messages[m], QueueOf(after, m), past.(arrived := past.arrived + [e]))
  {
    var p, queue := b.messages[m], QueueOf(b, m);
    ArrivalEffect(b, on, m, e);
    if Deferred(e) {
      DeferStaysInStep(p, queue, past, e);
      FlushGetsInStep(p, queue + [e], past.(arrived := past.arrived + [e]));
    } else {
      FlushGetsInStep(p, queue, past);
      ImmediateStaysInStep(Flushed(p, queue), past, e);
    }
  }

  predicate IsAbout<M(==)>(e: Event<M>, m: M) {
    (e.Arrives? || e.Replay? || e.ResetPresentation?) && e.message == m
  }

  /** A message an event is not about is at most flushed or stripped of its queue. */
  lemma OthersKeptOrFlushed<M>(b: Batch<M>, on: Platform, m: M, e: Event<M>)
    requires Enabled(b, e) && m in b.messages && !IsAbout(e, m)
    ensures var after := Apply(b, on, e);
      && m in after.messages
      && if e.SwitchSession? then after.messages[m] == b.messages[m] && QueueOf(after, m) == []
         else || (after.messages[m] == b.messages[m] && QueueOf(after, m) == QueueOf(b, m))
              || (after.messages[m] == Flushed(b.messages[m], QueueOf(b, m)) && QueueOf(after, m) == [])
  {
  }

  lemma StepInStep<M>(b: Batch<M>, on: Platform, m: M, past: Past, e: Event<M>)
    requires m in b.messages && InStep(b.messages[m], QueueOf(b, m), past) && Enabled(b, e)
    ensures var after := Apply(b, on, e);
      m in after.messages && InStep(after.messages[m], QueueOf(after, m), PastAfter(b, m, past, e))
  {
    if e.Arrives? && e.message == m {
      ArrivalInStep(b, on, m, past, e.envelope);
    } else if e.Replay? && e.message == m {
      var base := Replayed(b.messages[m], e.history);
      assert TookIn(base, [], Past(base, []), []);
    } else if e.ResetPresentation? && e.message == m {
      var base, queue := Cleared(b.messages[m]), QueueOf(b, m);
      assert [] + queue == queue;
      assert TookIn(base, queue, Past(base, queue), []);
    } else {
      OthersKeptOrFlushed(b, on, m, e);
      FlushGetsInStep(b.messages[m], QueueOf(b, m), past);
      DropGetsInStep(b.messages[m], QueueOf(b, m), past);
    }
  }

  lemma StepSchedules<M>(b: Batch<M>, on: Platform, e: Event<M>)
    requires QueuesScheduled(b) && Enabled(b, e)
    ensures QueuesScheduled(Apply(b, on, e))
  {
  }

  // ---- runs ----

  predicate Possible<M>(b: Batch<M>, on: Platform, events: seq<Event<M>>)
    decreases |events|
  {
    events == [] || (Enabled(b, events[0]) && Possible(Apply(b, on, events[0]), on, events[1..]))
  }

  function Run<M>(b: Batch<M>, on: Platform, events: seq<Event<M>>): Batch<M>
    requires Possible(b, on, events)
    decreases |events|
  {
    if events == [] then b else Run(Apply(b, on, events[0]), on, events[1..])
  }

  function PastAlong<M(==)>(b: Batch<M>, on: Platform, m: M, past: Past, events: seq<Event<M>>): Past
    requires Possible(b, on, events)
    decreases |events|
  {
    if events == [] || m !in b.messages then past
    else PastAlong(Apply(b, on, events[0]), on, m, PastAfter(b, m, past, events[0]), events[1..])
  }

  /** Over every run, session switches and replays included, the events a message has taken in
      followed by those queued are its arrivals in order, and its tree is up to date with the
      events taken in. */
  lemma {:induction false} RunInStep<M>(b: Batch<M>, on: Platform, m: M, past: Past, events: seq<Event<M>>)
    requires m in b.messages && InStep(b.messages[m], QueueOf(b, m), past) && Possible(b, on, events)
    ensures var r := Run(b, on, events);
      m in r.messages && InStep(r.messages[m], QueueOf(r, m), PastAlong(b, on, m, past, events))
    decreases |events|
  {
    if events != [] {
      StepInStep(b, on, m, past, events[0]);
      RunInStep(Apply(b, on, events[0]), on, m, PastAfter(b, m, past, events[0]), events[1..]);
    }
  }

  /** Over every run the queues hold only delta frames, and a queue that is not empty has a
      frame scheduled. */
  lemma {:induction false} RunSchedules<M>(b: Batch<M>, on: Platform, events: seq<Event<M>>)
    requires QueuesScheduled(b) && Possible(b, on, events)
    ensures QueuesScheduled(Run(b, on, events))
    decreases |events|
  {
    if events != [] {
      StepSchedules(b, on, events[0]);
      RunSchedules(Apply(b, on, events[0]), on, events[1..]);
    }
  }

  function ArrivalsOf<M(==)>(events: seq<Event<M>>, m: M): seq<Envelope> {
    if events == [] then []
    else Arrival(events[0], m) + ArrivalsOf(events[1..], m)
  }

  function Arrival<M(==)>(e: Event<M>, m: M): seq<Envelope> {
    if e.Arrives? && e.message == m then [e.envelope] else []
  }

  lemma ArrivalsUnroll<M>(before: seq<Envelope>, events: seq<Event<M>>, m: M)
    requires events != []
    ensures (before + Arrival(events[0], m)) + ArrivalsOf(events[1..], m) == before + ArrivalsOf(events, m)
  {
  }

  predicate Live<M>(e: Event<M>) { !e.SwitchSession? && !e.Replay? && !e.ResetPresentation? }

  lemma LivePastAfter<M>(b: Batch<M>, m: M, past: Past, e: Event<M>)
    requires m in b.messages && Live(e)
    ensures PastAfter(b, m, past, e) == Past(past.base, past.arrived + Arrival(e, m))
  {
    assert past.arrived + [] == past.arrived;
  }

  /** Along a run without switches, replays and resets a message stays in step with its arrivals. */
  lemma {:induction false} LiveRunInStep<M>(b: Batch<M>, on: Platform, m: M, past: Past, events: seq<Event<M>>)
    requires m in b.messages && InStep(b.messages[m], QueueOf(b, m), past) && Possible(b, on, events)
    requires forall i :: 0 <= i < |events| ==> Live(events[i])
    ensures var r := Run(b, on, events);
      m in r.messages && InStep(r.messages[m], QueueOf(r, m), Past(past.base, past.arrived + ArrivalsOf(events, m)))
    decreases |events|
  {
    if events == [] {
      assert past.arrived + [] == past.arrived;
    } else {
      var e, rest := events[0], events[1..];
      assert Live(e);
      StepInStep(b, on, m, past, e);
      LivePastAfter(b, m, past, e);
      var now := past.(arrived := past.arrived + Arrival(e, m));
      LiveRunInStep(Apply(b, on, e), on, m, now, rest);
      ArrivalsUnroll(past.arrived, events, m);
    }
  }

  /** Refinement: starting with nothing queued, flushing what is still queued for a message
      always gives the state and tree of the version that applies each event on arrival; so
      whenever nothing is queued for it, the message is exactly there. */
  lemma BatchedRefinesDirect<M>(b: Batch<M>, on: Platform, events: seq<Event<M>>, m: M)
    requires b.queues == map[] && Possible(b, on, events) && m in b.messages
    requires forall i :: 0 <= i < |events| ==> Live(events[i])
    ensures m in Run(b, on, events).messages
    ensures Flushed(Run(b, on, events).messages[m], QueueOf(Run(b, on, events), m))
      == Direct(b.messages[m], ArrivalsOf(events, m))
    ensures QueueOf(Run(b, on, events), m) == [] ==>
      Run(b, on, events).messages[m] == Direct(b.messages[m], ArrivalsOf(events, m))
  {
    var past := Past(b.messages[m], []);
    assert TookIn(b.messages[m], [], past, []);
    LiveRunInStep(b, on, m, past, events);
    var arrived := [] + ArrivalsOf(events, m);
    assert arrived == ArrivalsOf(events, m);
    FlushGetsInStep(Run(b, on, events).messages[m], QueueOf(Run(b, on, events), m), Past(b.messages[m], arrived));
  }

  /** The flush points: after a frame, an explicit flush or the end of the scope nothing is
      queued, and after an event that is not a delta nothing is queued for its message. */
  lemma FlushPoints<M>(b: Batch<M>, on: Platform, e: Event<M>, m: M)
    requires Enabled(b, e)
    requires e.FrameFires? || e.FlushNow? || e.DisposeScope? || (e.Arrives? && e.message == m && !Deferred(e.envelope))
    ensures QueueOf(Apply(b, on, e), m) == []
  {
  }

  /** Where frames cannot be requested nothing is ever queued. */
  lemma {:induction false} NoFramesNoQueues<M>(b: Batch<M>, on: Platform, events: seq<Event<M>>)
    requires !on.canRequest && b.queues == map[] && b.raf == 0 && Possible(b, on, events)
    ensures Run(b, on, events).queues == map[] && Run(b, on, events).raf == 0
    decreases |events|
  {
    if events != [] {
      NoFramesNoQueues(Apply(b, on, events[0]), on, events[1..]);
    }
  }

  /** So there the batched version is the simple one after every event. */
  lemma NoFramesIsDirect<M>(b: Batch<M>, on: Platform, events: seq<Event<M>>, m: M)
    requires !on.canRequest && b.queues == map[] && b.raf == 0 && Possible(b, on, events) && m in b.messages
    requires forall i :: 0 <= i < |events| ==> Live(events[i])
    ensures m in Run(b, on, events).messages
    ensures Run(b, on, events).messages[m] == Direct(b.messages[m], ArrivalsOf(events, m))
  {
    NoFramesNoQueues(b, on, events);
    BatchedRefinesDirect(b, on, events, m);
  }

  // ---- replay after a reset ----

  lemma {:induction false} FedLength(p: Projection, es: seq<Envelope>)
    ensures |Direct(p, es).fed| == |p.fed| + |es|
  {
    if es != [] { FedLength(p, es[..|es| - 1]); }
  }

  /** What the frames left in the queue do after a reset: they come first in the new tree. */
  lemma ResetKeepsQueue<M>(b: Batch<M>, on: Platform, m: M, events: seq<Event<M>>)
    requires m in b.messages && Possible(Apply(b, on, ResetPresentation(m)), on, events)
    requires forall i :: 0 <= i < |events| ==> Live(events[i])
    ensures var r := Run(Apply(b, on, ResetPresentation(m)), on, events);
      m in r.messages
      && Flushed(r.messages[m], QueueOf(r, m)) == Direct(Cleared(b.messages[m]), QueueOf(b, m) + ArrivalsOf(events, m))
  {
    var reset := Apply(b, on, ResetPresentation(m));
    var r := Run(reset, on, events);
    var past := Past(Cleared(b.messages[m]), QueueOf(b, m));
    assert [] + QueueOf(b, m) == QueueOf(b, m);
    assert TookIn(reset.messages[m], QueueOf(reset, m), past, []);
    LiveRunInStep(reset, on, m, past, events);
    var now := Past(past.base, past.arrived + ArrivalsOf(events, m));
    FlushGetsInStep(r.messages[m], QueueOf(r, m), now);
  }

  /** After a reset the replayed events build the tree that they build in the version without
      queues iff nothing was queued: frames left over are fed into the new tree once more. */
  lemma ReplayAfterResetIff<M>(b: Batch<M>, on: Platform, m: M, events: seq<Event<M>>)
    requires m in b.messages && Possible(Apply(b, on, ResetPresentation(m)), on, events)
    requires forall i :: 0 <= i < |events| ==> Live(events[i])
    ensures var r := Run(Apply(b, on, ResetPresentation(m)), on, events);
      var direct := Direct(Cleared(Direct(b.messages[m], QueueOf(b, m))), ArrivalsOf(events, m));
      m in r.messages && (Flushed(r.messages[m], QueueOf(r, m)) == direct <==> QueueOf(b, m) == [])
  {
    var p, queue, es := b.messages[m], QueueOf(b, m), ArrivalsOf(events, m);
    ResetKeepsQueue(b, on, m, events);
    FedLength(Cleared(p), queue + es);
    FedLength(Cleared(Direct(p, queue)), es);
    if queue == [] {
      assert queue + es == es;
    }
  }

  // ---- replay ----

  lemma {:induction false} FeedAllReads(p: Projection, q: Projection, es: seq<Envelope>)
    requires p.slot == q.slot && p.rootCallId == q.rootCallId && p.fed == q.fed
    ensures FeedAll(p, es).fed == FeedAll(q, es).fed && FeedAll(p, es).rootCallId == FeedAll(q, es).rootCallId
    ensures FeedAll(p, es).slot == p.slot && FeedAll(q, es).slot == p.slot
  {
    if es != [] { FeedAllReads(p, q, es[..|es| - 1]); }
  }

  /** The envelope names the root call of a message that does not know it yet. */
  predicate Names(slot: Slot, e: Envelope) {
    && slot.runId != "" && e.runId == slot.runId && CanIdentifyRootCall(e) && e.callId != ""
    && (e.kind != "agent_started" || e.childAgentId == "" || e.childAgentId == slot.participantId)
  }

  /** The root call after a queue is known iff it was before or some envelope names it; until
      then nothing but the fed envelopes and the tree changes. */
  lemma {:induction false} RootAfterQueue(p: Projection, queue: seq<Envelope>)
    ensures var q := Direct(p, queue);
      && q.slot == p.slot
      && (p.rootCallId != "" || (forall i :: 0 <= i < |queue| ==> !Names(p.slot, queue[i])) <==>
            q.rootCallId == p.rootCallId)
  {
    if queue != [] {
      var init := queue[..|queue| - 1];
      RootAfterQueue(p, init);
      assert forall i :: 0 <= i < |init| ==> init[i] == queue[i];
      if p.rootCallId == "" && forall i :: 0 <= i < |init| ==> !Names(p.slot, init[i]) {
        assert (forall i :: 0 <= i < |queue| ==> !Names(p.slot, queue[i])) <==> !Names(p.slot, queue[|queue| - 1]);
      }
    }
  }

  /** A replay drops the queue. Whatever history it brings, it gives what it would give had every
      queued frame been applied, iff the root call is known or no queued frame names it. */
  lemma ReplayIgnoresQueueIff(p: Projection, queue: seq<Envelope>)
    ensures (forall h :: Replayed(p, h) == Replayed(Direct(p, queue), h)) <==>
      p.rootCallId != "" || forall i :: 0 <= i < |queue| ==> !Names(p.slot, queue[i])
  {
    var q := Direct(p, queue);
    RootAfterQueue(p, queue);
    if q.rootCallId == p.rootCallId {
      forall h ensures Replayed(p, h) == Replayed(q, h) {
        FeedAllReads(p.(fed := []), q.(fed := []), h);
      }
    } else {
      assert Replayed(p, []).rootCallId != Replayed(q, []).rootCallId;
    }
  }

  /** A queued frame that names an inner call, and a history that starts with the outer one: had
      the frame been applied, the outer call would keep its link to the caller. */
  lemma ReplayBeforeRootIsKnown() returns (p: Projection, queue: seq<Envelope>, history: seq<Envelope>)
    ensures p.rootCallId == "" && queue != []
    ensures Replayed(p, history) != Replayed(Direct(p, queue), history)
  {
    p := Projection(Slot("a", "run"), [], "", Loaded(0));
    queue := [Envelope("stream_output", "run", "inner", "", "", "delta", 0)];
    history := [Envelope("model_request", "run", "outer", "", "caller", "", 1)];
    assert Direct(p, queue).rootCallId == "inner" by { assert Direct(p, queue[..0]) == p; }
    assert FeedAll(p.(fed := []), history[..0]) == p.(fed := []);
    var q := Direct(p, queue).(fed := []);
    assert FeedAll(q, history[..0]) == q;
    assert Replayed(p, history).fed[0].parentCallId == "";
    assert Replayed(Direct(p, queue), history).fed[0].parentCallId == "caller";
  }
}
