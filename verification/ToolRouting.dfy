/** The tool router: which socket serves a session, and calls sent to it that wait for their
    result or their timeout. */
module ToolRouting {

  datatype Socket = Socket(id: nat)

  datatype Route = Route(ws: Socket, tools: set<string>)

  datatype Answer = Result(text: string) | TimedOut

  /** The promise of a dispatched call: whether `send` threw, and the answers it was given. */
  datatype Promise = Promise(thrown: bool, answers: seq<Answer>)

  /** `promises` is what the callers hold, and `timers` the calls with an armed timer. */
  datatype State = State(sessions: map<string, Route>, wsToSessions: map<Socket, set<string>>,
                         pending: set<string>, timers: set<string>, promises: map<string, Promise>)

  datatype Event =
    | Register(sid: string, ws: Socket, tools: set<string>)
    | Disconnect(ws: Socket)
    | Invoke(sid: string, tool: string, open: set<Socket>, callId: string, throws: bool)
    | Deliver(callId: string, text: string)
    | Timeout(callId: string)

  /** How `invoke` ends at once, or that it dispatched the call. */
  datatype Dispatch = NoSessionId | NotConnected | NotDeclared | SocketNotReady | Dispatched

  function Start(): State { State(map[], map[], {}, {}, map[]) }

  function Listed(s: State, ws: Socket): set<string> { if ws in s.wsToSessions then s.wsToSessions[ws] else {} }

  /** `open` are the sockets in the OPEN state. */
  function DispatchOf(s: State, sid: string, tool: string, open: set<Socket>): Dispatch {
    if sid == "" then NoSessionId
    else if sid !in s.sessions then NotConnected
    else if tool !in s.sessions[sid].tools then NotDeclared
    else if s.sessions[sid].ws !in open then SocketNotReady
    else Dispatched
  }

  function Answered(s: State, callId: string, a: Answer): State {
    if callId !in s.promises then s
    else s.(promises := s.promises[callId := s.promises[callId].(answers := s.promises[callId].answers + [a])])
  }

  function Apply(s: State, e: Event): State {
    match e
    case Register(sid, ws, tools) =>
      s.(sessions := s.sessions[sid := Route(ws, tools)], wsToSessions := s.wsToSessions[ws := Listed(s, ws) + {sid}])
    case Disconnect(ws) => s.(sessions := s.sessions - Listed(s, ws), wsToSessions := s.wsToSessions - {ws})
    case Invoke(sid, tool, open, callId, throws) =>
      if DispatchOf(s, sid, tool, open) != Dispatched then s
      else
        s.(pending := s.pending + {callId}, timers := s.timers + {callId},
           promises := s.promises[callId := Promise(throws, [])])
    case Deliver(callId, text) =>
      if callId !in s.pending then s
      else Answered(s.(pending := s.pending - {callId}, timers := s.timers - {callId}), callId, Result(text))
    case Timeout(callId) =>
      if callId !in s.timers then s
      else Answered(s.(pending := s.pending - {callId}, timers := s.timers - {callId}), callId, TimedOut)
  }

  function Run(s: State, events: seq<Event>): State {
    if events == [] then s else Apply(Run(s, events[..|events| - 1]), events[|events| - 1])
  }

  /** Call ids are never used twice, as `randomUUID` promises. */
  ghost predicate FreshIds(s: State, events: seq<Event>) {
    && (forall i :: 0 <= i < |events| && events[i].Invoke? ==> events[i].callId !in s.promises)
    && (forall i, j :: 0 <= i < j < |events| && events[i].Invoke? && events[j].Invoke? ==>
          events[i].callId != events[j].callId)
  }

  // ---- invariants ----

  /** Each session is listed under its socket, and the calls pending are those with a timer,
      dispatched and not yet answered; no call is answered twice. */
  ghost predicate Inv(s: State) {
    && (forall sid :: sid in s.sessions ==> sid in Listed(s, s.sessions[sid].ws))
    && s.pending == s.timers
    && (forall c :: c in s.pending <==> c in s.promises && s.promises[c].answers == [])
    && (forall c :: c in s.promises ==> |s.promises[c].answers| <= 1)
  }

  lemma StepKeepsInv(s: State, e: Event)
    requires Inv(s) && (e.Invoke? ==> e.callId !in s.promises)
    ensures Inv(Apply(s, e))
  {
  }

  lemma FreshPrefix(s: State, events: seq<Event>)
    requires FreshIds(s, events) && events != []
    ensures FreshIds(s, events[..|events| - 1])
  {
    var init := events[..|events| - 1];
    assert forall i :: 0 <= i < |init| ==> init[i] == events[i];
  }

  /** The ids in use are those of the calls already made. */
  lemma {:induction false} PromisesFromInvokes(s: State, events: seq<Event>, c: string)
    ensures c in Run(s, events).promises ==>
      c in s.promises || exists i :: 0 <= i < |events| && events[i].Invoke? && events[i].callId == c
    ensures c in s.promises ==> c in Run(s, events).promises
  {
    if events != [] {
      var init := events[..|events| - 1];
      PromisesFromInvokes(s, init, c);
      assert forall i :: 0 <= i < |init| ==> init[i] == events[i];
    }
  }

  lemma FreshNext(s: State, events: seq<Event>)
    requires FreshIds(s, events) && events != [] && events[|events| - 1].Invoke?
    ensures events[|events| - 1].callId !in Run(s, events[..|events| - 1]).promises
  {
    var init, c := events[..|events| - 1], events[|events| - 1].callId;
    PromisesFromInvokes(s, init, c);
    forall i | 0 <= i < |init| && init[i].Invoke? ensures init[i].callId != c {
      assert init[i] == events[i];
    }
  }

  lemma {:induction false} RunKeepsInv(s: State, events: seq<Event>)
    requires Inv(s) && FreshIds(s, events)
    ensures Inv(Run(s, events))
  {
    if events != [] {
      FreshPrefix(s, events);
      RunKeepsInv(s, events[..|events| - 1]);
      if events[|events| - 1].Invoke? { FreshNext(s, events); }
      StepKeepsInv(Run(s, events[..|events| - 1]), events[|events| - 1]);
    }
  }

  // ---- routes ----

  /** After a socket disconnects no session routes to it. */
  lemma DisconnectedServesNone(events: seq<Event>, ws: Socket, sid: string)
    requires FreshIds(Start(), events)
    requires sid in Apply(Run(Start(), events), Disconnect(ws)).sessions
    ensures Apply(Run(Start(), events), Disconnect(ws)).sessions[sid].ws != ws
  {
    RunKeepsInv(Start(), events);
  }

  /** The session registered on the socket, which has not disconnected since. */
  predicate RegisteredOn(events: seq<Event>, sid: string, ws: Socket) {
    events != [] &&
    var e := events[|events| - 1];
    if e.Register? && e.sid == sid && e.ws == ws then true
    else if e == Disconnect(ws) then false
    else RegisteredOn(events[..|events| - 1], sid, ws)
  }

  /** The reverse index lists a session under every socket it registered on, until that socket
      disconnects: moving to another socket does not take it off. */
  lemma {:induction false} ReverseIndexIsTheTrace(events: seq<Event>, sid: string, ws: Socket)
    ensures sid in Listed(Run(Start(), events), ws) <==> RegisteredOn(events, sid, ws)
  {
    if events != [] { ReverseIndexIsTheTrace(events[..|events| - 1], sid, ws); }
  }

  /** The route of a session: its latest registration, unless a socket it had registered on
      disconnected since. */
  function RouteOf(events: seq<Event>, sid: string): set<Route> {
    if events == [] then {}
    else
      var init, e := events[..|events| - 1], events[|events| - 1];
      if e.Register? && e.sid == sid then {Route(e.ws, e.tools)}
      else if e.Disconnect? && RegisteredOn(init, sid, e.ws) then {}
      else RouteOf(init, sid)
  }

  lemma {:induction false} RoutesAreTheTrace(events: seq<Event>, sid: string)
    ensures var s := Run(Start(), events);
      RouteOf(events, sid) == if sid in s.sessions then {s.sessions[sid]} else {}
  {
    if events != [] {
      var init, e := events[..|events| - 1], events[|events| - 1];
      RoutesAreTheTrace(init, sid);
      if e.Disconnect? { ReverseIndexIsTheTrace(init, sid, e.ws); }
    }
  }

  /** Disconnecting drops only the routes to the socket iff every session it lists that is
      connected at all is connected through it. */
  lemma DisconnectDropsOnlyItsRoutesIff(s: State, ws: Socket)
    requires Inv(s)
    ensures (forall sid :: sid in s.sessions && s.sessions[sid].ws != ws ==> sid in Apply(s, Disconnect(ws)).sessions)
      <==> (forall sid :: sid in Listed(s, ws) && sid in s.sessions ==> s.sessions[sid].ws == ws)
  {
    var after := Apply(s, Disconnect(ws)).sessions;
    forall sid ensures sid in after <==> sid in s.sessions && sid !in Listed(s, ws) { }
  }

  /** A session that has moved to another socket loses its route when the old one disconnects. */
  lemma MovedSessionLosesItsRoute(sid: string, old_: Socket, new_: Socket, tools: set<string>)
    requires old_ != new_
    ensures var moved := [Register(sid, old_, tools), Register(sid, new_, tools)];
      sid in Run(Start(), moved).sessions && sid !in Run(Start(), moved + [Disconnect(old_)]).sessions
  {
    var first, second := Register(sid, old_, tools), Register(sid, new_, tools);
    var moved := [first, second];
    assert moved[..1] == [first] && [first][..0] == [];
    assert (moved + [Disconnect(old_)])[..2] == moved;
    assert Run(Start(), [first]) == Apply(Start(), first);
    assert Run(Start(), moved) == Apply(Apply(Start(), first), second);
    assert sid in Listed(Run(Start(), moved), old_);
  }

  // ---- calls ----

  predicate Answers(e: Event, callId: string) { (e.Deliver? || e.Timeout?) && e.callId == callId }

  function AnswerOf(e: Event): Answer
    requires e.Deliver? || e.Timeout?
  {
    if e.Deliver? then Result(e.text) else TimedOut
  }

  /** The first result or timeout of the call among the events. */
  function FirstAnswer(events: seq<Event>, callId: string): seq<Answer> {
    if events == [] then []
    else
      var init, e := events[..|events| - 1], events[|events| - 1];
      if FirstAnswer(init, callId) != [] then FirstAnswer(init, callId)
      else if Answers(e, callId) then [AnswerOf(e)]
      else []
  }

  /** A dispatched call is answered exactly once, by the first result or timeout that comes for
      it, whatever else happens; until then it is pending with its timer armed, and from then
      on it is not. */
  lemma {:induction false} FirstAnswerWins(s: State, e: Event, events: seq<Event>)
    requires Inv(s) && e.Invoke? && DispatchOf(s, e.sid, e.tool, e.open) == Dispatched
    requires FreshIds(s, [e] + events)
    ensures var n := Run(Apply(s, e), events); var c := e.callId;
      && c in n.promises && n.promises[c] == Promise(e.throws, FirstAnswer(events, c))
      && (c in n.pending <==> FirstAnswer(events, c) == [])
      && (c in n.timers <==> FirstAnswer(events, c) == [])
  {
    assert ([e] + events)[0] == e;
    if events != [] {
      var init, last := events[..|events| - 1], events[|events| - 1];
      assert ([e] + events)[..|[e] + events| - 1] == [e] + init;
      FreshPrefix(s, [e] + events);
      FirstAnswerWins(s, e, init);
      assert last == ([e] + events)[|events|];
    }
  }

  lemma {:induction false} AnswerComes(events: seq<Event>, callId: string)
    ensures |FirstAnswer(events, callId)| <= 1
    ensures FirstAnswer(events, callId) != [] <==> exists i :: 0 <= i < |events| && Answers(events[i], callId)
  {
    if events != [] {
      var init := events[..|events| - 1];
      AnswerComes(init, callId);
      assert forall i :: 0 <= i < |init| ==> init[i] == events[i];
    }
  }

  /** A dispatched call has been answered, once, iff a result or its timeout has come for it. */
  lemma AnsweredOnceIff(s: State, e: Event, events: seq<Event>)
    requires Inv(s) && e.Invoke? && DispatchOf(s, e.sid, e.tool, e.open) == Dispatched
    requires FreshIds(s, [e] + events)
    ensures var n := Run(Apply(s, e), events);
      && e.callId in n.promises && |n.promises[e.callId].answers| <= 1
      && (|n.promises[e.callId].answers| == 1 <==> exists i :: 0 <= i < |events| && Answers(events[i], e.callId))
  {
    FirstAnswerWins(s, e, events);
    AnswerComes(events, e.callId);
  }

  /** What the caller of a dispatched call sees: a rejection when `send` threw, else the answer. */
  datatype Seen = Unsettled | Rejected | Settled(answer: Answer)

  function SeenBy(p: Promise): Seen {
    if p.thrown then Rejected else if p.answers == [] then Unsettled else Settled(p.answers[0])
  }

  /** A call is pending iff its caller is still waiting, exactly when its `send` did not throw:
      a call whose `send` threw stays pending, rejected, until its timer fires. */
  lemma PendingIffUnsettled(s: State, e: Event, events: seq<Event>)
    requires Inv(s) && e.Invoke? && DispatchOf(s, e.sid, e.tool, e.open) == Dispatched
    requires FreshIds(s, [e] + events) && FirstAnswer(events, e.callId) == []
    ensures var n := Run(Apply(s, e), events);
      && e.callId in n.pending && e.callId in n.promises
      && (SeenBy(n.promises[e.callId]) == Unsettled <==> !e.throws)
  {
    FirstAnswerWins(s, e, events);
  }
}
