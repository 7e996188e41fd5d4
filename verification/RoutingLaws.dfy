/** When the router refuses a call and what a call leaves behind, told by the registrations,
    disconnects and answers that came. */
module RoutingLaws {
  import opened ToolRouting

  /** A call is dispatched iff the session is named, its latest registration still stands, declared
      the tool, and was made over a socket that is open; each refusal names the first of these that
      fails. */
  lemma CallGoesThroughIff(events: seq<Event>, sid: string, tool: string, open: set<Socket>)
    ensures var d := DispatchOf(Run(Start(), events), sid, tool, open); var routes := RouteOf(events, sid);
      && (d == NoSessionId <==> sid == "")
      && (d == NotConnected <==> sid != "" && routes == {})
      && (d == NotDeclared <==> sid != "" && exists r :: r in routes && tool !in r.tools)
      && (d == SocketNotReady <==> sid != "" && exists r :: r in routes && tool in r.tools && r.ws !in open)
      && (d == Dispatched <==> sid != "" && exists r :: r in routes && tool in r.tools && r.ws in open)
  {
    var s := Run(Start(), events);
    RoutesAreTheTrace(events, sid);
    if sid in s.sessions { assert s.sessions[sid] in RouteOf(events, sid); }
  }

  /** A refused call leaves nothing behind; one that goes through is pending, with its timer armed
      and no answer yet. */
  lemma CallActs(events: seq<Event>, sid: string, tool: string, open: set<Socket>, callId: string, throws: bool)
    requires FreshIds(Start(), events + [Invoke(sid, tool, open, callId, throws)])
    ensures var s := Run(Start(), events); var t := Apply(s, Invoke(sid, tool, open, callId, throws));
      var served := sid != "" && exists r :: r in RouteOf(events, sid) && tool in r.tools && r.ws in open;
      && (!served ==> t == s)
      && (served ==>
            && callId !in s.promises
            && t == s.(pending := s.pending + {callId}, timers := s.timers + {callId},
                       promises := s.promises[callId := Promise(throws, [])]))
  {
    var call := Invoke(sid, tool, open, callId, throws);
    CallGoesThroughIff(events, sid, tool, open);
    assert (events + [call])[..|events|] == events;
    FreshNext(Start(), events + [call]);
  }

  /** The first answer to a pending call is what its caller gets, the text of a result or the
      timeout; it takes the call off the pending ones and disarms its timer. An answer to any other
      call changes nothing. */
  lemma AnswerActs(s: State, e: Event)
    requires Inv(s) && (e.Deliver? || e.Timeout?)
    ensures var t := Apply(s, e); var c := e.callId;
      && (c !in s.pending ==> t == s)
      && (c in s.pending ==>
            && t.pending == s.pending - {c} && t.timers == s.timers - {c}
            && var answer := if e.Deliver? then Result(e.text) else TimedOut;
            && t.promises == s.promises[c := s.promises[c].(answers := [answer])]
            && (t.sessions, t.wsToSessions) == (s.sessions, s.wsToSessions))
  {
    if e.callId in s.pending {
      var p := s.promises[e.callId];
      assert forall a :: p.answers + [a] == [a];
    }
  }

  /** Over every run after it, the caller of a dispatched call sees a rejection when `send` threw, and
      else the first result or timeout that comes for it, once one does. */
  lemma CallerSees(s: State, e: Event, events: seq<Event>)
    requires Inv(s) && e.Invoke? && DispatchOf(s, e.sid, e.tool, e.open) == Dispatched
    requires FreshIds(s, [e] + events)
    ensures var n := Run(Apply(s, e), events); var answers := FirstAnswer(events, e.callId);
      && e.callId in n.promises
      && var seen := SeenBy(n.promises[e.callId]);
      && (seen == Rejected <==> e.throws)
      && (seen == Unsettled <==> !e.throws && forall i :: 0 <= i < |events| ==> !Answers(events[i], e.callId))
      && (!e.throws && answers != [] ==> seen == Settled(answers[0]))
  {
    FirstAnswerWins(s, e, events);
    AnswerComes(events, e.callId);
    SeenMeans(Run(Apply(s, e), events).promises[e.callId]);
  }

  /** A promise shows its rejection before any answer, and its first answer for good. */
  lemma SeenMeans(p: Promise)
    ensures SeenBy(p) == Rejected <==> p.thrown
    ensures SeenBy(p) == Unsettled <==> !p.thrown && p.answers == []
    ensures !p.thrown && p.answers != [] ==> SeenBy(p) == Settled(p.answers[0])
  {
  }
}
