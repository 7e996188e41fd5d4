/** The router class, method by method against the model of tool routing. */
module ToolRouter {
  import opened ToolRouting

  class Router {
    var sessions: map<string, Route>
    var wsToSessions: map<Socket, set<string>>
    var pending: set<string>
    /** The runtime's armed timers and the promises handed to callers. */
    var timers: set<string>
    var promises: map<string, Promise>

    constructor ()
      ensures Value() == Start() && Inv(Value())
    {
      sessions, wsToSessions, pending, timers, promises := map[], map[], {}, {}, map[];
    }

    function Value(): State
      reads this
    {
      State(sessions, wsToSessions, pending, timers, promises)
    }

    method Register(sid: string, ws: Socket, declared: seq<string>)
      requires Inv(Value())
      modifies this
      ensures Value() == Apply(old(Value()), Event.Register(sid, ws, set t | t in declared)) && Inv(Value())
    {
      StepKeepsInv(Value(), Event.Register(sid, ws, set t | t in declared));
      sessions := sessions[sid := Route(ws, set t | t in declared)];
      var listed := if ws in wsToSessions then wsToSessions[ws] else {};
      wsToSessions := wsToSessions[ws := listed + {sid}];
    }

    method Disconnect(ws: Socket)
      requires Inv(Value())
      modifies this
      ensures Value() == Apply(old(Value()), Event.Disconnect(ws)) && Inv(Value())
      ensures forall sid :: sid in sessions ==> sessions[sid].ws != ws
    {
      StepKeepsInv(Value(), Event.Disconnect(ws));
      if ws !in wsToSessions {
        assert wsToSessions - {ws} == wsToSessions;
        return;
      }
      var rest := wsToSessions[ws];
      while rest != {}
        invariant wsToSessions == old(wsToSessions) && ws in wsToSessions && rest <= wsToSessions[ws]
        invariant sessions == old(sessions) - (wsToSessions[ws] - rest)
        invariant Value() == old(Value()).(sessions := sessions)
      {
        var sid :| sid in rest;
        sessions := sessions - {sid};
        rest := rest - {sid};
      }
      wsToSessions := wsToSessions - {ws};
    }

    /** `callId` is the fresh id of the call, and `throws` whether `send` throws. */
    method Invoke(sid: string, tool: string, open: set<Socket>, callId: string, throws: bool) returns (r: Dispatch)
      requires Inv(Value()) && callId !in promises
      modifies this
      ensures Value() == Apply(old(Value()), Event.Invoke(sid, tool, open, callId, throws)) && Inv(Value())
      ensures r == DispatchOf(old(Value()), sid, tool, open)
    {
      StepKeepsInv(Value(), Event.Invoke(sid, tool, open, callId, throws));
      if sid == "" { return NoSessionId; }
      if sid !in sessions { return NotConnected; }
      var route := sessions[sid];
      if tool !in route.tools { return NotDeclared; }
      if route.ws !in open { return SocketNotReady; }
      timers := timers + {callId};
      pending := pending + {callId};
      promises := promises[callId := Promise(throws, [])];
      r := Dispatched;
    }

    method Resolve(callId: string, answer: Answer)
      modifies this`promises
      ensures Value() == Answered(old(Value()), callId, answer)
    {
      if callId in promises {
        promises := promises[callId := promises[callId].(answers := promises[callId].answers + [answer])];
      }
    }

    method DeliverResult(callId: string, text: string)
      requires Inv(Value())
      modifies this
      ensures Value() == Apply(old(Value()), Deliver(callId, text)) && Inv(Value())
    {
      StepKeepsInv(Value(), Deliver(callId, text));
      if callId !in pending { return; }
      pending := pending - {callId};
      timers := timers - {callId};
      Resolve(callId, Result(text));
    }

    /** The callback of the call's timer. */
    method OnTimeout(callId: string)
      requires Inv(Value())
      modifies this
      ensures Value() == Apply(old(Value()), Timeout(callId)) && Inv(Value())
    {
      StepKeepsInv(Value(), Timeout(callId));
      if callId !in timers { return; }
      timers := timers - {callId};
      pending := pending - {callId};
      Resolve(callId, TimedOut);
    }
  }
}
