/** What a caller of the lease store can count on, told by the calls that were made. */
module LeaseLaws {
  import opened LeaseProtocol

  /** How the expiry of a lease moves: it is `at` after iff it was before, or `given` says so; and a
      sandbox that has lost its lease never gets one again. */
  ghost predicate ExpiryMoves(s: Store, t: Store, id: string, at: int, given: bool) {
    && (id in s.world.created ==> id in t.world.created && !given)
    && (id in s.world.created && id !in s.leases ==> id !in t.leases)
    && (given ==> id in t.world.created)
    && (id in t.leases ==> (t.leases[id].expiresAt == at <==> given || HasExpiry(s, id, at)))
  }

  predicate HasExpiry(s: Store, id: string, at: int) { id in s.leases && s.leases[id].expiresAt == at }

  lemma StepMovesExpiry(s: Store, e: Event, id: string, at: int)
    requires NoSandboxLost(s) && Enabled(s, e)
    ensures ExpiryMoves(s, Apply(s, e), id, at, e == CreateResolves(id, at))
  {
  }

  lemma MovesCompose(s: Store, t: Store, u: Store, id: string, at: int, first: bool, later: bool)
    requires ExpiryMoves(s, t, id, at, first) && ExpiryMoves(t, u, id, at, later)
    requires id in s.leases ==> id in s.world.created
    ensures ExpiryMoves(s, u, id, at, first || later)
  {
  }

  lemma {:induction false} RunMovesExpiry(s: Store, events: seq<Event>, id: string, at: int)
    requires Inv(s) && Possible(s, events)
    ensures ExpiryMoves(s, Run(s, events), id, at, CreateResolves(id, at) in events)
    decreases |events|
  {
    if events == [] {
      assert id in s.leases ==> id in s.world.created;
    } else {
      var e, rest := events[0], events[1..];
      StepKeepsInv(s, e);
      StepMovesExpiry(s, e, id, at);
      RunMovesExpiry(Apply(s, e), rest, id, at);
      assert CreateResolves(id, at) in events <==> e == CreateResolves(id, at) || CreateResolves(id, at) in rest;
      assert id in s.leases ==> id in s.world.created;
      MovesCompose(s, Apply(s, e), Run(s, events), id, at, e == CreateResolves(id, at), CreateResolves(id, at) in rest);
    }
  }

  /** The engine has answered the creation of the sandbox with an expiry after `now`. */
  ghost predicate CreatedUntilAfter(events: seq<Event>, id: string, now: int) {
    exists at :: at > now && CreateResolves(id, at) in events
  }

  ghost predicate CreatedUntilBy(events: seq<Event>, id: string, now: int) {
    exists at :: at <= now && CreateResolves(id, at) in events
  }

  lemma CreatedIff(maxActive: nat, events: seq<Event>, id: string)
    requires Possible(Empty(maxActive), events)
    ensures var s := Run(Empty(maxActive), events);
      id in s.leases ==> CreateResolves(id, s.leases[id].expiresAt) in events
    ensures forall at :: CreateResolves(id, at) in events ==>
      id in Run(Empty(maxActive), events).world.created
      && (id in Run(Empty(maxActive), events).leases ==> Run(Empty(maxActive), events).leases[id].expiresAt == at)
  {
    var s := Run(Empty(maxActive), events);
    RunKeepsInv(Empty(maxActive), events);
    if id in s.leases { RunMovesExpiry(Empty(maxActive), events, id, s.leases[id].expiresAt); }
    forall at | CreateResolves(id, at) in events
      ensures id in s.world.created && (id in s.leases ==> s.leases[id].expiresAt == at)
    {
      RunMovesExpiry(Empty(maxActive), events, id, at);
    }
  }

  /** Over every run of a new store, `require` hands a sandbox out iff it was created with an expiry
      that is still to come, is not destroyed, and no destroy of it is under way. */
  lemma HandedOutIff(maxActive: nat, events: seq<Event>, id: string, now: int)
    requires Possible(Empty(maxActive), events)
    ensures var s := Run(Empty(maxActive), events);
      Grants(s, id, now) <==>
        CreatedUntilAfter(events, id, now) && id !in s.world.destroyed && id !in s.destroys
  {
    RunKeepsInv(Empty(maxActive), events);
    CreatedIff(maxActive, events, id);
    GrantsMeans(Run(Empty(maxActive), events), id, now);
  }

  lemma GrantsMeans(s: Store, id: string, now: int)
    ensures Grants(s, id, now) <==> id in s.leases && id !in s.destroys && s.leases[id].expiresAt > now
  {
  }

  /** Requiring such a sandbox changes nothing; requiring one whose expiry has passed leaves a
      destroy of it begun, and the engine asked once. */
  lemma RequireActs(maxActive: nat, events: seq<Event>, id: string, now: int)
    requires Possible(Empty(maxActive), events)
    ensures var s := Run(Empty(maxActive), events); var t := Apply(s, Require(id, now));
      && (CreatedUntilAfter(events, id, now) ==> t == s)
      && (id !in s.world.created || id in s.world.destroyed || id in s.destroys ==> t == s)
      && (CreatedUntilBy(events, id, now) && id !in s.world.destroyed && id !in s.destroys ==>
            t == s.(destroys := s.destroys[id := InEngine], world := s.world.(inFlight := s.world.inFlight[id := 1])))
  {
    var s := Run(Empty(maxActive), events);
    assert id !in s.destroys ==>
      s.world.inFlight[id] == 0 && (id in s.leases <==> id in s.world.created && id !in s.world.destroyed)
    by {
      RunKeepsInv(Empty(maxActive), events);
    }
    CreatedIff(maxActive, events, id);
  }

  /** A create is let through iff the store is open and has room for it; it then holds its place
      until it resolves or rejects. */
  lemma CreateAdmittedIff(s: Store)
    ensures var t := Apply(s, CreateBegin);
      && (t.pendingCreates == s.pendingCreates + 1 <==> !s.closing && |s.leases| + s.pendingCreates < s.maxActive)
      && t == s.(pendingCreates := t.pendingCreates)
      && s.pendingCreates <= t.pendingCreates <= s.pendingCreates + 1
  {
  }

  /** Its answer, either way, gives the place back. */
  lemma CreateGivesPlaceBack(s: Store, e: Event)
    requires Enabled(s, e) && (e.CreateResolves? || e.CreateRejects?)
    ensures Apply(s, e).pendingCreates == s.pendingCreates - 1
    ensures e.CreateRejects? ==> Apply(s, e).leases == s.leases && Apply(s, e).world == s.world
  {
  }

  /** Closing the store leaves a destroy begun for every lease that had none, and no create is let
      through from then on. */
  lemma {:induction false} ClosedForGood(s: Store, events: seq<Event>)
    requires s.closing && Possible(s, events)
    ensures Run(s, events).closing && Apply(Run(s, events), CreateBegin) == Run(s, events)
    decreases |events|
  {
    if events != [] { ClosedForGood(Apply(s, events[0]), events[1..]); }
  }

  lemma ClosingDestroysAll(s: Store, id: string)
    ensures var t := Apply(s, CloseAll);
      && t.closing && t.leases == s.leases
      && (id in s.leases && id !in s.destroys ==>
            id in t.destroys && t.destroys[id] == InEngine && t.world.inFlight[id] == s.world.inFlight[id] + 1)
      && (id !in s.leases || id in s.destroys ==>
            (id in t.destroys <==> id in s.destroys) && t.world.inFlight[id] == s.world.inFlight[id])
  {
  }

  /** A destroy that failed leaves the lease; an open store gives it a new timer in place of the old. */
  lemma FailureRearms(s: Store, id: string)
    requires Enabled(s, CatchHandler(id)) && NoStrayTimer(s)
    ensures var t := Apply(s, CatchHandler(id));
      && t.leases.Keys == s.leases.Keys && t.destroys == s.destroys[id := Settling]
      && (s.closing ==> t.leases == s.leases && t.world == s.world)
      && (!s.closing ==>
            && t.leases[id].timer !in s.world.timers && t.leases[id].expiresAt == s.leases[id].expiresAt
            && t.world.timers == (s.world.timers - {s.leases[id].timer})[t.leases[id].timer := id])
  {
  }

  /** What the rest of the world may do next: answer a create that is pending, with an id that is new or
      not at all; settle a destroy the engine is at; run the handler that is due; and fire an armed
      timer, once no handler is. Callers may do anything. */
  lemma MayHappen(s: Store, id: string, at: int, ok: bool, timer: nat)
    ensures Enabled(s, CreateResolves(id, at)) <==> s.pendingCreates > 0 && id !in s.world.created
    ensures Enabled(s, CreateRejects) <==> s.pendingCreates > 0
    ensures Enabled(s, EngineSettles(id, ok)) <==> (id, InEngine) in s.destroys.Items
    ensures Enabled(s, ThenHandler(id)) <==> (id, EngineOk) in s.destroys.Items && id in s.leases
    ensures Enabled(s, CatchHandler(id)) <==> (id, EngineFailed) in s.destroys.Items && id in s.leases
    ensures Enabled(s, FinallyHandler(id)) <==> (id, Settling) in s.destroys.Items
    ensures Enabled(s, TimerFires(timer)) <==>
      timer in s.world.timers && forall x :: x in s.destroys ==> s.destroys[x] == InEngine
    ensures forall e :: e in {CreateBegin, Require(id, at), Destroy(id), CloseAll} ==> Enabled(s, e)
  {
  }
}
