/** SandboxLeaseStore: each method runs one atomic piece of an async method, from one await to
    the next, and is the protocol's event of the same name. */
module LeaseStore {
  import opened LeaseProtocol

  datatype CreateOutcome = Pending | ShuttingDown | CapacityExhausted

  datatype RequireOutcome = Found(lease: Lease) | NotFound

  class SandboxLeaseStore {
    const maxActiveLeases: int
    var leases: map<string, Lease>
    var destroys: map<string, Phase>
    var closing: bool
    var pendingCreates: nat
    var world: World

    constructor (maxActiveLeases: int)
      ensures Value() == Empty(maxActiveLeases)
    {
      this.maxActiveLeases := maxActiveLeases;
      leases, destroys, closing, pendingCreates := map[], map[], false, 0;
      world := World(map[], 0, {}, {}, multiset{});
    }

    function Value(): Store
      reads this
    {
      Store(maxActiveLeases, leases, destroys, closing, pendingCreates, world)
    }

    /** `setTimeout(() => this.destroy(id), …)`. */
    method SetTimeout(id: string) returns (timer: nat)
      modifies this`world
      ensures timer == old(world).nextTimer && world == ArmTimer(old(world), id)
    {
      timer := world.nextTimer;
      world := ArmTimer(world, id);
    }

    method CreateBegin() returns (outcome: CreateOutcome)
      modifies this
      ensures Value() == Apply(old(Value()), Event.CreateBegin)
      ensures outcome == if old(closing) then ShuttingDown
                         else if |old(leases)| + old(pendingCreates) >= maxActiveLeases then CapacityExhausted
                         else Pending
    {
      if closing { return ShuttingDown; }
      if |leases| + pendingCreates >= maxActiveLeases { return CapacityExhausted; }
      pendingCreates := pendingCreates + 1;
      return Pending;
    }

    method CreateResolves(id: string, expiresAt: int) returns (lease: Lease)
      requires Enabled(Value(), Event.CreateResolves(id, expiresAt))
      modifies this
      ensures Value() == Apply(old(Value()), Event.CreateResolves(id, expiresAt))
      ensures lease == leases[id]
    {
      world := world.(created := world.created + {id});
      var expiresTimer := SetTimeout(id);
      lease := Lease(expiresTimer, expiresAt);
      leases := leases[id := lease];
      pendingCreates := pendingCreates - 1;
    }

    method CreateRejects()
      requires Enabled(Value(), Event.CreateRejects)
      modifies this
      ensures Value() == Apply(old(Value()), Event.CreateRejects)
    {
      pendingCreates := pendingCreates - 1;
    }

    method Require(id: string, now: int) returns (outcome: RequireOutcome)
      modifies this
      ensures Value() == Apply(old(Value()), Event.Require(id, now))
      ensures outcome.Found? <==> id in old(leases) && id !in old(destroys) && old(leases)[id].expiresAt > now
      ensures outcome.Found? ==> outcome.lease == old(leases)[id]
    {
      if id !in leases || id in destroys { return NotFound; }
      if leases[id].expiresAt <= now {
        Destroy(id);
        return NotFound;
      }
      return Found(leases[id]);
    }

    method Destroy(id: string)
      modifies this
      ensures Value() == Apply(old(Value()), Event.Destroy(id))
    {
      if id in destroys { return; }
      if id !in leases { return; }
      world := world.(inFlight := world.inFlight + multiset{id});
      destroys := destroys[id := InEngine];
    }

    /** The engine's promise settles; nothing of the store runs yet. */
    method EngineSettles(id: string, ok: bool)
      requires Enabled(Value(), Event.EngineSettles(id, ok))
      modifies this
      ensures Value() == Apply(old(Value()), Event.EngineSettles(id, ok))
    {
      destroys := destroys[id := if ok then EngineOk else EngineFailed];
      world := world.(inFlight := world.inFlight - multiset{id},
                      destroyed := world.destroyed + if ok then {id} else {});
    }

    method ThenHandler(id: string)
      requires Enabled(Value(), Event.ThenHandler(id))
      modifies this
      ensures Value() == Apply(old(Value()), Event.ThenHandler(id))
    {
      var lease := leases[id];
      leases := leases - {id};
      world := ClearTimer(world, lease.timer);
      destroys := destroys[id := Settling];
    }

    method CatchHandler(id: string)
      requires Enabled(Value(), Event.CatchHandler(id))
      modifies this
      ensures Value() == Apply(old(Value()), Event.CatchHandler(id))
    {
      if !closing {
        world := ClearTimer(world, leases[id].timer);
        var timer := SetTimeout(id);
        leases := leases[id := leases[id].(timer := timer)];
      }
      destroys := destroys[id := Settling];
    }

    method FinallyHandler(id: string)
      requires Enabled(Value(), Event.FinallyHandler(id))
      modifies this
      ensures Value() == Apply(old(Value()), Event.FinallyHandler(id))
    {
      destroys := destroys - {id};
    }

    method TimerFires(timer: nat)
      requires Enabled(Value(), Event.TimerFires(timer))
      modifies this
      ensures Value() == Apply(old(Value()), Event.TimerFires(timer))
    {
      var id := world.timers[timer];
      world := ClearTimer(world, timer);
      Destroy(id);
    }

    /** closeAll begins a destroy for each id the map held when it was called. */
    method CloseAll()
      modifies this
      ensures Value() == Apply(old(Value()), Event.CloseAll)
    {
      ghost var before := Value();
      closing := true;
      ghost var closed := Value();
      var ids := KeysOf(leases);
      for i := 0 to |ids|
        invariant Value() == DestroysBegun(closed, ids[..i])
      {
        assert ids[..i + 1][..i] == ids[..i];
        Destroy(ids[i]);
      }
      assert ids[..|ids|] == ids;
      DestroysBegunAtOnce(before, ids);
    }
  }

  /** `[...leases.keys()]`. */
  method KeysOf(leases: map<string, Lease>) returns (ids: seq<string>)
    ensures forall id :: id in ids <==> id in leases
  {
    ids := [];
    var rest := leases.Keys;
    while rest != {}
      invariant rest <= leases.Keys
      invariant forall id :: id in leases <==> id in ids || id in rest
    {
      var id :| id in rest;
      rest := rest - {id};
      ids := ids + [id];
    }
  }

  /** The store once a destroy has been begun for each of the ids, one after another. */
  function DestroysBegun(s: Store, ids: seq<string>): Store {
    if ids == [] then s else BeginDestroy(DestroysBegun(s, ids[..|ids| - 1]), ids[|ids| - 1])
  }

  /** `t` is `s` with a destroy begun for each of the ids that had none. */
  ghost predicate BegunFor(s: Store, t: Store, ids: set<string>) {
    && t == s.(destroys := t.destroys, world := s.world.(inFlight := t.world.inFlight))
    && (forall id :: id in t.destroys <==> id in s.destroys || id in ids)
    && (forall id :: id in t.destroys ==> t.destroys[id] == if id in s.destroys then s.destroys[id] else InEngine)
    && (forall id :: t.world.inFlight[id] == s.world.inFlight[id] + if id in ids && id !in s.destroys then 1 else 0)
  }

  lemma BegunForUnique(s: Store, t: Store, u: Store, ids: set<string>)
    requires BegunFor(s, t, ids) && BegunFor(s, u, ids)
    ensures t == u
  {
    assert t.destroys == u.destroys;
    assert t.world.inFlight == u.world.inFlight;
  }

  lemma BegunForStep(s: Store, t: Store, ids: set<string>, id: string)
    requires BegunFor(s, t, ids) && id in s.leases
    ensures BegunFor(s, BeginDestroy(t, id), ids + {id})
  {
  }

  lemma {:induction false} DestroysBegunFields(s: Store, ids: seq<string>)
    requires forall id :: id in ids ==> id in s.leases
    ensures BegunFor(s, DestroysBegun(s, ids), set id | id in ids)
  {
    if ids != [] {
      var init, last := ids[..|ids| - 1], ids[|ids| - 1];
      assert ids == init + [last];
      DestroysBegunFields(s, init);
      BegunForStep(s, DestroysBegun(s, init), (set id | id in init), last);
      assert (set id | id in ids) == (set id | id in init) + {last};
    }
  }

  lemma CloseAllFields(s: Store)
    ensures BegunFor(s.(closing := true), Apply(s, Event.CloseAll), s.leases.Keys)
  {
    var ids := s.leases.Keys - s.destroys.Keys;
    assert forall id :: multiset(ids)[id] == if id in ids then 1 else 0;
  }

  lemma DestroysBegunAtOnce(s: Store, ids: seq<string>)
    requires forall id :: id in ids <==> id in s.leases
    ensures DestroysBegun(s.(closing := true), ids) == Apply(s, Event.CloseAll)
  {
    var c := s.(closing := true);
    DestroysBegunFields(c, ids);
    CloseAllFields(s);
    assert (set id | id in ids) == s.leases.Keys;
    BegunForUnique(c, DestroysBegun(c, ids), Apply(s, Event.CloseAll), s.leases.Keys);
  }
}
