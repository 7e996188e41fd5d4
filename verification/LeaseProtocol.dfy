/** The sandbox lease store as a protocol: its atomic steps between awaits, for any
    interleaving of callers, engine responses, promise handlers and timers. */
module LeaseProtocol {

  /** How far the destroy of a sandbox has got: the engine is at work; it succeeded or failed
      and the handler has yet to run; the handler has run and the finally handler has not. */
  datatype Phase = InEngine | EngineOk | EngineFailed | Settling

  datatype Lease = Lease(timer: nat, expiresAt: int)

  /** What the store does not own: armed timers with the id their callback destroys, the
      sandboxes the engine created and destroyed, and its destroy calls in flight. */
  datatype World = World(timers: map<nat, string>, nextTimer: nat,
                         created: set<string>, destroyed: set<string>, inFlight: multiset<string>)

  datatype Store = Store(maxActive: int, leases: map<string, Lease>, destroys: map<string, Phase>,
                         closing: bool, pendingCreates: nat, world: World)

  datatype Event =
    | CreateBegin
    | CreateResolves(id: string, expiresAt: int)
    | CreateRejects
    | Require(id: string, now: int)
    | Destroy(id: string)
    | EngineSettles(id: string, ok: bool)
    | ThenHandler(id: string)
    | CatchHandler(id: string)
    | FinallyHandler(id: string)
    | TimerFires(timer: nat)
    | CloseAll

  function Empty(maxActive: int): Store {
    Store(maxActive, map[], map[], false, 0, World(map[], 0, {}, {}, multiset{}))
  }

  predicate AdmitsCreate(s: Store) {
    !s.closing && |s.leases| + s.pendingCreates < s.maxActive
  }

  /** `require` hands the lease out. */
  predicate Grants(s: Store, id: string, now: int) {
    id in s.leases && id !in s.destroys && s.leases[id].expiresAt > now
  }

  function ArmTimer(w: World, id: string): World {
    w.(timers := w.timers[w.nextTimer := id], nextTimer := w.nextTimer + 1)
  }

  function ClearTimer(w: World, timer: nat): World { w.(timers := w.timers - {timer}) }

  function BeginDestroy(s: Store, id: string): Store {
    if id in s.destroys || id !in s.leases then s
    else s.(destroys := s.destroys[id := InEngine], world := s.world.(inFlight := s.world.inFlight + multiset{id}))
  }

  function Begun(ids: set<string>): map<string, Phase> { map id | id in ids :: InEngine }

  predicate HandlerPending(s: Store) {
    exists id :: id in s.destroys && s.destroys[id] != InEngine
  }

  /** Engine ids are new; a handler runs when its promise has settled; timers wait until no
      promise handler is pending. */
  predicate Enabled(s: Store, e: Event) {
    match e
    case CreateResolves(id, _) => s.pendingCreates > 0 && id !in s.world.created
    case CreateRejects => s.pendingCreates > 0
    case EngineSettles(id, _) => id in s.destroys && s.destroys[id] == InEngine
    case ThenHandler(id) => id in s.destroys && s.destroys[id] == EngineOk && id in s.leases
    case CatchHandler(id) => id in s.destroys && s.destroys[id] == EngineFailed && id in s.leases
    case FinallyHandler(id) => id in s.destroys && s.destroys[id] == Settling
    case TimerFires(timer) => timer in s.world.timers && !HandlerPending(s)
    case _ => true
  }

  function Apply(s: Store, e: Event): Store
    requires Enabled(s, e)
  {
    match e
    case CreateBegin => if AdmitsCreate(s) then s.(pendingCreates := s.pendingCreates + 1) else s
    case CreateResolves(id, expiresAt) =>
      s.(leases := s.leases[id := Lease(s.world.nextTimer, expiresAt)],
         pendingCreates := s.pendingCreates - 1,
         world := ArmTimer(s.world.(created := s.world.created + {id}), id))
    case CreateRejects => s.(pendingCreates := s.pendingCreates - 1)
    case Require(id, now) =>
      if id in s.leases && id !in s.destroys && !Grants(s, id, now) then BeginDestroy(s, id) else s
    case Destroy(id) => BeginDestroy(s, id)
    case EngineSettles(id, ok) =>
      s.(destroys := s.destroys[id := if ok then EngineOk else EngineFailed],
         world := s.world.(inFlight := s.world.inFlight - multiset{id},
                           destroyed := s.world.destroyed + if ok then {id} else {}))
    case ThenHandler(id) =>
      s.(leases := s.leases - {id}, destroys := s.destroys[id := Settling],
         world := ClearTimer(s.world, s.leases[id].timer))
    case CatchHandler(id) =>
      var settling := s.(destroys := s.destroys[id := Settling]);
      if s.closing then settling
      else settling.(leases := s.leases[id := s.leases[id].(timer := s.world.nextTimer)],
                     world := ArmTimer(ClearTimer(s.world, s.leases[id].timer), id))
    case FinallyHandler(id) => s.(destroys := s.destroys - {id})
    case TimerFires(timer) => BeginDestroy(s.(world := ClearTimer(s.world, timer)), s.world.timers[timer])
    case CloseAll =>
      var ids := s.leases.Keys - s.destroys.Keys;
      s.(closing := true,
         destroys := s.destroys + Begun(ids),
         world := s.world.(inFlight := s.world.inFlight + multiset(ids)))
  }

  /** The events happen one after another, each when it is enabled. */
  predicate Possible(s: Store, events: seq<Event>)
    decreases |events|
  {
    events == [] || (Enabled(s, events[0]) && Possible(Apply(s, events[0]), events[1..]))
  }

  function Run(s: Store, events: seq<Event>): Store
    requires Possible(s, events)
    decreases |events|
  {
    if events == [] then s else Run(Apply(s, events[0]), events[1..])
  }

  // ---- the invariant ----

  /** Capacity is never exceeded, pending creates included. */
  ghost predicate WithinCapacity(s: Store) {
    |s.leases| + s.pendingCreates <= if s.maxActive < 0 then 0 else s.maxActive
  }

  /** The engine is asked to destroy a sandbox at most once at a time. */
  ghost predicate OneDestroyPerId(s: Store) {
    forall id :: s.world.inFlight[id] == if id in s.destroys && s.destroys[id] == InEngine then 1 else 0
  }

  /** The leases are exactly the sandboxes that were created and not yet destroyed, as far as
      the store has been told: a success is registered when its handler runs. */
  ghost predicate NoSandboxLost(s: Store) {
    && (forall id :: id in s.leases <==>
          id in s.world.created && (id !in s.world.destroyed || (id in s.destroys && s.destroys[id] == EngineOk)))
    && s.world.destroyed <= s.world.created
    && (forall id :: id in s.destroys && s.destroys[id] == EngineOk ==> id in s.world.destroyed)
    && (forall id :: id in s.destroys && s.destroys[id] != Settling ==> id in s.leases)
  }

  predicate Armed(s: Store, id: string)
    requires id in s.leases
  {
    s.leases[id].timer in s.world.timers && s.world.timers[s.leases[id].timer] == id
  }

  /** Until the store closes, every lease waits for its timer or is being destroyed. */
  ghost predicate NoLeaseForgotten(s: Store) {
    !s.closing ==> forall id :: id in s.leases ==> Armed(s, id) || (id in s.destroys && s.destroys[id] != Settling)
  }

  /** No timer outlives its lease. */
  ghost predicate NoStrayTimer(s: Store) {
    && (forall t :: t in s.world.timers ==>
          t < s.world.nextTimer && s.world.timers[t] in s.leases && s.leases[s.world.timers[t]].timer == t)
    && (forall id :: id in s.leases ==> s.leases[id].timer < s.world.nextTimer)
    && (forall x, y :: x in s.leases && y in s.leases && x != y ==> s.leases[x].timer != s.leases[y].timer)
  }

  ghost predicate Inv(s: Store) {
    WithinCapacity(s) && OneDestroyPerId(s) && NoSandboxLost(s) && NoLeaseForgotten(s) && NoStrayTimer(s)
  }

  lemma StepKeepsCapacity(s: Store, e: Event)
    requires Inv(s) && Enabled(s, e)
    ensures WithinCapacity(Apply(s, e))
  {
    match e
    case CreateResolves(id, _) => assert |Apply(s, e).leases| <= |s.leases| + 1;
    case ThenHandler(id) => assert (s.leases - {id}).Keys == s.leases.Keys - {id};
    case CatchHandler(id) => assert Apply(s, e).leases.Keys == s.leases.Keys;
    case _ =>
  }

  lemma BeginKeepsOneDestroy(s: Store, id: string)
    requires OneDestroyPerId(s)
    ensures OneDestroyPerId(BeginDestroy(s, id))
  {
  }

  lemma SettleKeepsOneDestroy(s: Store, e: Event)
    requires OneDestroyPerId(s) && Enabled(s, e)
    requires e.EngineSettles? || e.ThenHandler? || e.CatchHandler? || e.FinallyHandler?
    ensures OneDestroyPerId(Apply(s, e))
  {
    var t := Apply(s, e);
    forall id ensures t.world.inFlight[id] == if id in t.destroys && t.destroys[id] == InEngine then 1 else 0 {
      assert s.world.inFlight[id] == if id in s.destroys && s.destroys[id] == InEngine then 1 else 0;
    }
  }

  lemma StepKeepsOneDestroy(s: Store, e: Event)
    requires OneDestroyPerId(s) && Enabled(s, e)
    ensures OneDestroyPerId(Apply(s, e))
  {
    match e
    case Require(id, _) => BeginKeepsOneDestroy(s, id);
    case Destroy(id) => BeginKeepsOneDestroy(s, id);
    case TimerFires(timer) => BeginKeepsOneDestroy(s.(world := ClearTimer(s.world, timer)), s.world.timers[timer]);
    case EngineSettles(_, _) => SettleKeepsOneDestroy(s, e);
    case ThenHandler(_) => SettleKeepsOneDestroy(s, e);
    case CatchHandler(_) => SettleKeepsOneDestroy(s, e);
    case FinallyHandler(_) => SettleKeepsOneDestroy(s, e);
    case CloseAll =>
      var ids := s.leases.Keys - s.destroys.Keys;
      assert forall id :: multiset(ids)[id] == if id in ids then 1 else 0;
    case _ =>
  }

  lemma BeginKeepsSandboxes(s: Store, id: string)
    requires NoSandboxLost(s)
    ensures NoSandboxLost(BeginDestroy(s, id))
  {
  }

  lemma SettleKeepsSandboxes(s: Store, id: string, ok: bool)
    requires NoSandboxLost(s) && Enabled(s, EngineSettles(id, ok))
    ensures NoSandboxLost(Apply(s, EngineSettles(id, ok)))
  {
  }

  lemma HandlersKeepSandboxes(s: Store, e: Event)
    requires NoSandboxLost(s) && Enabled(s, e)
    requires e.ThenHandler? || e.CatchHandler? || e.FinallyHandler?
    ensures NoSandboxLost(Apply(s, e))
  {
  }

  lemma StepKeepsSandboxes(s: Store, e: Event)
    requires NoSandboxLost(s) && Enabled(s, e)
    ensures NoSandboxLost(Apply(s, e))
  {
    match e
    case Require(id, _) => BeginKeepsSandboxes(s, id);
    case Destroy(id) => BeginKeepsSandboxes(s, id);
    case TimerFires(timer) => BeginKeepsSandboxes(s.(world := ClearTimer(s.world, timer)), s.world.timers[timer]);
    case EngineSettles(id, ok) => SettleKeepsSandboxes(s, id, ok);
    case ThenHandler(_) => HandlersKeepSandboxes(s, e);
    case CatchHandler(_) => HandlersKeepSandboxes(s, e);
    case FinallyHandler(_) => HandlersKeepSandboxes(s, e);
    case _ =>
  }

  lemma ResolveKeepsTimers(s: Store, id: string, expiresAt: int)
    requires NoStrayTimer(s) && NoSandboxLost(s) && Enabled(s, CreateResolves(id, expiresAt))
    ensures NoStrayTimer(Apply(s, CreateResolves(id, expiresAt)))
  {
    assert id !in s.leases;
  }

  lemma HandlersKeepTimers(s: Store, e: Event)
    requires NoStrayTimer(s) && Enabled(s, e) && (e.ThenHandler? || e.CatchHandler?)
    ensures NoStrayTimer(Apply(s, e))
  {
  }

  lemma StepKeepsTimers(s: Store, e: Event)
    requires NoStrayTimer(s) && NoSandboxLost(s) && Enabled(s, e)
    ensures NoStrayTimer(Apply(s, e))
  {
    match e
    case CreateResolves(id, expiresAt) => ResolveKeepsTimers(s, id, expiresAt);
    case ThenHandler(_) => HandlersKeepTimers(s, e);
    case CatchHandler(_) => HandlersKeepTimers(s, e);
    case _ =>
  }

  lemma FiringForgetsNoLease(s: Store, timer: nat)
    requires Inv(s) && Enabled(s, TimerFires(timer))
    ensures NoLeaseForgotten(Apply(s, TimerFires(timer)))
  {
    var id := s.world.timers[timer];
    var t := Apply(s, TimerFires(timer));
    assert id in s.destroys ==> s.destroys[id] == InEngine;
    assert t.leases == s.leases && id in t.destroys;
    forall x | !s.closing && x in t.leases ensures Armed(t, x) || (x in t.destroys && t.destroys[x] != Settling) {
      if x != id {
        assert Armed(s, x) || (x in s.destroys && s.destroys[x] != Settling);
        assert s.leases[x].timer != s.leases[id].timer;
      }
    }
  }

  lemma HandlerForgetsNoLease(s: Store, e: Event)
    requires Inv(s) && Enabled(s, e) && (e.ThenHandler? || e.CatchHandler? || e.FinallyHandler?)
    ensures NoLeaseForgotten(Apply(s, e))
  {
  }

  lemma StepForgetsNoLease(s: Store, e: Event)
    requires Inv(s) && Enabled(s, e)
    ensures NoLeaseForgotten(Apply(s, e))
  {
    match e
    case TimerFires(timer) => FiringForgetsNoLease(s, timer);
    case ThenHandler(_) => HandlerForgetsNoLease(s, e);
    case CatchHandler(_) => HandlerForgetsNoLease(s, e);
    case FinallyHandler(_) => HandlerForgetsNoLease(s, e);
    case _ =>
  }

  lemma StepKeepsInv(s: Store, e: Event)
    requires Inv(s) && Enabled(s, e)
    ensures Inv(Apply(s, e))
  {
    StepKeepsCapacity(s, e);
    StepKeepsOneDestroy(s, e);
    StepKeepsSandboxes(s, e);
    StepKeepsTimers(s, e);
    StepForgetsNoLease(s, e);
  }

  /** Lease safety over every interleaving. */
  lemma {:induction false} RunKeepsInv(s: Store, events: seq<Event>)
    requires Inv(s) && Possible(s, events)
    ensures Inv(Run(s, events)) && Run(s, events).maxActive == s.maxActive
    decreases |events|
  {
    if events != [] {
      StepKeepsInv(s, events[0]);
      RunKeepsInv(Apply(s, events[0]), events[1..]);
    }
  }

  // ---- the theorems, for every run of a new store ----

  /** Lease safety: at every step boundary the leases and pending creates fit the capacity, the
      engine has at most one destroy call per id, and every sandbox created and not yet
      destroyed is in the lease map. */
  lemma LeaseSafety(maxActive: nat, events: seq<Event>, id: string)
    requires Possible(Empty(maxActive), events)
    ensures var s := Run(Empty(maxActive), events);
      && |s.leases| + s.pendingCreates <= maxActive
      && s.world.inFlight[id] <= 1
      && (id in s.world.created && id !in s.world.destroyed ==> id in s.leases)
      && (id in s.leases ==> id in s.world.created)
  {
    RunKeepsInv(Empty(maxActive), events);
  }

  /** No forgotten lease: while the store is open every lease has an armed timer that destroys
      it or a destroy under way, and a timer is armed for nothing but a lease. */
  lemma NoForgottenLease(maxActive: nat, events: seq<Event>, id: string)
    requires Possible(Empty(maxActive), events)
    ensures var s := Run(Empty(maxActive), events);
      && (!s.closing && id in s.leases ==> Armed(s, id) || id in s.destroys)
      && (forall t :: t in s.world.timers ==> s.world.timers[t] in s.leases && s.leases[s.world.timers[t]].timer == t)
  {
    RunKeepsInv(Empty(maxActive), events);
  }

  /** `require` hands out only leases that are unexpired, not being destroyed and not yet
      destroyed. */
  lemma GrantedLeaseIsLive(maxActive: nat, events: seq<Event>, id: string, now: int)
    requires Possible(Empty(maxActive), events)
    requires Grants(Run(Empty(maxActive), events), id, now)
    ensures var s := Run(Empty(maxActive), events);
      && id in s.world.created && id !in s.world.destroyed
      && s.world.inFlight[id] == 0 && s.leases[id].expiresAt > now
  {
    RunKeepsInv(Empty(maxActive), events);
  }

  /** A sandbox the engine destroyed is never destroyed again, and never handed out. */
  lemma {:induction false} DestroyedForGood(s: Store, events: seq<Event>, id: string)
    requires Inv(s) && Possible(s, events) && id in s.world.destroyed
    ensures var t := Run(s, events);
      && id in t.world.destroyed && t.world.inFlight[id] == 0
      && forall now :: !Grants(t, id, now)
    decreases |events|
  {
    if events != [] {
      StepKeepsInv(s, events[0]);
      DestroyedForGood(Apply(s, events[0]), events[1..], id);
    }
  }

  /** A lease that nothing will destroy unless somebody asks for it. */
  predicate Forgotten(s: Store, id: string) { id in s.leases && !Armed(s, id) && id !in s.destroys }

  /** In every reachable state a failed destroy, once its handlers have run, leaves the lease in
      the map, and with a timer iff the store was open or its old timer had not fired. */
  lemma FailedDestroyLeaves(maxActive: nat, events: seq<Event>, id: string)
    requires Possible(Empty(maxActive), events)
    requires Enabled(Run(Empty(maxActive), events), CatchHandler(id))
    ensures var s := Run(Empty(maxActive), events); var caught := Apply(s, CatchHandler(id));
      && Enabled(caught, FinallyHandler(id))
      && var t := Apply(caught, FinallyHandler(id));
         && id in t.leases && id !in t.destroys
         && (Armed(t, id) <==> !s.closing || Armed(s, id))
         && (Forgotten(t, id) <==> s.closing && !Armed(s, id))
  {
    RunKeepsInv(Empty(maxActive), events);
  }

  lemma TimerForgetsNone(s: Store, timer: nat, id: string)
    requires NoStrayTimer(s) && Enabled(s, TimerFires(timer)) && !Forgotten(s, id)
    ensures !Forgotten(Apply(s, TimerFires(timer)), id)
  {
  }

  lemma HandlerForgets(s: Store, e: Event, id: string)
    requires NoStrayTimer(s) && Enabled(s, e) && !Forgotten(s, id)
    requires e.ThenHandler? || e.CatchHandler? || e.FinallyHandler?
    ensures Forgotten(Apply(s, e), id) <==> e == FinallyHandler(id) && id in s.leases && !Armed(s, id)
  {
  }

  lemma OthersForgetNone(s: Store, e: Event, id: string)
    requires NoStrayTimer(s) && Enabled(s, e) && !Forgotten(s, id)
    requires !(e.ThenHandler? || e.CatchHandler? || e.FinallyHandler? || e.TimerFires?)
    ensures !Forgotten(Apply(s, e), id)
  {
  }

  /** In every reachable state the only step that forgets a lease is the last handler of its
      destroy, and it does so iff the destroy failed while the store was closing, after the
      lease's timer had fired. */
  lemma ForgetsIff(maxActive: nat, events: seq<Event>, e: Event, id: string)
    requires Possible(Empty(maxActive), events)
    requires Enabled(Run(Empty(maxActive), events), e) && !Forgotten(Run(Empty(maxActive), events), id)
    ensures var s := Run(Empty(maxActive), events);
      Forgotten(Apply(s, e), id) <==> e == FinallyHandler(id) && s.closing && id in s.leases && !Armed(s, id)
  {
    var s := Run(Empty(maxActive), events);
    RunKeepsInv(Empty(maxActive), events);
    match e {
      case TimerFires(timer) => TimerForgetsNone(s, timer, id);
      case ThenHandler(_) => HandlerForgets(s, e, id);
      case CatchHandler(_) => HandlerForgets(s, e, id);
      case FinallyHandler(_) => HandlerForgets(s, e, id);
      case _ => OthersForgetNone(s, e, id);
    }
  }

  /** Such a run exists: the timer fires, the store closes, and the destroy fails. */
  lemma ClosingForgets() returns (events: seq<Event>)
    ensures Possible(Empty(1), events)
    ensures var s := Run(Empty(1), events);
      s.closing && "a" in s.leases && !Armed(s, "a") && s.destroys == map[]
  {
    var open := FiredLease();
    var closing := Apply(open, CloseAll);
    var failed := Apply(closing, EngineSettles("a", false));
    var caught := Apply(failed, CatchHandler("a"));
    assert Apply(caught, FinallyHandler("a")).destroys == map[];
    events := RunCons(caught, FinallyHandler("a"), []);
    events := RunCons(failed, CatchHandler("a"), events);
    events := RunCons(closing, EngineSettles("a", false), events);
    events := RunCons(open, CloseAll, events);
    events := RunToFiredLease(events);
  }

  /** A store with one lease whose timer has fired and whose destroy is under way. */
  function FiredLease(): Store {
    Store(1, map["a" := Lease(0, 10)], map["a" := InEngine], false, 0, World(map[], 1, {"a"}, {}, multiset{"a"}))
  }

  lemma RunToFiredLease(rest: seq<Event>) returns (events: seq<Event>)
    requires Possible(FiredLease(), rest)
    ensures Possible(Empty(1), events) && Run(Empty(1), events) == Run(FiredLease(), rest)
  {
    var pending := Apply(Empty(1), CreateBegin);
    var leased := Apply(pending, CreateResolves("a", 10));
    assert ClearTimer(leased.world, 0).timers == map[];
    assert Apply(leased, TimerFires(0)) == FiredLease();
    events := RunCons(leased, TimerFires(0), rest);
    events := RunCons(pending, CreateResolves("a", 10), events);
    events := RunCons(Empty(1), CreateBegin, events);
  }

  lemma RunCons(s: Store, e: Event, rest: seq<Event>) returns (events: seq<Event>)
    requires Enabled(s, e) && Possible(Apply(s, e), rest)
    ensures Possible(s, events) && Run(s, events) == Run(Apply(s, e), rest)
  {
    events := [e] + rest;
    assert events[1..] == rest;
  }
}
