/** Starting, stopping and disposing plugins when any of their callbacks may throw. */
module PluginLifecycle {
  import opened Sequences

  function Reverse<T>(xs: seq<T>): (r: seq<T>)
    ensures |r| == |xs|
    ensures forall i {:trigger r[i]} :: 0 <= i < |xs| ==> r[i] == xs[|xs| - 1 - i]
  {
    if xs == [] then [] else Reverse(xs[1..]) + [xs[0]]
  }

  lemma {:induction false} ReversePermutes<T>(xs: seq<T>)
    ensures multiset(Reverse(xs)) == multiset(xs)
  {
    if xs != [] {
      ReversePermutes(xs[1..]);
      assert xs == [xs[0]] + xs[1..];
    }
  }

  // ---- disposal in reverse order ----

  /** disposePluginRuntimes and disposeApplicationRuntimes: every runtime is disposed, last
      first, and the errors are collected. */
  method DisposeAll(runtimes: seq<nat>, throws: nat -> bool) returns (attempts: seq<nat>, errors: seq<nat>)
    ensures attempts == Reverse(runtimes)
    ensures errors == Filter(attempts, throws)
  {
    attempts, errors := [], [];
    var index := |runtimes| - 1;
    while index >= 0
      invariant -1 <= index < |runtimes|
      invariant attempts == Reverse(runtimes[index + 1..])
      invariant errors == Filter(attempts, throws)
    {
      assert runtimes[index..][1..] == runtimes[index + 1..];
      FilterAppend(attempts, [runtimes[index]], throws);
      attempts := attempts + [runtimes[index]];
      if throws(runtimes[index]) { errors := errors + [runtimes[index]]; }
      index := index - 1;
    }
    assert runtimes[0..] == runtimes;
  }

  // ---- creating the runtimes of the registered factories ----

  /** What a factory does when it is called. */
  datatype Factory = Throws | Creates(runtime: nat, capabilities: seq<string>)

  datatype Creation = Created(runtimes: seq<nat>) | CreationFailed | RollbackFailed

  /** The runtimes made by the factories before the first that throws. */
  function CreatedBefore(factories: seq<Factory>): (r: seq<nat>) {
    if factories == [] || factories[0].Throws? then [] else [factories[0].runtime] + CreatedBefore(factories[1..])
  }

  function Provided(factories: seq<Factory>): (r: seq<string>) {
    if factories == [] || factories[0].Throws? then [] else factories[0].capabilities + Provided(factories[1..])
  }

  predicate HasRepetition(ids: seq<string>) {
    ids != [] && (ids[0] in ids[1..] || HasRepetition(ids[1..]))
  }

  /** Creation fails when a factory throws or a capability is provided twice. */
  predicate CreationFails(factories: seq<Factory>) {
    Throws in factories || HasRepetition(Provided(factories))
  }

  /** BackendRuntimeFactoryRegistry.create; `disposals` records the dispose calls it makes. */
  method CreateRuntimes(factories: seq<Factory>, throws: nat -> bool) returns (r: Creation, disposals: seq<nat>)
    ensures r.Created? <==> !CreationFails(factories)
    ensures r.Created? ==> disposals == [] && r.runtimes == CreatedBefore(factories) && |r.runtimes| == |factories|
    ensures !r.Created? ==> disposals == Reverse(CreatedBefore(factories))
    ensures !r.Created? ==> (r.RollbackFailed? <==> exists x :: x in CreatedBefore(factories) && throws(x))
  {
    var runtimes: seq<nat> := [];
    var capabilities: seq<string> := [];
    var failed := false;
    var i := 0;
    while i < |factories| && !failed
      invariant 0 <= i <= |factories|
      invariant failed ==> i < |factories| && factories[i] == Throws && runtimes == CreatedBefore(factories)
      invariant forall k :: 0 <= k < i ==> factories[k] != Throws
      invariant !failed ==> runtimes + CreatedBefore(factories[i..]) == CreatedBefore(factories)
      invariant !failed ==> capabilities + Provided(factories[i..]) == Provided(factories)
      invariant |runtimes| == i
      decreases |factories| - i, !failed
    {
      assert factories[i..][1..] == factories[i + 1..];
      match factories[i]
      case Throws => failed := true;
      case Creates(runtime, provided) =>
        runtimes := runtimes + [runtime];
        capabilities := capabilities + provided;
        i := i + 1;
    }
    assert !failed ==> factories[i..] == [];
    assert !failed ==> capabilities == Provided(factories) && runtimes == CreatedBefore(factories);
    if failed || HasRepetition(capabilities) {
      var errors;
      disposals, errors := DisposeAll(runtimes, throws);
      ErrorsExist(runtimes, throws);
      r := if errors == [] then CreationFailed else RollbackFailed;
    } else {
      r, disposals := Created(runtimes), [];
    }
  }

  lemma ErrorsExist(runtimes: seq<nat>, throws: nat -> bool)
    ensures Filter(Reverse(runtimes), throws) != [] <==> exists x :: x in runtimes && throws(x)
  {
    var errors := Filter(Reverse(runtimes), throws);
    forall x ensures x in errors <==> x in runtimes && throws(x) {
      FilterMember(Reverse(runtimes), throws, x);
      ReversePermutes(runtimes);
      assert x in Reverse(runtimes) <==> x in multiset(Reverse(runtimes));
    }
    if errors != [] { assert errors[0] in errors; }
  }

  /** The handle of a plugin runtime: however often it is disposed, each of its runtimes is
      disposed once. */
  class RuntimeHandle {
    const runtimes: seq<nat>
    var disposed: bool
    var disposals: seq<nat>

    constructor (runtimes: seq<nat>)
      ensures this.runtimes == runtimes && !disposed && Valid()
    {
      this.runtimes, disposed, disposals := runtimes, false, [];
    }

    predicate Valid() reads this { disposals == if disposed then Reverse(runtimes) else [] }

    method Dispose(throws: nat -> bool) returns (threw: bool)
      requires Valid()
      modifies this
      ensures Valid() && disposed
      ensures disposals == if old(disposed) then old(disposals) else Reverse(runtimes)
      ensures threw <==> !old(disposed) && exists x :: x in runtimes && throws(x)
    {
      if disposed { return false; }
      disposed := true;
      var errors;
      disposals, errors := DisposeAll(runtimes, throws);
      ErrorsExist(runtimes, throws);
      threw := errors != [];
    }
  }

  // ---- the application runtime ----

  datatype AppCall = StartRuntime(runtime: nat) | DisposeRuntime(runtime: nat)

  function Attempted<T>(xs: seq<T>, throws: T -> bool): (r: seq<T>)
    ensures r <= xs
  {
    if xs == [] then [] else [xs[0]] + if throws(xs[0]) then [] else Attempted(xs[1..], throws)
  }

  predicate AnyThrows<T>(xs: seq<T>, throws: T -> bool) {
    xs != [] && (throws(xs[0]) || AnyThrows(xs[1..], throws))
  }

  /** The attempts stop at the first that throws, and only there. */
  lemma {:induction false} AttemptedStopsAtFirst<T>(xs: seq<T>, throws: T -> bool)
    ensures var a := Attempted(xs, throws);
      && (forall i :: 0 <= i < |a| - 1 ==> !throws(a[i]))
      && (AnyThrows(xs, throws) ==> a != [] && throws(a[|a| - 1]))
      && (!AnyThrows(xs, throws) ==> a == xs && forall x :: x in xs ==> !throws(x))
  {
    if xs != [] {
      AttemptedStopsAtFirst(xs[1..], throws);
      assert xs == [xs[0]] + xs[1..];
    }
  }

  function DisposeCalls(runtimes: seq<nat>): (r: seq<AppCall>)
    ensures |r| == |runtimes|
  {
    if runtimes == [] then [] else DisposeCalls(runtimes[1..]) + [DisposeRuntime(runtimes[0])]
  }

  function StartCalls(runtimes: seq<nat>): (r: seq<AppCall>) {
    if runtimes == [] then [] else [StartRuntime(runtimes[0])] + StartCalls(runtimes[1..])
  }

  /** The value of an application runtime handle, and the calls it has made so far. */
  datatype App = App(runtimes: seq<nat>, started: bool, disposed: bool, calls: seq<AppCall>)

  datatype AppEvent =
    | AppStart(startThrows: nat -> bool, disposeThrows: nat -> bool)
    | AppDispose(disposeThrows: nat -> bool)

  /** The handle's start and dispose; the second component tells whether it threw. */
  function AppStep(a: App, e: AppEvent): (App, bool) {
    match e
    case AppStart(startThrows, disposeThrows) =>
      if a.started then (a, false)
      else
        var begun := a.(started := true, calls := a.calls + StartCalls(Attempted(a.runtimes, startThrows)));
        if !AnyThrows(a.runtimes, startThrows) then (begun, false)
        else
          (begun.(calls := begun.calls + DisposeCalls(a.runtimes),
                  disposed := a.disposed || !AnyThrows(a.runtimes, disposeThrows)), true)
    case AppDispose(disposeThrows) =>
      if a.disposed then (a, false)
      else (a.(disposed := true, calls := a.calls + DisposeCalls(a.runtimes)), AnyThrows(a.runtimes, disposeThrows))
  }

  /** How often the calls dispose the runtime. */
  function Disposals(calls: seq<AppCall>, x: nat): nat { multiset(calls)[DisposeRuntime(x)] }

  lemma CallCounts(runtimes: seq<nat>, x: nat)
    requires Distinct(runtimes) && x in runtimes
    ensures Disposals(DisposeCalls(runtimes), x) == 1
    ensures forall started :: Disposals(StartCalls(started), x) == 0
  {
    DisposeCallsCount(runtimes, x);
    DistinctCounts(runtimes);
    forall started ensures Disposals(StartCalls(started), x) == 0 { StartCallsCount(started, x); }
  }

  lemma {:induction false} DisposeCallsCount(runtimes: seq<nat>, x: nat)
    ensures Disposals(DisposeCalls(runtimes), x) == multiset(runtimes)[x]
  {
    if runtimes != [] {
      DisposeCallsCount(runtimes[1..], x);
      assert runtimes == [runtimes[0]] + runtimes[1..];
    }
  }

  lemma {:induction false} StartCallsCount(runtimes: seq<nat>, x: nat)
    ensures Disposals(StartCalls(runtimes), x) == 0
  {
    if runtimes != [] { StartCallsCount(runtimes[1..], x); }
  }

  function AppRun(a: App, events: seq<AppEvent>): App {
    if events == [] then a else AppStep(AppRun(a, events[..|events| - 1]), events[|events| - 1]).0
  }

  /** The first start among the events, if any: the only one that does something. */
  function FirstStart(events: seq<AppEvent>): (r: seq<AppEvent>)
    ensures |r| <= 1 && (r != [] ==> r[0].AppStart?)
  {
    if events == [] then []
    else
      var earlier, e := FirstStart(events[..|events| - 1]), events[|events| - 1];
      if earlier == [] && e.AppStart? then [e] else earlier
  }

  /** The first start failed, and so rolled all runtimes back. */
  predicate RolledBack(runtimes: seq<nat>, events: seq<AppEvent>) {
    var first := FirstStart(events);
    first != [] && AnyThrows(runtimes, first[0].startThrows)
  }

  /** It did, and no rollback disposal threw. */
  predicate RolledBackCleanly(runtimes: seq<nat>, events: seq<AppEvent>) {
    RolledBack(runtimes, events) && !AnyThrows(runtimes, FirstStart(events)[0].disposeThrows)
  }

  /** Some dispose came that no clean rollback had preceded. */
  predicate DisposedByCaller(runtimes: seq<nat>, events: seq<AppEvent>) {
    exists i :: 0 <= i < |events| && events[i].AppDispose? && !RolledBackCleanly(runtimes, events[..i])
  }

  lemma DisposedByCallerStep(runtimes: seq<nat>, events: seq<AppEvent>)
    requires events != []
    ensures var init, e := events[..|events| - 1], events[|events| - 1];
      DisposedByCaller(runtimes, events) <==>
        DisposedByCaller(runtimes, init) || (e.AppDispose? && !RolledBackCleanly(runtimes, init))
  {
    var init := events[..|events| - 1];
    assert forall i :: 0 <= i < |init| ==> init[i] == events[i] && init[..i] == events[..i];
  }

  /** Over every sequence of starts and disposes of a handle, each runtime is disposed once for a
      failed start and once for the caller's disposes; so never more than twice, and twice iff
      the first start failed and a dispose came before it or after a rollback that threw. */
  lemma {:induction false} AppDisposals(runtimes: seq<nat>, events: seq<AppEvent>, x: nat)
    requires Distinct(runtimes) && x in runtimes
    ensures var a := AppRun(App(runtimes, false, false, []), events);
      && a.runtimes == runtimes
      && (a.started <==> FirstStart(events) != [])
      && (a.disposed <==> RolledBackCleanly(runtimes, events) || DisposedByCaller(runtimes, events))
      && Disposals(a.calls, x) ==
           (if RolledBack(runtimes, events) then 1 else 0) + (if DisposedByCaller(runtimes, events) then 1 else 0)
  {
    if events != [] {
      var init, e := events[..|events| - 1], events[|events| - 1];
      AppDisposals(runtimes, init, x);
      DisposedByCallerStep(runtimes, events);
      CallCounts(runtimes, x);
    }
  }

  /** The manager's use: one start, then one dispose. */
  lemma AppDisposedOnceIff(runtimes: seq<nat>, start: AppEvent, dispose: AppEvent, x: nat)
    requires start.AppStart? && dispose.AppDispose? && Distinct(runtimes) && x in runtimes
    ensures var a := AppRun(App(runtimes, false, false, []), [start, dispose]);
      && a.disposed
      && Disposals(a.calls, x) ==
           if AnyThrows(runtimes, start.startThrows) && AnyThrows(runtimes, start.disposeThrows) then 2 else 1
  {
    var events := [start, dispose];
    AppDisposals(runtimes, events, x);
    assert events[..1] == [start] && [start][..0] == [];
    assert FirstStart([start]) == [start] && FirstStart(events) == [start];
    assert events[1] == dispose;
    assert !events[0].AppDispose?;
  }

  lemma {:induction false} AttemptedUpTo<T>(xs: seq<T>, n: nat, throws: T -> bool)
    requires n <= |xs| && forall k :: 0 <= k < n ==> !throws(xs[k])
    requires n < |xs| ==> throws(xs[n])
    ensures Attempted(xs, throws) == if n < |xs| then xs[..n + 1] else xs
    ensures AnyThrows(xs, throws) <==> n < |xs|
  {
    if n > 0 {
      AttemptedUpTo(xs[1..], n - 1, throws);
      assert xs == [xs[0]] + xs[1..];
    }
  }

  lemma {:induction false} StartCallsAppend(xs: seq<nat>, x: nat)
    ensures StartCalls(xs + [x]) == StartCalls(xs) + [StartRuntime(x)]
  {
    if xs == [] {
      assert xs + [x] == [x];
    } else {
      assert (xs + [x])[1..] == xs[1..] + [x];
      StartCallsAppend(xs[1..], x);
    }
  }

  class AppHandle {
    const runtimes: seq<nat>
    var started: bool
    var disposed: bool
    var calls: seq<AppCall>

    constructor (runtimes: seq<nat>)
      ensures Value() == App(runtimes, false, false, [])
    {
      this.runtimes, started, disposed, calls := runtimes, false, false, [];
    }

    function Value(): App reads this { App(runtimes, started, disposed, calls) }

    method Start(startThrows: nat -> bool, disposeThrows: nat -> bool) returns (threw: bool)
      modifies this
      ensures (Value(), threw) == AppStep(old(Value()), AppStart(startThrows, disposeThrows))
    {
      if started { return false; }
      started := true;
      threw := StartEach(startThrows);
      if threw {
        var failed := DisposeEach(disposeThrows);
        if !failed { disposed := true; }
      }
    }

    method Dispose(disposeThrows: nat -> bool) returns (threw: bool)
      modifies this
      ensures (Value(), threw) == AppStep(old(Value()), AppDispose(disposeThrows))
    {
      if disposed { return false; }
      disposed := true;
      threw := DisposeEach(disposeThrows);
    }

    method StartEach(throws: nat -> bool) returns (threw: bool)
      modifies this`calls
      ensures calls == old(calls) + StartCalls(Attempted(runtimes, throws))
      ensures threw <==> AnyThrows(runtimes, throws)
    {
      for i := 0 to |runtimes|
        invariant calls == old(calls) + StartCalls(runtimes[..i])
        invariant forall k :: 0 <= k < i ==> !throws(runtimes[k])
      {
        assert runtimes[..i + 1] == runtimes[..i] + [runtimes[i]];
        StartCallsAppend(runtimes[..i], runtimes[i]);
        calls := calls + [StartRuntime(runtimes[i])];
        if throws(runtimes[i]) {
          AttemptedUpTo(runtimes, i, throws);
          return true;
        }
      }
      AttemptedUpTo(runtimes, |runtimes|, throws);
      assert runtimes[..|runtimes|] == runtimes;
      return false;
    }

    method DisposeEach(throws: nat -> bool) returns (threw: bool)
      modifies this`calls
      ensures calls == old(calls) + DisposeCalls(runtimes)
      ensures threw <==> AnyThrows(runtimes, throws)
    {
      var index := |runtimes| - 1;
      threw := false;
      while index >= 0
        invariant -1 <= index < |runtimes|
        invariant calls == old(calls) + DisposeCalls(runtimes[index + 1..])
        invariant threw == AnyThrows(runtimes[index + 1..], throws)
      {
        assert runtimes[index..][1..] == runtimes[index + 1..];
        calls := calls + [DisposeRuntime(runtimes[index])];
        if throws(runtimes[index]) { threw := true; }
        index := index - 1;
      }
      assert runtimes[0..] == runtimes;
    }
  }

  // ---- the manager ----

  datatype Call = Start(id: string) | Stop(id: string)

  /** The started plugins and the calls made on plugins so far. */
  datatype Lifecycle = Lifecycle(started: seq<string>, calls: seq<Call>)

  datatype LifecycleEvent = StartAll(appFails: bool, startThrows: string -> bool) | StopAll

  function Starts(ids: seq<string>): (r: seq<Call>)
  {
    if ids == [] then [] else [Start(ids[0])] + Starts(ids[1..])
  }

  function Stops(ids: seq<string>): (r: seq<Call>)
  {
    if ids == [] then [] else [Stop(ids[0])] + Stops(ids[1..])
  }

  function StopStep(s: Lifecycle): Lifecycle {
    Lifecycle([], s.calls + Stops(Reverse(s.started)))
  }

  function LifecycleStep(order: seq<string>, s: Lifecycle, e: LifecycleEvent): Lifecycle {
    match e
    case StopAll => StopStep(s)
    case StartAll(appFails, startThrows) =>
      if s.started != [] then s
      else if appFails then StopStep(s)
      else
        var attempted := Attempted(order, startThrows);
        var begun := Lifecycle(attempted, s.calls + Starts(attempted));
        if AnyThrows(order, startThrows) then StopStep(begun) else begun
  }

  function LifecycleRun(order: seq<string>, s: Lifecycle, events: seq<LifecycleEvent>): Lifecycle
    decreases |events|
  {
    if events == [] then s else LifecycleRun(order, LifecycleStep(order, s, events[0]), events[1..])
  }

  datatype Brackets = Open(stack: seq<string>) | Mismatch

  /** Reads the calls as brackets: a start opens, a stop must close what was opened last. */
  function Match(calls: seq<Call>, b: Brackets): Brackets {
    if calls == [] || b.Mismatch? then b
    else match calls[0]
      case Start(id) => Match(calls[1..], Open(b.stack + [id]))
      case Stop(id) =>
        if b.stack != [] && b.stack[|b.stack| - 1] == id then Match(calls[1..], Open(b.stack[..|b.stack| - 1]))
        else Mismatch
  }

  lemma {:induction false} MatchAppend(xs: seq<Call>, ys: seq<Call>, b: Brackets)
    ensures Match(xs + ys, b) == Match(ys, Match(xs, b))
  {
    if xs == [] {
      assert xs + ys == ys;
    } else if b.Open? {
      assert (xs + ys)[1..] == xs[1..] + ys;
      match xs[0]
      case Start(id) => MatchAppend(xs[1..], ys, Open(b.stack + [id]));
      case Stop(id) =>
        if b.stack != [] { MatchAppend(xs[1..], ys, Open(b.stack[..|b.stack| - 1])); }
    }
  }

  lemma {:induction false} StartsOpen(ids: seq<string>, stack: seq<string>)
    ensures Match(Starts(ids), Open(stack)) == Open(stack + ids)
  {
    if ids == [] {
      assert stack + ids == stack;
    } else {
      assert Starts(ids)[1..] == Starts(ids[1..]);
      StartsOpen(ids[1..], stack + [ids[0]]);
      Shift(stack, ids);
    }
  }

  lemma Shift(stack: seq<string>, ids: seq<string>)
    requires ids != []
    ensures (stack + [ids[0]]) + ids[1..] == stack + ids
  {
  }

  lemma {:induction false} StopsClose(ids: seq<string>)
    ensures Match(Stops(Reverse(ids)), Open(ids)) == Open([])
  {
    if ids != [] {
      var init, last := ids[..|ids| - 1], ids[|ids| - 1];
      assert Reverse(ids) == [last] + Reverse(init);
      assert Stops(Reverse(ids)) == [Stop(last)] + Stops(Reverse(init));
      assert Stops(Reverse(ids))[1..] == Stops(Reverse(init));
      StopsClose(init);
    }
  }

  lemma StepBalances(order: seq<string>, s: Lifecycle, e: LifecycleEvent)
    requires Match(s.calls, Open([])) == Open(s.started)
    ensures var t := LifecycleStep(order, s, e); Match(t.calls, Open([])) == Open(t.started)
  {
    StopBalances(s);
    if e.StartAll? && s.started == [] && !e.appFails {
      var attempted := Attempted(order, e.startThrows);
      MatchAppend(s.calls, Starts(attempted), Open([]));
      StartsOpen(attempted, []);
      assert [] + attempted == attempted;
      StopBalances(Lifecycle(attempted, s.calls + Starts(attempted)));
    }
  }

  lemma StopBalances(s: Lifecycle)
    requires Match(s.calls, Open([])) == Open(s.started)
    ensures Match(StopStep(s).calls, Open([])) == Open([])
  {
    MatchAppend(s.calls, Stops(Reverse(s.started)), Open([]));
    StopsClose(s.started);
  }

  /** Teardown under any failure pattern: over every sequence of starts and stops, whichever of
      them throw, every stop closes the most recent start that is still open, and the starts
      still open are exactly the plugins the manager believes started. */
  lemma {:induction false} LifecycleBalances(order: seq<string>, s: Lifecycle, events: seq<LifecycleEvent>)
    requires Match(s.calls, Open([])) == Open(s.started)
    ensures var t := LifecycleRun(order, s, events); Match(t.calls, Open([])) == Open(t.started)
    decreases |events|
  {
    if events != [] {
      StepBalances(order, s, events[0]);
      LifecycleBalances(order, LifecycleStep(order, s, events[0]), events[1..]);
    }
  }

  /** A failed start leaves nothing started, having stopped in reverse order exactly the
      plugins whose start was attempted, including the one that threw. */
  lemma FailedStartRollsBack(order: seq<string>, s: Lifecycle, startThrows: string -> bool)
    requires s.started == [] && AnyThrows(order, startThrows)
    ensures var t := LifecycleStep(order, s, StartAll(false, startThrows));
      var attempted := Attempted(order, startThrows);
      && t.started == []
      && t.calls == s.calls + Starts(attempted) + Stops(Reverse(attempted))
      && attempted != [] && startThrows(attempted[|attempted| - 1])
      && forall i :: 0 <= i < |attempted| - 1 ==> !startThrows(attempted[i])
  {
    AttemptedStopsAtFirst(order, startThrows);
  }

  lemma {:induction false} StartsAppend(xs: seq<string>, x: string)
    ensures Starts(xs + [x]) == Starts(xs) + [Start(x)]
  {
    if xs == [] {
      assert xs + [x] == [x];
    } else {
      assert (xs + [x])[1..] == xs[1..] + [x];
      StartsAppend(xs[1..], x);
    }
  }

  datatype Contribution = Contribution(pluginId: string, entry: nat)

  function NotOf(pluginId: string): Contribution -> bool { (c: Contribution) => c.pluginId != pluginId }

  function NotOfAny(ids: seq<string>): Contribution -> bool { (c: Contribution) => c.pluginId !in ids }

  class ContributionRegistry {
    var contributions: seq<Contribution>

    constructor ()
      ensures contributions == []
    {
      contributions := [];
    }

    method Register(pluginId: string, entry: nat)
      modifies this
      ensures contributions == old(contributions) + [Contribution(pluginId, entry)]
    {
      contributions := contributions + [Contribution(pluginId, entry)];
    }

    /** Positions up to `n` are as in `before`; the rest has been filtered. */
    ghost predicate FilteredFrom(before: seq<Contribution>, n: int, pluginId: string)
      reads this
    {
      && 0 <= n <= |contributions| && n <= |before|
      && contributions[..n] == before[..n]
      && contributions[n..] == Filter(before[n..], NotOf(pluginId))
    }

    /** The reverse splice loop of removePlugin. */
    method RemovePlugin(pluginId: string)
      modifies this
      ensures contributions == Filter(old(contributions), NotOf(pluginId))
    {
      ghost var before := contributions;
      var index := |contributions|;
      while index > 0
        invariant FilteredFrom(before, index, pluginId)
      {
        index := index - 1;
        RemoveAt(index, pluginId, before);
      }
      assert before[0..] == before && contributions[0..] == contributions;
    }

    method RemoveAt(index: nat, pluginId: string, ghost before: seq<Contribution>)
      requires FilteredFrom(before, index + 1, pluginId)
      modifies this
      ensures FilteredFrom(before, index, pluginId)
    {
      assert contributions[index] == contributions[..index + 1][index] == before[..index + 1][index];
      assert before[index..][1..] == before[index + 1..];
      assert before[..index] == before[..index + 1][..index] == contributions[..index];
      ghost var tail := contributions[index + 1..];
      if contributions[index].pluginId == pluginId {
        contributions := Remove(contributions, index);
        assert contributions[index..] == tail;
      } else {
        assert contributions[index..] == [contributions[index]] + tail;
      }
    }
  }

  lemma {:induction false} NotOfAnyStep(xs: seq<Contribution>, ids: seq<string>, id: string)
    ensures Filter(Filter(xs, NotOfAny(ids)), NotOf(id)) == Filter(xs, NotOfAny(ids + [id]))
  {
    if xs != [] {
      NotOfAnyStep(xs[1..], ids, id);
      FilterAppend(if NotOfAny(ids)(xs[0]) then [xs[0]] else [], Filter(xs[1..], NotOfAny(ids)), NotOf(id));
    }
  }

  /** What a registry holds after a stop belongs to no stopped plugin, and nothing else left. */
  lemma StoppedLeaveNothing(xs: seq<Contribution>, started: seq<string>, c: Contribution)
    ensures c in Filter(xs, NotOfAny(Reverse(started))) <==> c in xs && c.pluginId !in started
  {
    FilterMember(xs, NotOfAny(Reverse(started)), c);
    ReversePermutes(started);
    assert c.pluginId in started <==> c.pluginId in multiset(started);
    assert c.pluginId in Reverse(started) <==> c.pluginId in multiset(Reverse(started));
  }

  datatype StartOutcome = Started | AlreadyStarted | NotRegistered | StartFailed | StopFailed

  /** What the plugins' own callbacks do when called. */
  datatype Environment = Environment(
    startThrows: string -> bool, stopThrows: string -> bool,
    appStartThrows: nat -> bool, appRollbackThrows: nat -> bool, appDisposeThrows: nat -> bool)

  class PluginManager {
    const order: seq<string>
    /** The eight registries that stop clears, in the order it clears them. */
    const registries: seq<ContributionRegistry>
    var registered: bool
    var startedPlugins: seq<string>
    var applicationRuntime: AppHandle?
    var calls: seq<Call>

    constructor (order: seq<string>, registries: seq<ContributionRegistry>)
      requires |registries| == 8 && Distinct(registries)
      ensures Valid() && !registered && Value() == Lifecycle([], []) && applicationRuntime == null
      ensures this.order == order && this.registries == registries
    {
      this.order, this.registries := order, registries;
      registered, startedPlugins, calls, applicationRuntime := false, [], [], null;
    }

    ghost predicate Valid() reads this { |registries| == 8 && Distinct(registries) }

    function Value(): Lifecycle reads this { Lifecycle(startedPlugins, calls) }

    /** The application runtime's value; without one it behaves like one with no runtimes. */
    function AppValue(): App
      reads this, applicationRuntime
    {
      if applicationRuntime == null then App([], false, false, []) else applicationRuntime.Value()
    }

    function AppStartFails(env: Environment): bool
      reads this, applicationRuntime
    {
      AppStep(AppValue(), AppStart(env.appStartThrows, env.appRollbackThrows)).1
    }

    method RemoveEverywhere(id: string)
      requires Valid()
      modifies registries
      ensures forall k :: 0 <= k < 8 ==>
        registries[k].contributions == Filter(old(registries[k].contributions), NotOf(id))
    {
      for i := 0 to 8
        invariant forall k :: 0 <= k < i ==>
          registries[k].contributions == Filter(old(registries[k].contributions), NotOf(id))
        invariant forall k :: i <= k < 8 ==> registries[k].contributions == old(registries[k].contributions)
      {
        registries[i].RemovePlugin(id);
      }
    }

    /** The loop of stop: each plugin is stopped and, whether or not that throws, loses its
        contributions in all eight registries. */
    method StopEach(plugins: seq<string>, stopThrows: string -> bool) returns (errors: nat)
      requires Valid()
      modifies this`calls, registries
      ensures calls == old(calls) + Stops(plugins)
      ensures errors == |Filter(plugins, stopThrows)|
      ensures forall k :: 0 <= k < 8 ==>
        registries[k].contributions == Filter(old(registries[k].contributions), NotOfAny(plugins))
    {
      errors := 0;
      assert plugins[0..] == plugins;
      forall k | 0 <= k < 8 ensures Filter(registries[k].contributions, NotOfAny([])) == registries[k].contributions {
        FilterAll(registries[k].contributions, NotOfAny([]));
      }
      for i := 0 to |plugins|
        invariant calls + Stops(plugins[i..]) == old(calls) + Stops(plugins)
        invariant errors + |Filter(plugins[i..], stopThrows)| == |Filter(plugins, stopThrows)|
        invariant forall k :: 0 <= k < 8 ==>
          registries[k].contributions == Filter(old(registries[k].contributions), NotOfAny(plugins[..i]))
      {
        assert plugins[i..][1..] == plugins[i + 1..];
        assert plugins[..i + 1] == plugins[..i] + [plugins[i]];
        calls := calls + [Stop(plugins[i])];
        if stopThrows(plugins[i]) { errors := errors + 1; }
        RemoveEverywhere(plugins[i]);
        forall k | 0 <= k < 8
          ensures registries[k].contributions == Filter(old(registries[k].contributions), NotOfAny(plugins[..i + 1]))
        {
          NotOfAnyStep(old(registries[k].contributions), plugins[..i], plugins[i]);
        }
      }
      assert plugins[..|plugins|] == plugins;
    }

    method StopPlugins(env: Environment) returns (threw: bool)
      requires Valid()
      modifies this, registries, applicationRuntime
      ensures Valid() && registered == old(registered) && applicationRuntime == null
      ensures Value() == StopStep(old(Value()))
      ensures forall k :: 0 <= k < 8 ==>
        registries[k].contributions == Filter(old(registries[k].contributions), NotOfAny(Reverse(old(startedPlugins))))
      ensures old(applicationRuntime) != null ==>
        old(applicationRuntime).Value() == AppStep(old(AppValue()), AppDispose(env.appDisposeThrows)).0
      ensures threw <==>
        (Filter(Reverse(old(startedPlugins)), env.stopThrows) != []
          || AppStep(old(AppValue()), AppDispose(env.appDisposeThrows)).1)
    {
      var plugins := Reverse(startedPlugins);
      startedPlugins := [];
      var errors := StopEach(plugins, env.stopThrows);
      threw := errors > 0;
      if applicationRuntime != null {
        var failed := applicationRuntime.Dispose(env.appDisposeThrows);
        threw := threw || failed;
      }
      applicationRuntime := null;
    }

    /** The loop of start, up to the first plugin that throws. */
    method StartEach(startThrows: string -> bool) returns (threw: bool)
      requires startedPlugins == []
      modifies this`startedPlugins, this`calls
      ensures startedPlugins == Attempted(order, startThrows)
      ensures calls == old(calls) + Starts(Attempted(order, startThrows))
      ensures threw <==> AnyThrows(order, startThrows)
    {
      for i := 0 to |order|
        invariant startedPlugins == order[..i]
        invariant calls == old(calls) + Starts(order[..i])
        invariant forall k :: 0 <= k < i ==> !startThrows(order[k])
      {
        assert order[..i + 1] == order[..i] + [order[i]];
        StartsAppend(order[..i], order[i]);
        startedPlugins := startedPlugins + [order[i]];
        calls := calls + [Start(order[i])];
        if startThrows(order[i]) {
          AttemptedUpTo(order, i, startThrows);
          return true;
        }
      }
      AttemptedUpTo(order, |order|, startThrows);
      assert order[..|order|] == order;
      return false;
    }

    /** The plugins whose start is attempted. */
    function ToAttempt(env: Environment): seq<string>
      reads this, applicationRuntime
    {
      if AppStartFails(env) then [] else Attempted(order, env.startThrows)
    }

    /** The try block of start: the application runtime, then the plugins in order. */
    method Launch(env: Environment) returns (threw: bool)
      requires startedPlugins == []
      modifies this`startedPlugins, this`calls, applicationRuntime
      ensures startedPlugins == old(ToAttempt(env)) && calls == old(calls) + Starts(startedPlugins)
      ensures threw == (old(AppStartFails(env)) || AnyThrows(order, env.startThrows))
      ensures AppValue() == AppStep(old(AppValue()), AppStart(env.appStartThrows, env.appRollbackThrows)).0
        || applicationRuntime == null
    {
      if applicationRuntime != null {
        threw := applicationRuntime.Start(env.appStartThrows, env.appRollbackThrows);
        if threw { return; }
      }
      threw := StartEach(env.startThrows);
    }

    method StartPlugins(env: Environment) returns (outcome: StartOutcome)
      requires Valid()
      modifies this, registries, applicationRuntime
      ensures Valid() && registered == old(registered)
      ensures outcome == NotRegistered <==> !registered
      ensures outcome == AlreadyStarted <==> registered && old(startedPlugins) != []
      ensures outcome == NotRegistered || outcome == AlreadyStarted ==> Value() == old(Value())
      ensures outcome == Started || outcome == StartFailed || outcome == StopFailed ==>
        Value() == LifecycleStep(order, old(Value()), StartAll(old(AppStartFails(env)), env.startThrows))
      ensures outcome == Started ==> startedPlugins == order && applicationRuntime == old(applicationRuntime)
      ensures outcome != StartFailed && outcome != StopFailed ==>
        forall k :: 0 <= k < 8 ==> registries[k].contributions == old(registries[k].contributions)
      ensures outcome == StartFailed || outcome == StopFailed ==>
        startedPlugins == [] && applicationRuntime == null
        && forall k :: 0 <= k < 8 ==>
             registries[k].contributions
               == Filter(old(registries[k].contributions), NotOfAny(Reverse(old(ToAttempt(env)))))
      ensures (outcome == StartFailed || outcome == StopFailed) && old(applicationRuntime) != null ==>
        var begun := AppStep(old(AppValue()), AppStart(env.appStartThrows, env.appRollbackThrows)).0;
        old(applicationRuntime).Value() == AppStep(begun, AppDispose(env.appDisposeThrows)).0
    {
      if !registered { return NotRegistered; }
      if startedPlugins != [] { return AlreadyStarted; }
      ghost var was := Value();
      ghost var appFails := AppStartFails(env);
      var threw := Launch(env);
      assert appFails ==> startedPlugins == [] && calls == was.calls;
      AttemptedStopsAtFirst(order, env.startThrows);
      if !threw { return Started; }
      var stopFailed := StopPlugins(env);
      outcome := if stopFailed then StopFailed else StartFailed;
    }
  }
}
