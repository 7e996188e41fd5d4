/** What creating, starting and stopping does, told by the factories, runtimes and plugins. */
module PluginLaws {
  import opened Sequences
  import opened PluginOrder
  import opened PluginLifecycle
  import Text

  /** A plugin goes by its declared id without the white space around it. */
  lemma IdsAreTrimmed(p: Plugin) returns (front: string, back: string)
    ensures var id := IdOf(p);
      && p.declaredId == front + id + back && Text.AllWhite(front) && Text.AllWhite(back)
      && (id != "" ==> !Text.White(id[0]) && !Text.White(id[|id| - 1]))
  {
    front, back := Text.TrimCuts(p.declaredId);
  }

  // ---- creating runtimes ----

  /** What a creation that fails disposes of: the runtimes of the factories before the first that
      throws. */
  lemma {:induction false} CreatedUpToFirstThrow(factories: seq<Factory>)
    ensures var made := CreatedBefore(factories); var n := |made|;
      && n <= |factories|
      && (forall i :: 0 <= i < n ==> factories[i].Creates? && made[i] == factories[i].runtime)
      && (n < |factories| ==> factories[n].Throws?)
  {
    if factories != [] && factories[0].Creates? {
      CreatedUpToFirstThrow(factories[1..]);
      assert forall i :: 0 < i < |factories| ==> factories[i] == factories[1..][i - 1];
    }
  }

  lemma {:induction false} RepetitionMeans(ids: seq<string>)
    ensures HasRepetition(ids) <==> !Distinct(ids)
  {
    if ids != [] {
      RepetitionMeans(ids[1..]);
      assert forall i :: 0 < i < |ids| ==> ids[i] == ids[1..][i - 1];
      if ids[0] in ids[1..] {
        var j :| 0 <= j < |ids[1..]| && ids[1..][j] == ids[0];
        assert ids[0] == ids[j + 1];
      } else if HasRepetition(ids[1..]) {
        var i, j :| 0 <= i < j < |ids[1..]| && ids[1..][i] == ids[1..][j];
        assert ids[i + 1] == ids[j + 1];
      }
    }
  }

  lemma DistinctParts(xs: seq<string>, ys: seq<string>)
    ensures Distinct(xs + ys) <==> Distinct(xs) && Distinct(ys) && forall c :: c in xs ==> c !in ys
  {
    var all := xs + ys;
    assert forall i :: 0 <= i < |xs| ==> all[i] == xs[i];
    assert forall j :: 0 <= j < |ys| ==> all[|xs| + j] == ys[j];
    if Distinct(all) {
      forall i, j | 0 <= i < j < |xs| ensures xs[i] != xs[j] { assert all[i] != all[j]; }
      forall i, j | 0 <= i < j < |ys| ensures ys[i] != ys[j] { assert all[|xs| + i] != all[|xs| + j]; }
      forall c | c in xs ensures c !in ys {
        var i :| 0 <= i < |xs| && xs[i] == c;
        forall j | 0 <= j < |ys| ensures ys[j] != c { assert all[i] != all[|xs| + j]; }
      }
    }
    if Distinct(xs) && Distinct(ys) && forall c :: c in xs ==> c !in ys {
      forall i, j | 0 <= i < j < |all| ensures all[i] != all[j] {
        if i < |xs| <= j {
          assert all[i] in xs && all[j] == ys[j - |xs|];
        } else if |xs| <= i {
          assert all[i] == ys[i - |xs|] && all[j] == ys[j - |xs|];
        }
      }
    }
  }

  predicate Provides(f: Factory, c: string) { f.Creates? && c in f.capabilities }

  lemma {:induction false} ProvidedBySome(factories: seq<Factory>, c: string)
    requires Throws !in factories
    ensures c in Provided(factories) <==> exists f :: f in factories && Provides(f, c)
  {
    if factories != [] {
      assert factories[0] in factories && forall f :: f in factories <==> f == factories[0] || f in factories[1..];
      ProvidedBySome(factories[1..], c);
      if c in factories[0].capabilities {
        assert Provides(factories[0], c);
      } else if c in Provided(factories[1..]) {
        var f :| f in factories[1..] && Provides(f, c);
        assert f in factories;
      }
    }
  }

  lemma {:induction false} ProvidedMeans(factories: seq<Factory>)
    requires Throws !in factories
    ensures Distinct(Provided(factories)) <==>
      && (forall i :: 0 <= i < |factories| ==> factories[i].Creates? && Distinct(factories[i].capabilities))
      && forall i, j, c :: 0 <= i < j < |factories| && Provides(factories[i], c) ==> !Provides(factories[j], c)
  {
    if factories != [] {
      var first, rest := factories[0], factories[1..];
      assert first in factories && forall f :: f in rest ==> f in factories;
      assert first.Creates?;
      ProvidedMeans(rest);
      forall c ensures c in Provided(rest) <==> exists f :: f in rest && Provides(f, c) { ProvidedBySome(rest, c); }
      DistinctParts(first.capabilities, Provided(rest));
      assert forall f :: f in factories <==> f == first || f in rest;
      assert forall i :: 0 <= i < |rest| ==> rest[i] == factories[i + 1];
      assert forall i :: 0 < i < |factories| ==> factories[i] == rest[i - 1];
    }
  }

  /** The runtimes are created iff no factory throws and no capability is provided twice, be it by two
      factories or by one. */
  lemma CreationSucceedsIff(factories: seq<Factory>)
    ensures !CreationFails(factories) <==>
      && (forall i :: 0 <= i < |factories| ==> factories[i].Creates? && Distinct(factories[i].capabilities))
      && forall i, j, c :: 0 <= i < j < |factories| && Provides(factories[i], c) ==> !Provides(factories[j], c)
  {
    if Throws !in factories {
      RepetitionMeans(Provided(factories));
      ProvidedMeans(factories);
      forall i | 0 <= i < |factories| ensures factories[i].Creates? { assert factories[i] in factories; }
    }
  }

  // ---- the application runtime ----

  /** The calls for the first `n` runtimes, in order; and those for all of them, last first. */
  ghost predicate StartsOf(runtimes: seq<nat>, n: nat, calls: seq<AppCall>) {
    |calls| == n <= |runtimes| && forall i :: 0 <= i < n ==> calls[i] == StartRuntime(runtimes[i])
  }

  ghost predicate DisposesOf(runtimes: seq<nat>, calls: seq<AppCall>) {
    && |calls| == |runtimes|
    && forall i :: 0 <= i < |calls| ==> calls[i] == DisposeRuntime(runtimes[|runtimes| - 1 - i])
  }

  lemma {:induction false} CallsMean(runtimes: seq<nat>)
    ensures StartsOf(runtimes, |runtimes|, StartCalls(runtimes)) && DisposesOf(runtimes, DisposeCalls(runtimes))
  {
    if runtimes != [] {
      CallsMean(runtimes[1..]);
      assert forall i :: 0 < i < |runtimes| ==> runtimes[i] == runtimes[1..][i - 1];
    }
  }

  /** The first runtime whose start throws, or the end of the list. */
  ghost predicate FirstThrow(runtimes: seq<nat>, throws: nat -> bool, n: nat) {
    && n <= |runtimes| && (n < |runtimes| ==> throws(runtimes[n]))
    && forall i :: 0 <= i < n ==> !throws(runtimes[i])
  }

  /** The first start of a handle starts its runtimes up to the first that throws; if one does, all
      are disposed, last first, and the handle counts as disposed unless that throws too. Any later
      start does nothing. */
  lemma StartActs(a: App, startThrows: nat -> bool, disposeThrows: nat -> bool, n: nat)
    returns (starts: seq<AppCall>, disposes: seq<AppCall>)
    requires FirstThrow(a.runtimes, startThrows, n)
    ensures StartsOf(a.runtimes, if n < |a.runtimes| then n + 1 else n, starts) && DisposesOf(a.runtimes, disposes)
    ensures var (t, threw) := AppStep(a, AppStart(startThrows, disposeThrows)); var fails := n < |a.runtimes|;
      && (threw <==> !a.started && fails)
      && (a.started ==> t == a)
      && (!a.started && !fails ==> t == a.(started := true, calls := a.calls + starts))
      && (!a.started && fails ==>
            t == a.(started := true, calls := a.calls + starts + disposes,
                    disposed := a.disposed || forall x :: x in a.runtimes ==> !disposeThrows(x)))
  {
    AttemptedUpTo(a.runtimes, n, startThrows);
    AnyThrowsMeans(a.runtimes, disposeThrows);
    starts, disposes := StartCalls(Attempted(a.runtimes, startThrows)), DisposeCalls(a.runtimes);
    CallsMean(Attempted(a.runtimes, startThrows));
    CallsMean(a.runtimes);
  }

  lemma {:induction false} AnyThrowsMeans<T>(xs: seq<T>, throws: T -> bool)
    ensures AnyThrows(xs, throws) <==> exists x :: x in xs && throws(x)
  {
    if xs != [] {
      AnyThrowsMeans(xs[1..], throws);
      assert forall x :: x in xs <==> x == xs[0] || x in xs[1..];
    }
  }

  /** The first dispose of a handle not yet disposed disposes all its runtimes, last first, and throws
      iff one of them does; any other does nothing. */
  lemma DisposeActs(a: App, throws: nat -> bool) returns (disposes: seq<AppCall>)
    ensures DisposesOf(a.runtimes, disposes)
    ensures var (t, threw) := AppStep(a, AppDispose(throws));
      && (threw <==> !a.disposed && exists x :: x in a.runtimes && throws(x))
      && t == if a.disposed then a else a.(disposed := true, calls := a.calls + disposes)
  {
    AnyThrowsMeans(a.runtimes, throws);
    disposes := DisposeCalls(a.runtimes);
    CallsMean(a.runtimes);
  }

  // ---- the plugins ----

  lemma {:induction false} PluginCallsMean(ids: seq<string>)
    ensures |Starts(ids)| == |Stops(ids)| == |ids|
    ensures forall i :: 0 <= i < |ids| ==> Starts(ids)[i] == Start(ids[i]) && Stops(ids)[i] == Stop(ids[i])
  {
    if ids != [] {
      PluginCallsMean(ids[1..]);
      assert forall i :: 0 < i < |ids| ==> ids[i] == ids[1..][i - 1];
    }
  }

  /** Stopping calls the stop of every plugin started, the last first, and leaves none. */
  lemma StoppingActs(s: Lifecycle, i: nat)
    requires i < |s.started|
    ensures var t := StopStep(s);
      && t.started == [] && |t.calls| == |s.calls| + |s.started| && s.calls <= t.calls
      && t.calls[|s.calls| + i] == Stop(s.started[|s.started| - 1 - i])
  {
    PluginCallsMean(Reverse(s.started));
  }

  /** `n` is the first plugin whose start throws, or the end of the order. */
  ghost predicate FirstToThrow(order: seq<string>, throws: string -> bool, n: nat) {
    && n <= |order| && (n < |order| ==> throws(order[n]))
    && forall i :: 0 <= i < n ==> !throws(order[i])
  }

  /** Starting does nothing while plugins are started, and nothing when the application runtime fails.
      Else, when no plugin throws, all are started in order. */
  lemma StartingActs(order: seq<string>, s: Lifecycle, appFails: bool, throws: string -> bool, i: nat)
    ensures var t := LifecycleStep(order, s, StartAll(appFails, throws));
      && (s.started != [] || appFails ==> t == s)
      && (s.started == [] && !appFails && FirstToThrow(order, throws, |order|) ==>
            && t.started == order && |t.calls| == |s.calls| + |order| && s.calls <= t.calls
            && (i < |order| ==> t.calls[|s.calls| + i] == Start(order[i])))
  {
    if FirstToThrow(order, throws, |order|) { AttemptedUpTo(order, |order|, throws); }
    PluginCallsMean(order);
    if s.started == [] { NothingStops(s); }
  }

  lemma NothingStops(s: Lifecycle)
    requires s.started == []
    ensures StopStep(s) == s
  {
    assert s.calls + Stops(Reverse(s.started)) == s.calls;
  }

  /** When a plugin throws, it and those before it are started and then stopped again, the last
      first; nothing stays started. */
  lemma FailingActs(order: seq<string>, s: Lifecycle, throws: string -> bool, n: nat, i: nat)
    requires s.started == [] && n < |order| && FirstToThrow(order, throws, n) && i <= n
    ensures var t := LifecycleStep(order, s, StartAll(false, throws));
      && t.started == [] && |t.calls| == |s.calls| + 2 * (n + 1) && s.calls <= t.calls
      && t.calls[|s.calls| + i] == Start(order[i]) && t.calls[|s.calls| + n + 1 + i] == Stop(order[n - i])
  {
    var begun := Begun(order, s, n);
    FailedStartStops(order, s, throws, n);
    BegunCalls(order, s, n, i);
    StoppingActs(begun, i);
    assert begun.started[n - i] == order[n - i];
  }

  /** Where a start stands that has got as far as plugin `n`. */
  function Begun(order: seq<string>, s: Lifecycle, n: nat): Lifecycle
    requires n < |order|
  {
    Lifecycle(order[..n + 1], s.calls + Starts(order[..n + 1]))
  }

  lemma BegunCalls(order: seq<string>, s: Lifecycle, n: nat, i: nat)
    requires i <= n < |order|
    ensures var begun := Begun(order, s, n);
      |begun.calls| == |s.calls| + n + 1 && s.calls <= begun.calls && begun.calls[|s.calls| + i] == Start(order[i])
  {
    PluginCallsMean(order[..n + 1]);
  }

  lemma FailedStartStops(order: seq<string>, s: Lifecycle, throws: string -> bool, n: nat)
    requires s.started == [] && n < |order| && FirstToThrow(order, throws, n)
    ensures LifecycleStep(order, s, StartAll(false, throws)) == StopStep(Begun(order, s, n))
  {
    AttemptedUpTo(order, n, throws);
  }

  // ---- runs ----

  /** A run takes its events one after another, each from where the one before it ended. */
  lemma {:induction false} RunTakesEachStep(
    order: seq<string>, s: Lifecycle, events: seq<LifecycleEvent>, e: LifecycleEvent)
    ensures LifecycleRun(order, s, []) == s
    ensures LifecycleRun(order, s, events + [e]) == LifecycleStep(order, LifecycleRun(order, s, events), e)
    decreases |events|
  {
    if events == [] {
      assert [] + [e] == [e] && [e][1..] == [];
    } else {
      assert (events + [e])[1..] == events[1..] + [e];
      RunTakesEachStep(order, LifecycleStep(order, s, events[0]), events[1..], e);
    }
  }

  /** The start that counts is the first among the events. */
  lemma {:induction false} FirstStartMeans(events: seq<AppEvent>)
    ensures FirstStart(events) == [] <==> forall i :: 0 <= i < |events| ==> !events[i].AppStart?
    ensures FirstStart(events) != [] ==>
      exists i :: 0 <= i < |events| && FirstStart(events) == [events[i]]
        && forall j :: 0 <= j < i ==> !events[j].AppStart?
  {
    if events != [] {
      var init := events[..|events| - 1];
      FirstStartMeans(init);
      assert forall i :: 0 <= i < |init| ==> init[i] == events[i];
      if FirstStart(init) != [] {
        var i :| 0 <= i < |init| && FirstStart(init) == [init[i]] && forall j :: 0 <= j < i ==> !init[j].AppStart?;
        assert FirstStart(events) == [events[i]];
      } else if events[|events| - 1].AppStart? {
        assert FirstStart(events) == [events[|events| - 1]];
      }
    }
  }
}
