/** Ordering and lifecycle together: with the plugins in the order they were sorted into, a
    plugin runs only while everything it requires is running. */
module PluginDependencies {
  import opened Sequences
  import opened PluginOrder
  import opened PluginLifecycle

  function Ids(plugins: seq<Plugin>): (ids: seq<string>)
    ensures |ids| == |plugins| && forall i :: 0 <= i < |ids| ==> ids[i] == IdOf(plugins[i])
  {
    seq(|plugins|, i requires 0 <= i < |plugins| => IdOf(plugins[i]))
  }

  /** The plugins running after the calls: started and not yet stopped. */
  function RunningAfter(calls: seq<Call>): Brackets { Match(calls, Open([])) }

  /** At every moment the plugins running are a front part of the order. */
  ghost predicate RunsInOrder(ids: seq<string>, calls: seq<Call>) {
    forall k :: 0 <= k <= |calls| ==> RunningAfter(calls[..k]).Open? && RunningAfter(calls[..k]).stack <= ids
  }

  lemma RunsInOrderAppend(ids: seq<string>, before: seq<Call>, after: seq<Call>)
    requires RunsInOrder(ids, before)
    requires forall k :: 0 <= k <= |after| ==>
      var b := Match(after[..k], RunningAfter(before)); b.Open? && b.stack <= ids
    ensures RunsInOrder(ids, before + after)
  {
    var calls := before + after;
    forall k | 0 <= k <= |calls| ensures RunningAfter(calls[..k]).Open? && RunningAfter(calls[..k]).stack <= ids {
      if k <= |before| {
        assert calls[..k] == before[..k];
      } else {
        assert calls[..k] == before + after[..k - |before|];
        MatchAppend(before, after[..k - |before|], Open([]));
      }
    }
  }

  lemma {:induction false} StartsPrefix(ids: seq<string>, k: nat)
    requires k <= |ids|
    ensures |Starts(ids)| == |ids| && Starts(ids)[..k] == Starts(ids[..k])
  {
    if k > 0 {
      StartsPrefix(ids[1..], k - 1);
      assert ids[..k][1..] == ids[1..][..k - 1];
    } else if ids != [] {
      StartsPrefix(ids[1..], 0);
    }
  }

  /** Starting a front part of the order, nothing running, never leaves the order. */
  lemma StartsInOrder(ids: seq<string>, attempted: seq<string>, calls: seq<Call>)
    requires attempted <= ids && RunsInOrder(ids, calls) && RunningAfter(calls) == Open([])
    ensures RunsInOrder(ids, calls + Starts(attempted))
  {
    StartsPrefix(attempted, |attempted|);
    forall k | 0 <= k <= |Starts(attempted)|
      ensures var b := Match(Starts(attempted)[..k], Open([])); b.Open? && b.stack <= ids
    {
      StartsPrefix(attempted, k);
      StartsOpen(attempted[..k], []);
      assert [] + attempted[..k] == attempted[..k];
    }
    RunsInOrderAppend(ids, calls, Starts(attempted));
  }

  /** Stopping what runs, last first, goes back down the order. */
  lemma {:induction false} StopsDescend(started: seq<string>, k: nat)
    requires k <= |started|
    ensures |Stops(Reverse(started))| == |started|
    ensures Match(Stops(Reverse(started))[..k], Open(started)) == Open(started[..|started| - k])
  {
    if started != [] {
      var init, last := started[..|started| - 1], started[|started| - 1];
      var stops := Stops(Reverse(started));
      assert Reverse(started) == [last] + Reverse(init);
      assert stops == [Stop(last)] + Stops(Reverse(init));
      if k > 0 {
        StopsDescend(init, k - 1);
        assert stops[..k][1..] == Stops(Reverse(init))[..k - 1];
        assert init[..|init| - (k - 1)] == started[..|started| - k];
      } else {
        StopsDescend(init, 0);
        assert started[..|started|] == started;
      }
    }
  }

  lemma StopsInOrder(ids: seq<string>, s: Lifecycle)
    requires s.started <= ids && RunsInOrder(ids, s.calls) && RunningAfter(s.calls) == Open(s.started)
    ensures RunsInOrder(ids, StopStep(s).calls)
  {
    var stops := Stops(Reverse(s.started));
    StopsDescend(s.started, 0);
    forall k | 0 <= k <= |stops| ensures var b := Match(stops[..k], Open(s.started)); b.Open? && b.stack <= ids {
      StopsDescend(s.started, k);
    }
    RunsInOrderAppend(ids, s.calls, stops);
  }

  /** What every step keeps: the plugins believed started are those running, in order. */
  ghost predicate InOrder(ids: seq<string>, s: Lifecycle) {
    s.started <= ids && RunsInOrder(ids, s.calls) && RunningAfter(s.calls) == Open(s.started)
  }

  lemma StartKeepsOrder(ids: seq<string>, s: Lifecycle, attempted: seq<string>)
    requires InOrder(ids, s) && s.started == [] && attempted <= ids
    ensures InOrder(ids, Lifecycle(attempted, s.calls + Starts(attempted)))
  {
    StartsInOrder(ids, attempted, s.calls);
    MatchAppend(s.calls, Starts(attempted), Open([]));
    StartsOpen(attempted, []);
    assert [] + attempted == attempted;
  }

  lemma StopKeepsOrder(ids: seq<string>, s: Lifecycle)
    requires InOrder(ids, s)
    ensures InOrder(ids, StopStep(s))
  {
    StopsInOrder(ids, s);
    StopBalances(s);
  }

  lemma StepKeepsOrder(ids: seq<string>, s: Lifecycle, e: LifecycleEvent)
    requires InOrder(ids, s)
    ensures InOrder(ids, LifecycleStep(ids, s, e))
  {
    StopKeepsOrder(ids, s);
    if e.StartAll? && s.started == [] && !e.appFails {
      var attempted := Attempted(ids, e.startThrows);
      StartKeepsOrder(ids, s, attempted);
      StopKeepsOrder(ids, Lifecycle(attempted, s.calls + Starts(attempted)));
    }
  }

  lemma {:induction false} RunKeepsOrder(ids: seq<string>, s: Lifecycle, events: seq<LifecycleEvent>)
    requires InOrder(ids, s)
    ensures InOrder(ids, LifecycleRun(ids, s, events))
    decreases |events|
  {
    if events != [] {
      StepKeepsOrder(ids, s, events[0]);
      RunKeepsOrder(ids, LifecycleStep(ids, s, events[0]), events[1..]);
    }
  }

  /** What every call of a run finds running: a start, everything its plugin requires; a stop,
      nothing that requires its plugin. */
  ghost predicate RespectsDependencies(order: seq<Plugin>, calls: seq<Call>, k: nat)
    requires k < |calls|
  {
    var running := RunningAfter(calls[..k]);
    && running.Open?
    && forall p :: p in order ==>
         (calls[k] == Start(IdOf(p)) ==> forall d :: d in p.dependencies ==> d in running.stack)
         && (calls[k].Stop? && calls[k].id in p.dependencies ==> IdOf(p) !in running.stack)
  }

  /** A call moves the running plugins up or down the order by one. */
  lemma CallMovesByOne(ids: seq<string>, calls: seq<Call>, k: nat)
    requires Distinct(ids) && RunsInOrder(ids, calls) && k < |calls|
    ensures var running := RunningAfter(calls[..k]);
      && running.Open?
      && (calls[k].Start? ==> |running.stack| < |ids| && ids[|running.stack|] == calls[k].id && running.stack <= ids)
      && (calls[k].Stop? ==>
            running.stack != [] && running.stack[|running.stack| - 1] == calls[k].id && running.stack <= ids)
  {
    assert calls[..k + 1] == calls[..k] + [calls[k]];
    MatchAppend(calls[..k], [calls[k]], Open([]));
    var running, next := RunningAfter(calls[..k]), RunningAfter(calls[..k + 1]);
    assert running.Open? && next.Open? && running.stack <= ids && next.stack <= ids;
    assert next == Match([calls[k]], running);
  }

  /** What orderPlugins returns has proper ids, as what it was given. */
  lemma OrderIsProper(plugins: seq<Plugin>, order: seq<Plugin>)
    requires ProperIds(plugins) && multiset(order) == multiset(plugins)
    ensures ProperIds(order)
  {
    ProperIdsDistinct(plugins);
    DistinctPermutation(plugins, order);
    forall p | p in order ensures p in plugins { assert p in multiset(order); }
    ProperIdsTransfer(plugins, order);
  }

  /** Composition: with the plugins in the order that orderPlugins returns, over every run of
      starts and stops and whichever of them throw, a plugin starts only while everything it
      requires runs, and stops only after everything that requires it has stopped. */
  lemma DependenciesOutliveDependents(
    plugins: seq<Plugin>, order: seq<Plugin>, events: seq<LifecycleEvent>, k: nat)
    requires Orderable(plugins) && multiset(order) == multiset(plugins) && DependenciesFirst(order)
    requires k < |LifecycleRun(Ids(order), Lifecycle([], []), events).calls|
    ensures RespectsDependencies(order, LifecycleRun(Ids(order), Lifecycle([], []), events).calls, k)
  {
    var ids := Ids(order);
    var calls := LifecycleRun(ids, Lifecycle([], []), events).calls;
    OrderIsProper(plugins, order);
    RunKeepsOrder(ids, Lifecycle([], []), events);
    CallMovesByOne(ids, calls, k);
    var running := RunningAfter(calls[..k]).stack;
    forall p | p in order
      ensures calls[k] == Start(IdOf(p)) ==> forall d :: d in p.dependencies ==> d in running
      ensures calls[k].Stop? && calls[k].id in p.dependencies ==> IdOf(p) !in running
    {
      var i :| 0 <= i < |order| && order[i] == p;
      if calls[k] == Start(IdOf(p)) { StartsNext(order, i, running); }
      if calls[k].Stop? && calls[k].id in p.dependencies { RequiredAbove(order, i, calls[k].id, running); }
    }
  }

  /** When the plugin behind those running is plugin `i`, all it requires runs. */
  lemma StartsNext(order: seq<Plugin>, i: nat, running: seq<string>)
    requires ProperIds(order) && DependenciesFirst(order) && i < |order|
    requires |running| < |order| && running <= Ids(order) && Ids(order)[|running|] == IdOf(order[i])
    ensures forall d :: d in order[i].dependencies ==> d in running
  {
    assert Ids(order)[|running|] == Ids(order)[i];
    forall d | d in order[i].dependencies ensures d in running { RequiredEarlier(order, i, d, running); }
  }

  /** What plugin `i` requires stands among the ids before it. */
  lemma RequiredEarlier(order: seq<Plugin>, i: nat, d: string, running: seq<string>)
    requires DependenciesFirst(order) && i < |order| && d in order[i].dependencies
    requires |running| == i && running <= Ids(order)
    ensures d in running
  {
    var p :| p in order[..i] && IdOf(p) == d;
    var j :| 0 <= j < i && order[..i][j] == p;
    assert running[j] == d;
  }

  /** When the last plugin running is one that plugin `i` requires, plugin `i` does not run. */
  lemma RequiredAbove(order: seq<Plugin>, i: nat, d: string, running: seq<string>)
    requires ProperIds(order) && DependenciesFirst(order) && i < |order| && d in order[i].dependencies
    requires running != [] && running <= Ids(order) && running[|running| - 1] == d
    ensures IdOf(order[i]) !in running
  {
    var p :| p in order[..i] && IdOf(p) == d;
    var j :| 0 <= j < i && order[..i][j] == p;
    assert Ids(order)[|running| - 1] == Ids(order)[j];
    assert |running| - 1 == j;
    forall m | 0 <= m < |running| ensures running[m] != IdOf(order[i]) {
      assert Ids(order)[m] == running[m] && m < i;
    }
  }
}
