/** Session-wide cache token accounting: reports carry the running totals of one run; their
    growth against the run's baseline is folded into the session's totals. */
module CacheTokens {

  /** Running totals of one run. */
  datatype Counters = Counters(cached: int, creation: int, input: int)

  const ZERO := Counters(0, 0, 0)

  datatype Field = Absent | Tokens(count: int)

  /** The cache fields of contextUsage and what the context meter shows. */
  datatype Usage = Usage(cached: Field, creation: Field, input: Field, shown: int)

  /** A context_usage event; counters that are not finite numbers are read as 0. */
  datatype Report = Report(runId: string, agentId: string, isRoot: bool, fromProvider: bool,
                           counters: Counters, replay: bool, shown: int)

  datatype Event = Reported(report: Report) | AgentEnded(runId: string)

  type Baselines = map<string, Counters>

  datatype Account = Account(baselines: Baselines, usage: Usage)

  /** `field || 0`. */
  function Read(f: Field): int { if f.Tokens? then f.count else 0 }

  function RunKey(r: Report): string {
    if r.runId != "" then r.runId
    else if r.isRoot then "root"
    else "child:" + if r.agentId != "" then r.agentId else "unknown"
  }

  function BaselineOf(baselines: Baselines, key: string): Counters {
    if key in baselines then baselines[key] else ZERO
  }

  function Grown(now: int, before: int): int { if now > before then now - before else 0 }

  /** The growth a report adds: none when it is replayed or carries no input. */
  function Delta(r: Report, before: Counters): Counters {
    if r.replay || r.counters.input <= 0 then ZERO
    else Counters(Grown(r.counters.cached, before.cached), Grown(r.counters.creation, before.creation),
                  Grown(r.counters.input, before.input))
  }

  function TotalsOf(u: Usage): Counters { Counters(Read(u.cached), Read(u.creation), Read(u.input)) }

  function Plus(a: Counters, b: Counters): Counters {
    Counters(a.cached + b.cached, a.creation + b.creation, a.input + b.input)
  }

  predicate Storable(t: Counters) { t.input > 0 && (t.cached > 0 || t.creation > 0) }

  /** `{ ...rest, ...sessionCacheFields }` for the cache fields. */
  function WithFields(u: Usage, t: Counters): Usage {
    if !Storable(t) then u
    else u.(cached := Tokens(t.cached), creation := if t.creation > 0 then Tokens(t.creation) else u.creation,
            input := Tokens(t.input))
  }

  /** A root report replaces the usage, a child report only adds its growth. */
  function Fold(u: Usage, isRoot: bool, shown: int, delta: Counters): Usage {
    var totals := Plus(TotalsOf(u), delta);
    if isRoot then WithFields(Usage(Absent, Absent, Absent, shown), totals)
    else if delta != ZERO then WithFields(u, totals)
    else u
  }

  function OnReport(a: Account, r: Report): Account {
    if !r.fromProvider then a
    else
      var key := RunKey(r);
      Account(a.baselines[key := r.counters],
              Fold(a.usage, r.isRoot, r.shown, Delta(r, BaselineOf(a.baselines, key))))
  }

  function Apply(a: Account, e: Event): Account {
    match e
    case Reported(r) => OnReport(a, r)
    case AgentEnded(runId) => if runId == "" then a else a.(baselines := a.baselines - {runId})
  }

  function Run(a: Account, events: seq<Event>): Account {
    if events == [] then a else Apply(Run(a, events[..|events| - 1]), events[|events| - 1])
  }

  // ---- the reference: what the history says ----

  /** The last report of the run: the baseline it starts from before its first, and zero
      counters after its end. */
  function Last(b: Baselines, events: seq<Event>, key: string): Counters {
    if events == [] then BaselineOf(b, key)
    else
      var e := events[|events| - 1];
      if Reports(e, key) then e.report.counters
      else if Ends(e, key) then ZERO
      else Last(b, events[..|events| - 1], key)
  }

  predicate Reports(e: Event, key: string) { e.Reported? && e.report.fromProvider && RunKey(e.report) == key }

  predicate Ends(e: Event, key: string) { e.AgentEnded? && e.runId != "" && e.runId == key }

  predicate LiveReport(e: Event) { e.Reported? && e.report.fromProvider && !e.report.replay }

  predicate LiveOf(e: Event, key: string) { LiveReport(e) && RunKey(e.report) == key }

  /** What the last event of the history adds. */
  function Growth(b: Baselines, events: seq<Event>): Counters
    requires events != []
  {
    var e := events[|events| - 1];
    if e.Reported? && e.report.fromProvider
    then Delta(e.report, Last(b, events[..|events| - 1], RunKey(e.report)))
    else ZERO
  }

  /** The sum of the live growth of all runs. */
  function LiveGrowth(b: Baselines, events: seq<Event>): Counters {
    if events == [] then ZERO else Plus(LiveGrowth(b, events[..|events| - 1]), Growth(b, events))
  }

  /** A live report has counters no lower and more input than what its run stood at. Replayed
      reports may deliver anything, earlier totals in particular. */
  predicate Cumulative(b: Baselines, events: seq<Event>) {
    events == [] ||
    var init, e := events[..|events| - 1], events[|events| - 1];
    && Cumulative(b, init)
    && (LiveReport(e) ==> Exceeds(e.report.counters, Last(b, init, RunKey(e.report))))
  }

  predicate Exceeds(now: Counters, before: Counters) {
    && now.cached >= before.cached && now.creation >= before.creation
    && now.input > before.input && now.input > 0
  }

  /** A usage as a snapshot loads it: nothing negative, and input wherever there is a hit. */
  ghost predicate Coherent(u: Usage) { CoherentTotals(TotalsOf(u)) }

  predicate Hit(t: Counters) { t.cached > 0 || t.creation > 0 }

  /** The baselines are the last reports of the history. */
  lemma {:induction false} BaselinesAreLast(a: Account, events: seq<Event>, key: string)
    ensures BaselineOf(Run(a, events).baselines, key) == Last(a.baselines, events, key)
  {
    if events != [] {
      BaselinesAreLast(a, events[..|events| - 1], key);
    }
  }

  /** The growth of the last event of a cumulative history, spelt out. */
  lemma GrowthIsDifference(b: Baselines, events: seq<Event>)
    requires Cumulative(b, events) && events != []
    ensures var e := events[|events| - 1]; var g := Growth(b, events);
      && (LiveReport(e) ==>
            g.input > 0 && Plus(Last(b, events[..|events| - 1], RunKey(e.report)), g) == e.report.counters)
      && (!LiveReport(e) ==> g == ZERO)
      && NonNegative(g)
  {
  }

  // ---- the theorems ----

  predicate NonNegative(t: Counters) { t.cached >= 0 && t.creation >= 0 && t.input >= 0 }

  lemma WithFieldsTotals(u: Usage, t: Counters)
    requires NonNegative(t) && 0 <= Read(u.creation) <= t.creation
    ensures TotalsOf(WithFields(u, t)) == if Storable(t) then t else TotalsOf(u)
  {
  }

  lemma FoldIs(u: Usage, isRoot: bool, shown: int, delta: Counters)
    requires NonNegative(TotalsOf(u)) && NonNegative(delta)
    ensures var sum := Plus(TotalsOf(u), delta);
      TotalsOf(Fold(u, isRoot, shown, delta)) ==
        if (isRoot || delta != ZERO) && Storable(sum) then sum else if isRoot then ZERO else TotalsOf(u)
  {
    var sum := Plus(TotalsOf(u), delta);
    if isRoot {
      WithFieldsTotals(Usage(Absent, Absent, Absent, shown), sum);
    } else {
      WithFieldsTotals(u, sum);
    }
  }

  /** What an event with this growth makes of the totals. */
  predicate Moves(before: Counters, after: Counters, growth: Counters, isRoot: bool) {
    var sum := Plus(before, growth);
    && after.cached == sum.cached && after.creation == sum.creation
    && after.input == if Hit(sum) then sum.input else if isRoot then 0 else before.input
  }

  /** Totals as a snapshot loads them: nothing negative, and input wherever there is a hit. */
  predicate CoherentTotals(t: Counters) { NonNegative(t) && (Hit(t) ==> t.input > 0) }

  /** The totals that the two branches of Fold store. */
  lemma FoldedTotals(t: Counters, delta: Counters)
    requires NonNegative(t) && NonNegative(delta) && (Hit(t) ==> t.input > 0) && (delta == ZERO || delta.input > 0)
    ensures var sum := Plus(t, delta);
      && (Storable(sum) <==> Hit(sum))
      && (!Hit(sum) ==> t.cached == sum.cached == 0 && t.creation == sum.creation == 0)
      && (delta == ZERO ==> sum == t)
  {
  }

  lemma FoldTotals(u: Usage, isRoot: bool, shown: int, delta: Counters)
    requires Coherent(u) && NonNegative(delta) && (delta == ZERO || delta.input > 0)
    ensures Coherent(Fold(u, isRoot, shown, delta))
    ensures Moves(TotalsOf(u), TotalsOf(Fold(u, isRoot, shown, delta)), delta, isRoot)
  {
    FoldIs(u, isRoot, shown, delta);
    FoldedTotals(TotalsOf(u), delta);
  }

  lemma Unmoved(t: Counters)
    ensures Moves(t, t, ZERO, false)
  {
  }

  /** What a report makes of the totals, given its growth. */
  lemma ReportTotals(was: Account, r: Report, growth: Counters)
    requires r.fromProvider && growth == Delta(r, BaselineOf(was.baselines, RunKey(r)))
    requires Coherent(was.usage) && NonNegative(growth) && (growth == ZERO || growth.input > 0)
    ensures Coherent(OnReport(was, r).usage)
    ensures Moves(TotalsOf(was.usage), TotalsOf(OnReport(was, r).usage), growth, r.isRoot)
  {
    FoldTotals(was.usage, r.isRoot, r.shown, growth);
  }

  /** Any other event leaves the usage alone. */
  lemma OthersKeepUsage(was: Account, e: Event)
    requires !(e.Reported? && e.report.fromProvider)
    ensures Apply(was, e).usage == was.usage
  {
  }

  /** The totals after a history. */
  function Totals(a: Account, events: seq<Event>): Counters { TotalsOf(Run(a, events).usage) }

  /** An event makes of the totals what its growth says. */
  lemma StepTotals(a: Account, events: seq<Event>)
    requires Cumulative(a.baselines, events) && events != []
    requires CoherentTotals(Totals(a, events[..|events| - 1]))
    ensures CoherentTotals(Totals(a, events))
    ensures Moves(Totals(a, events[..|events| - 1]), Totals(a, events),
                  Growth(a.baselines, events), RootReport(events[|events| - 1]))
  {
    var init, e := events[..|events| - 1], events[|events| - 1];
    GrowthIsDifference(a.baselines, events);
    if e.Reported? && e.report.fromProvider {
      BaselinesAreLast(a, init, RunKey(e.report));
      ReportTotals(Run(a, init), e.report, Growth(a.baselines, events));
    } else {
      OthersKeepUsage(Run(a, init), e);
      Unmoved(Totals(a, init));
    }
  }

  predicate RootReport(e: Event) { e.Reported? && e.report.fromProvider && e.report.isRoot }

  /** The totals are the initial ones plus the growth, as far as cached and creation go. */
  predicate Conserved(initial: Counters, growth: Counters, totals: Counters) {
    && totals.cached == initial.cached + growth.cached
    && totals.creation == initial.creation + growth.creation
  }

  lemma ConservedStep(
    initial: Counters, growth: Counters, before: Counters, g: Counters, after: Counters, isRoot: bool)
    requires Conserved(initial, growth, before) && Moves(before, after, g, isRoot)
    ensures Conserved(initial, Plus(growth, g), after)
  {
  }

  /** Conservation: after any interleaving of root and child reports, replayed ones among them,
      the cached and creation totals are the initial totals plus the live growth of every run. */
  lemma {:induction false} CacheTotalsConserved(a: Account, events: seq<Event>)
    requires Cumulative(a.baselines, events) && Coherent(a.usage)
    ensures CoherentTotals(Totals(a, events))
    ensures Conserved(TotalsOf(a.usage), LiveGrowth(a.baselines, events), Totals(a, events))
  {
    if events != [] {
      var init := events[..|events| - 1];
      CacheTotalsConserved(a, init);
      StepTotals(a, events);
      ConservedStep(TotalsOf(a.usage), LiveGrowth(a.baselines, init), Totals(a, init),
                    Growth(a.baselines, events), Totals(a, events), RootReport(events[|events| - 1]));
    }
  }

  ghost predicate AnyRootReport(events: seq<Event>) {
    exists i :: 0 <= i < |events| && RootReport(events[i])
  }

  /** Cached or creation tokens have been counted. */
  predicate HitBy(a: Account, events: seq<Event>) {
    Hit(Plus(TotalsOf(a.usage), LiveGrowth(a.baselines, events)))
  }

  /** The input total moves by the growth once there is a hit. */
  lemma InputMoves(initial: Counters, growth: Counters, before: Counters, g: Counters, after: Counters, isRoot: bool)
    requires Conserved(initial, growth, before) && Moves(before, after, g, isRoot)
    requires NonNegative(initial) && NonNegative(growth) && NonNegative(g)
    ensures Hit(Plus(initial, Plus(growth, g))) ==> after.input == before.input + g.input
    ensures !Hit(Plus(initial, Plus(growth, g))) ==> after.input == if isRoot then 0 else before.input
    ensures Hit(Plus(initial, growth)) ==> Hit(Plus(initial, Plus(growth, g)))
  {
  }

  lemma InputStep(a: Account, events: seq<Event>)
    requires Cumulative(a.baselines, events) && Coherent(a.usage) && events != []
    ensures var init := events[..|events| - 1]; var was := Totals(a, init).input;
      && (HitBy(a, events) ==> Totals(a, events).input == was + Growth(a.baselines, events).input)
      && (!HitBy(a, events) ==> Totals(a, events).input == if RootReport(events[|events| - 1]) then 0 else was)
      && (HitBy(a, init) ==> HitBy(a, events))
  {
    var init, b := events[..|events| - 1], a.baselines;
    GrowthNonNegative(b, init);
    GrowthIsDifference(b, events);
    CacheTotalsConserved(a, init);
    StepTotals(a, events);
    InputMoves(TotalsOf(a.usage), LiveGrowth(b, init), Totals(a, init),
               Growth(b, events), Totals(a, events), RootReport(events[|events| - 1]));
  }

  /** Before the first hit no input is counted: what the snapshot had survives until a root
      report, and nothing is added. */
  lemma {:induction false} InputBeforeFirstHit(a: Account, events: seq<Event>)
    requires Cumulative(a.baselines, events) && Coherent(a.usage) && !HitBy(a, events)
    ensures Totals(a, events).input == if AnyRootReport(events) then 0 else TotalsOf(a.usage).input
  {
    if events != [] {
      InputStep(a, events);
      InputBeforeFirstHit(a, events[..|events| - 1]);
      AnyRootReportLast(events);
    }
  }

  lemma AnyRootReportLast(events: seq<Event>)
    requires events != []
    ensures AnyRootReport(events) <==> AnyRootReport(events[..|events| - 1]) || RootReport(events[|events| - 1])
  {
    var init := events[..|events| - 1];
    if AnyRootReport(events) {
      var i :| 0 <= i < |events| && RootReport(events[i]);
      assert i < |init| ==> init[i] == events[i];
    }
    if AnyRootReport(init) {
      var i :| 0 <= i < |init| && RootReport(init[i]);
      assert init[i] == events[i];
    }
  }

  lemma {:induction false} GrowthNonNegative(b: Baselines, events: seq<Event>)
    requires Cumulative(b, events)
    ensures NonNegative(LiveGrowth(b, events))
  {
    if events != [] {
      GrowthNonNegative(b, events[..|events| - 1]);
      GrowthIsDifference(b, events);
    }
  }

  lemma {:induction false} CumulativeFront(b: Baselines, before: seq<Event>, after: seq<Event>)
    requires Cumulative(b, before + after)
    ensures Cumulative(b, before)
  {
    if after == [] {
      assert before + after == before;
    } else {
      var events := before + after;
      assert events[..|events| - 1] == before + after[..|after| - 1];
      CumulativeFront(b, before, after[..|after| - 1]);
    }
  }

  /** How far the input total is ahead of the input growth. */
  function Ahead(a: Account, events: seq<Event>): int {
    Totals(a, events).input - LiveGrowth(a.baselines, events).input
  }

  lemma AheadStays(a: Account, events: seq<Event>)
    requires Cumulative(a.baselines, events) && Coherent(a.usage) && events != [] && HitBy(a, events)
    ensures Ahead(a, events) == Ahead(a, events[..|events| - 1])
  {
    InputStep(a, events);
  }

  /** From a hit on, the input total moves with the growth. */
  lemma {:induction false} InputKeepsCounting(a: Account, before: seq<Event>, after: seq<Event>)
    requires Cumulative(a.baselines, before + after) && Coherent(a.usage) && HitBy(a, before)
    ensures HitBy(a, before + after) && Ahead(a, before + after) == Ahead(a, before)
  {
    if after == [] {
      assert before + after == before;
    } else {
      var events, prior := before + after, after[..|after| - 1];
      assert events[..|events| - 1] == before + prior;
      InputKeepsCounting(a, before, prior);
      InputStep(a, events);
      AheadStays(a, events);
    }
  }

  /** The input total counts exactly from the first hit: with no hit up to `before`, and one at
      the next event, the total is what the snapshot kept plus the growth from that event on. */
  lemma InputCountsFromFirstHit(a: Account, before: seq<Event>, after: seq<Event>)
    requires Cumulative(a.baselines, before + after) && Coherent(a.usage) && after != []
    requires !HitBy(a, before) && HitBy(a, before + after[..1])
    ensures Totals(a, before + after).input ==
      (if AnyRootReport(before) then 0 else TotalsOf(a.usage).input)
        + LiveGrowth(a.baselines, before + after).input - LiveGrowth(a.baselines, before).input
  {
    CumulativeFront(a.baselines, before, after);
    InputBeforeFirstHit(a, before);
    FromFirstHit(a, before, after);
  }

  lemma FromFirstHit(a: Account, before: seq<Event>, after: seq<Event>)
    requires Cumulative(a.baselines, before + after) && Coherent(a.usage) && after != []
    requires HitBy(a, before + after[..1])
    ensures Ahead(a, before + after) == Ahead(a, before)
  {
    var first, rest := before + after[..1], after[1..];
    Regroup(before, after);
    assert first[..|first| - 1] == before;
    CumulativeFront(a.baselines, first, rest);
    AheadStays(a, first);
    InputKeepsCounting(a, first, rest);
  }

  lemma Regroup(before: seq<Event>, after: seq<Event>)
    requires after != []
    ensures (before + after[..1]) + after[1..] == before + after
  {
  }

  /** Once the totals have a hit, every live report counts in full. */
  lemma InputCountsAfterHit(a: Account, events: seq<Event>)
    requires Cumulative(a.baselines, events) && Coherent(a.usage) && Hit(TotalsOf(a.usage))
    ensures Totals(a, events) == Plus(TotalsOf(a.usage), LiveGrowth(a.baselines, events))
  {
    HitAtStart(a);
    assert [] + events == events;
    InputKeepsCounting(a, [], events);
    CacheTotalsConserved(a, events);
    SameTotals(TotalsOf(a.usage), LiveGrowth(a.baselines, events), Totals(a, events));
  }

  lemma HitAtStart(a: Account)
    requires Hit(TotalsOf(a.usage))
    ensures HitBy(a, []) && Ahead(a, []) == TotalsOf(a.usage).input
  {
  }

  lemma SameTotals(initial: Counters, growth: Counters, totals: Counters)
    requires Conserved(initial, growth, totals) && totals.input - growth.input == initial.input
    ensures totals == Plus(initial, growth)
  {
  }

  /** Every report adds at most as many cached as input tokens. */
  predicate CachedWithinInput(b: Baselines, events: seq<Event>) {
    events == [] ||
    (CachedWithinInput(b, events[..|events| - 1]) && Growth(b, events).cached <= Growth(b, events).input)
  }

  lemma RateStep(before: Counters, g: Counters, after: Counters, isRoot: bool)
    requires CoherentTotals(before) && NonNegative(g) && Moves(before, after, g, isRoot)
    requires before.cached <= before.input && g.cached <= g.input
    ensures after.cached <= after.input
  {
  }

  /** Then the hit rate never exceeds one. */
  lemma {:induction false} CachedNeverExceedsInput(a: Account, events: seq<Event>)
    requires Cumulative(a.baselines, events) && Coherent(a.usage) && CachedWithinInput(a.baselines, events)
    requires TotalsOf(a.usage).cached <= TotalsOf(a.usage).input
    ensures Totals(a, events).cached <= Totals(a, events).input
  {
    if events != [] {
      var init := events[..|events| - 1];
      CachedNeverExceedsInput(a, init);
      CacheTotalsConserved(a, init);
      StepTotals(a, events);
      GrowthIsDifference(a.baselines, events);
      RateStep(Totals(a, init), Growth(a.baselines, events), Totals(a, events), RootReport(events[|events| - 1]));
    }
  }

  // ---- the growth run by run ----

  /** What the live reports of one run have added. */
  function RunGrowth(b: Baselines, events: seq<Event>, key: string): Counters {
    if events == [] then ZERO
    else
      var e, earlier := events[|events| - 1], RunGrowth(b, events[..|events| - 1], key);
      if LiveOf(e, key) then Plus(earlier, Growth(b, events)) else earlier
  }

  /** How far everything else has moved its baseline: replayed reports and the end of the run. */
  function RunMoves(b: Baselines, events: seq<Event>, key: string): Counters {
    if events == [] then ZERO
    else
      var init, e := events[..|events| - 1], events[|events| - 1];
      var earlier := RunMoves(b, init, key);
      if Reports(e, key) && e.report.replay then Plus(earlier, Minus(e.report.counters, Last(b, init, key)))
      else if Ends(e, key) then Plus(earlier, Minus(ZERO, Last(b, init, key)))
      else earlier
  }

  function Minus(a: Counters, b: Counters): Counters {
    Counters(a.cached - b.cached, a.creation - b.creation, a.input - b.input)
  }

  lemma AddInMiddle(a: Counters, b: Counters, c: Counters, d: Counters)
    ensures Plus(Plus(a, Plus(b, d)), c) == Plus(Plus(Plus(a, b), c), d)
  {
  }

  lemma MoveTo(a: Counters, b: Counters, c: Counters, target: Counters)
    ensures Plus(Plus(a, b), Plus(c, Minus(target, Plus(Plus(a, b), c)))) == target
  {
  }

  lemma SameAmount(counted: Counters, base: Counters, growth: Counters, moves: Counters)
    ensures Plus(counted, growth) == Plus(Plus(base, growth), moves) <==> counted == Plus(base, moves)
  {
  }

  lemma NoMoves(base: Counters, moves: Counters)
    ensures base == Plus(base, moves) <==> moves == ZERO
  {
  }

  lemma PlusZero(base: Counters)
    ensures Plus(base, ZERO) == base
  {
  }

  /** What one event of a cumulative history does to where a run stands. */
  lemma LastStep(b: Baselines, events: seq<Event>, key: string)
    requires Cumulative(b, events) && events != []
    ensures var init, e := events[..|events| - 1], events[|events| - 1];
      Last(b, events, key) ==
        if LiveOf(e, key) then Plus(Last(b, init, key), Growth(b, events))
        else if Reports(e, key) then e.report.counters
        else if Ends(e, key) then ZERO
        else Last(b, init, key)
  {
    GrowthIsDifference(b, events);
  }

  /** A run stands at its initial baseline plus its live growth plus what the rest moved it. */
  lemma {:induction false} LastIsGrowthAndMoves(b: Baselines, events: seq<Event>, key: string)
    requires Cumulative(b, events)
    ensures Last(b, events, key) ==
      Plus(Plus(BaselineOf(b, key), RunGrowth(b, events, key)), RunMoves(b, events, key))
  {
    var base := BaselineOf(b, key);
    if events == [] {
      NoMoves(base, ZERO);
    } else {
      var init, e := events[..|events| - 1], events[|events| - 1];
      var growth, moves := RunGrowth(b, init, key), RunMoves(b, init, key);
      LastIsGrowthAndMoves(b, init, key);
      LastStep(b, events, key);
      AddInMiddle(base, growth, moves, Growth(b, events));
      MoveTo(base, growth, moves, Last(b, events, key));
    }
  }

  /** The amount counted before the history and the live growth make up the last total of the
      run: every token of the run is counted exactly once. */
  predicate CountedOnce(b: Baselines, events: seq<Event>, key: string, counted: Counters) {
    Plus(counted, RunGrowth(b, events, key)) == Last(b, events, key)
  }

  /** A run is counted exactly once iff its replays and ends move its baseline to the amount that
      was counted before. */
  lemma CountedOnceIff(b: Baselines, events: seq<Event>, key: string, counted: Counters)
    requires Cumulative(b, events)
    ensures CountedOnce(b, events, key, counted) <==>
      counted == Plus(BaselineOf(b, key), RunMoves(b, events, key))
  {
    LastIsGrowthAndMoves(b, events, key);
    SameAmount(counted, BaselineOf(b, key), RunGrowth(b, events, key), RunMoves(b, events, key));
  }

  /** In particular, when the usage is reloaded during a run with all that its baseline stands at,
      the run is counted exactly once iff its replays return the baseline to where it was. */
  lemma ReloadCountsOnceIff(b: Baselines, events: seq<Event>, key: string)
    requires Cumulative(b, events)
    ensures CountedOnce(b, events, key, BaselineOf(b, key)) <==> RunMoves(b, events, key) == ZERO
  {
    CountedOnceIff(b, events, key, BaselineOf(b, key));
    NoMoves(BaselineOf(b, key), RunMoves(b, events, key));
  }

  /** No live report of the run in the history. */
  predicate NothingLive(events: seq<Event>, key: string) {
    events == [] || (NothingLive(events[..|events| - 1], key) && !LiveOf(events[|events| - 1], key))
  }

  /** No replayed report of the run, and not its end. */
  predicate NothingReplayed(events: seq<Event>, key: string) {
    events == [] || (NothingReplayed(events[..|events| - 1], key) && !ReplaysOrEnds(events[|events| - 1], key))
  }

  predicate ReplaysOrEnds(e: Event, key: string) { (Reports(e, key) && e.report.replay) || Ends(e, key) }

  lemma {:induction false} OnlyLiveMovesNothing(b: Baselines, before: seq<Event>, after: seq<Event>, key: string)
    requires NothingReplayed(after, key)
    ensures RunMoves(b, before + after, key) == RunMoves(b, before, key)
  {
    if after == [] {
      assert before + after == before;
    } else {
      var events := before + after;
      assert events[..|events| - 1] == before + after[..|after| - 1];
      OnlyLiveMovesNothing(b, before, after[..|after| - 1], key);
    }
  }

  lemma {:induction false} NoLiveNoGrowth(b: Baselines, events: seq<Event>, key: string)
    requires NothingLive(events, key)
    ensures RunGrowth(b, events, key) == ZERO
  {
    if events != [] {
      NoLiveNoGrowth(b, events[..|events| - 1], key);
    }
  }

  lemma ReplaysAreMoves(b: Baselines, events: seq<Event>, key: string)
    requires Cumulative(b, events) && NothingLive(events, key)
    ensures Last(b, events, key) == Plus(BaselineOf(b, key), RunMoves(b, events, key))
  {
    LastIsGrowthAndMoves(b, events, key);
    NoLiveNoGrowth(b, events, key);
    PlusZero(BaselineOf(b, key));
  }

  /** A reload during a run first replays its reports and then goes on live: the run is counted
      exactly once iff the last replayed report is what its baseline stood at. */
  lemma ReplayedThenLiveCountsOnceIff(b: Baselines, replayed: seq<Event>, live: seq<Event>, key: string)
    requires Cumulative(b, replayed + live) && NothingLive(replayed, key) && NothingReplayed(live, key)
    ensures CountedOnce(b, replayed + live, key, BaselineOf(b, key)) <==>
      Last(b, replayed, key) == BaselineOf(b, key)
  {
    CumulativeFront(b, replayed, live);
    CountedOnceIff(b, replayed + live, key, BaselineOf(b, key));
    OnlyLiveMovesNothing(b, replayed, live, key);
    ReplaysAreMoves(b, replayed, key);
  }

  predicate Distinct(keys: seq<string>) { keys == [] || (keys[0] !in keys[1..] && Distinct(keys[1..])) }

  datatype Counter = CachedTokens | CreationTokens | InputTokens

  function Get(t: Counters, c: Counter): int {
    match c
    case CachedTokens => t.cached
    case CreationTokens => t.creation
    case InputTokens => t.input
  }

  function Sum(keys: seq<string>, f: string -> int): int {
    if keys == [] then 0 else f(keys[0]) + Sum(keys[1..], f)
  }

  /** One counter of each run: its last total, its live growth, and how far the rest moved it. */
  function LastOf(b: Baselines, events: seq<Event>, c: Counter): string -> int {
    (key: string) => Get(Last(b, events, key), c)
  }

  function GrowthOf(b: Baselines, events: seq<Event>, c: Counter): string -> int {
    (key: string) => Get(RunGrowth(b, events, key), c)
  }

  function MovesOf(b: Baselines, events: seq<Event>, c: Counter): string -> int {
    (key: string) => Get(RunMoves(b, events, key), c)
  }

  lemma {:induction false} SumSame(keys: seq<string>, f: string -> int, g: string -> int)
    requires forall key :: key in keys ==> f(key) == g(key)
    ensures Sum(keys, f) == Sum(keys, g)
  {
    if keys != [] {
      assert keys[0] in keys && forall key :: key in keys[1..] ==> key in keys;
      SumSame(keys[1..], f, g);
    }
  }

  lemma {:induction false} SumZero(keys: seq<string>, f: string -> int)
    requires forall key :: key in keys ==> f(key) == 0
    ensures Sum(keys, f) == 0
  {
    if keys != [] {
      assert keys[0] in keys && forall key :: key in keys[1..] ==> key in keys;
      SumZero(keys[1..], f);
    }
  }

  /** Raising the value at one of the keys raises the sum by as much. */
  lemma {:induction false} SumRaised(keys: seq<string>, f: string -> int, g: string -> int, key: string, d: int)
    requires Distinct(keys) && key in keys && g(key) == f(key) + d
    requires forall k :: k in keys && k != key ==> g(k) == f(k)
    ensures Sum(keys, g) == Sum(keys, f) + d
  {
    assert keys[0] in keys && forall k :: k in keys[1..] ==> k in keys;
    if keys[0] == key {
      SumSame(keys[1..], g, f);
    } else {
      SumRaised(keys[1..], f, g, key, d);
    }
  }

  lemma {:induction false} SumOfSums(
    keys: seq<string>, f: string -> int, g: string -> int, h: string -> int, r: string -> int)
    requires forall key :: key in keys ==> r(key) == f(key) + g(key) + h(key)
    ensures Sum(keys, r) == Sum(keys, f) + Sum(keys, g) + Sum(keys, h)
  {
    if keys != [] {
      assert keys[0] in keys && forall key :: key in keys[1..] ==> key in keys;
      SumOfSums(keys[1..], f, g, h, r);
    }
  }

  lemma RunGrowthStep(b: Baselines, events: seq<Event>, key: string, c: Counter)
    requires events != []
    ensures var init, e := events[..|events| - 1], events[|events| - 1];
      GrowthOf(b, events, c)(key) ==
        GrowthOf(b, init, c)(key) + if LiveOf(e, key) then Get(Growth(b, events), c) else 0
  {
  }

  /** The live growth is the sum of the growth of the runs, however their reports interleave. */
  lemma {:induction false} GrowthByRun(b: Baselines, events: seq<Event>, keys: seq<string>, c: Counter)
    requires Cumulative(b, events) && Distinct(keys)
    requires forall i :: 0 <= i < |events| && LiveReport(events[i]) ==> RunKey(events[i].report) in keys
    ensures Get(LiveGrowth(b, events), c) == Sum(keys, GrowthOf(b, events, c))
  {
    if events == [] {
      SumZero(keys, GrowthOf(b, events, c));
    } else {
      var init, e := events[..|events| - 1], events[|events| - 1];
      assert forall i :: 0 <= i < |init| ==> init[i] == events[i];
      GrowthByRun(b, init, keys, c);
      forall key ensures GrowthOf(b, events, c)(key) == GrowthOf(b, init, c)(key)
        + if LiveOf(e, key) then Get(Growth(b, events), c) else 0
      {
        RunGrowthStep(b, events, key, c);
      }
      if LiveReport(e) {
        SumRaised(keys, GrowthOf(b, init, c), GrowthOf(b, events, c), RunKey(e.report), Get(Growth(b, events), c));
      } else {
        GrowthIsDifference(b, events);
        SumSame(keys, GrowthOf(b, events, c), GrowthOf(b, init, c));
      }
    }
  }

  /** In closed form, for each counter: the initial baselines, the live growth and what replays
      and ends moved the baselines add up to the last totals of the runs. */
  lemma GrowthAndMovesAreLast(b: Baselines, events: seq<Event>, keys: seq<string>, c: Counter)
    requires Cumulative(b, events) && Distinct(keys)
    requires forall i :: 0 <= i < |events| && LiveReport(events[i]) ==> RunKey(events[i].report) in keys
    ensures Sum(keys, LastOf(b, events, c)) ==
      Sum(keys, LastOf(b, [], c)) + Get(LiveGrowth(b, events), c) + Sum(keys, MovesOf(b, events, c))
  {
    GrowthByRun(b, events, keys, c);
    forall key
      ensures LastOf(b, events, c)(key) ==
        LastOf(b, [], c)(key) + GrowthOf(b, events, c)(key) + MovesOf(b, events, c)(key)
    {
      LastIsGrowthAndMoves(b, events, key);
    }
    SumOfSums(keys, LastOf(b, [], c), GrowthOf(b, events, c), MovesOf(b, events, c), LastOf(b, events, c));
  }

  /** When all reports are live, the growth is the sum of the last totals less the initial ones. */
  lemma GrowthIsSumOfLast(b: Baselines, events: seq<Event>, keys: seq<string>, c: Counter)
    requires Cumulative(b, events) && Distinct(keys)
    requires forall i :: 0 <= i < |events| ==> LiveReport(events[i]) && RunKey(events[i].report) in keys
    ensures Get(LiveGrowth(b, events), c) == Sum(keys, LastOf(b, events, c)) - Sum(keys, LastOf(b, [], c))
  {
    GrowthAndMovesAreLast(b, events, keys, c);
    forall key ensures MovesOf(b, events, c)(key) == 0 { LiveMovesNothing(b, events, key); }
    SumZero(keys, MovesOf(b, events, c));
  }

  lemma {:induction false} LiveMovesNothing(b: Baselines, events: seq<Event>, key: string)
    requires forall i :: 0 <= i < |events| ==> LiveReport(events[i])
    ensures RunMoves(b, events, key) == ZERO
  {
    if events != [] {
      var init := events[..|events| - 1];
      assert LiveReport(events[|events| - 1]);
      assert forall i :: 0 <= i < |init| ==> init[i] == events[i];
      LiveMovesNothing(b, init, key);
    }
  }

  // ---- replay ----

  /** Totals as the snapshot loader and the reducer store them: nothing negative, and input
      exactly where there is a hit. */
  predicate Stored(t: Counters) {
    NonNegative(t) && (t.input > 0 <==> Hit(t))
  }

  /** What loadContextSnapshot makes of the token statistics of a session. */
  function SnapshotUsage(fromProvider: bool, t: Counters, shown: int): Usage {
    WithFields(Usage(Absent, Absent, Absent, shown), if fromProvider then t else ZERO)
  }

  lemma SnapshotIsStored(fromProvider: bool, t: Counters, shown: int)
    requires NonNegative(t)
    ensures Stored(TotalsOf(SnapshotUsage(fromProvider, t, shown)))
  {
  }

  lemma FoldStored(u: Usage, isRoot: bool, shown: int, delta: Counters)
    requires Stored(TotalsOf(u)) && NonNegative(delta)
    ensures Stored(TotalsOf(Fold(u, isRoot, shown, delta)))
    ensures delta == ZERO ==> TotalsOf(Fold(u, isRoot, shown, delta)) == TotalsOf(u)
  {
    FoldIs(u, isRoot, shown, delta);
    SumStored(TotalsOf(u), delta);
  }

  lemma SumStored(t: Counters, delta: Counters)
    requires Stored(t) && NonNegative(delta)
    ensures Storable(Plus(t, delta)) ==> Stored(Plus(t, delta))
    ensures Plus(t, ZERO) == t && (!Storable(t) ==> t == ZERO) && Stored(ZERO)
  {
  }

  /** Every run keeps the totals stored so, whatever its reports carry. */
  lemma {:induction false} RunKeepsStored(a: Account, events: seq<Event>)
    requires Stored(TotalsOf(a.usage))
    ensures Stored(TotalsOf(Run(a, events).usage))
  {
    if events != [] {
      var was, e := Run(a, events[..|events| - 1]), events[|events| - 1];
      RunKeepsStored(a, events[..|events| - 1]);
      if e.Reported? {
        var r := e.report;
        FoldStored(was.usage, r.isRoot, r.shown, Delta(r, BaselineOf(was.baselines, RunKey(r))));
      }
    }
  }

  /** After any run a replayed report changes no total: it moves only the baseline of its run. */
  lemma ReplayMovesBaselineOnly(a: Account, events: seq<Event>, r: Report)
    requires Stored(TotalsOf(a.usage)) && r.replay && r.fromProvider
    ensures var was := Run(a, events); var now := Run(a, events + [Reported(r)]);
      && TotalsOf(now.usage) == TotalsOf(was.usage)
      && now.baselines == was.baselines[RunKey(r) := r.counters]
  {
    RunKeepsStored(a, events);
    assert (events + [Reported(r)])[..|events|] == events;
    FoldStored(Run(a, events).usage, r.isRoot, r.shown, ZERO);
  }

  // ---- the reducer's state ----

  class ContextUsageReducer {
    var runCacheBaselines: map<string, Counters>
    var contextUsage: Usage

    constructor (usage: Usage)
      ensures Value() == Account(map[], usage)
    {
      runCacheBaselines, contextUsage := map[], usage;
    }

    function Value(): Account
      reads this
    {
      Account(runCacheBaselines, contextUsage)
    }

    /** The context_usage branch of the event reducer. */
    method OnContextUsage(r: Report)
      modifies this
      ensures Value() == Apply(old(Value()), Reported(r))
    {
      if !r.fromProvider { return; }
      var cu := contextUsage;
      var key := RunKey(r);
      var baseline := BaselineOf(runCacheBaselines, key);
      var counts := !r.replay && r.counters.input > 0;
      var deltaCached := if counts then Grown(r.counters.cached, baseline.cached) else 0;
      var deltaCreation := if counts then Grown(r.counters.creation, baseline.creation) else 0;
      var deltaInput := if counts then Grown(r.counters.input, baseline.input) else 0;
      runCacheBaselines := runCacheBaselines[key := r.counters];
      var session := Counters(
        Read(cu.cached) + deltaCached, Read(cu.creation) + deltaCreation, Read(cu.input) + deltaInput);
      if r.isRoot {
        contextUsage := WithFields(Usage(Absent, Absent, Absent, r.shown), session);
      } else if deltaCached > 0 || deltaCreation > 0 || deltaInput > 0 {
        contextUsage := WithFields(contextUsage, session);
      }
    }

    method OnAgentEnded(runId: string)
      modifies this
      ensures Value() == Apply(old(Value()), AgentEnded(runId))
    {
      if runId != "" { runCacheBaselines := runCacheBaselines - {runId}; }
    }
  }
}
