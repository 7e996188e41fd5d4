/** What one report does to the totals and which reports are of one run, told by the figures and ids
    they carry: these statements share no vocabulary with the operations they are about. */
module CacheLaws {
  import opened CacheTokens

  // ---- runs ----

  /** The reports are of one run: they carry the same run id or, carrying none, both are the root's or
      both of the same child agent. An id that reads like the name of a nameless run is taken for
      it. */
  predicate OneRun(r: Report, q: Report) {
    if r.runId != "" && q.runId != "" then r.runId == q.runId
    else if r.runId == "" && q.runId == "" then
      r.isRoot == q.isRoot && (r.isRoot || NameOf(r) == NameOf(q))
    else if r.runId == "" then NamelessReads(r, q.runId)
    else NamelessReads(q, r.runId)
  }

  function NameOf(r: Report): string { if r.agentId == "" then "unknown" else r.agentId }

  predicate NamelessReads(r: Report, id: string) {
    id == if r.isRoot then "root" else "child:" + NameOf(r)
  }

  lemma OneRunMeans(r: Report, q: Report)
    ensures OneRun(r, q) <==> RunKey(r) == RunKey(q)
  {
    var a := if r.agentId != "" then r.agentId else "unknown";
    var b := if q.agentId != "" then q.agentId else "unknown";
    assert ("child:" + a)[6..] == a && ("child:" + b)[6..] == b;
    assert ("child:" + a)[0] == 'c' && "root"[0] == 'r';
  }

  /** Of two reports in a row the second is held against the first iff they are of one run. */
  lemma NextIsHeldAgainstLast(a: Account, r: Report, q: Report, before: Counters)
    requires r.fromProvider && BaselineOf(a.baselines, RunKey(q)) == before
    ensures BaselineOf(Apply(a, Reported(r)).baselines, RunKey(q)) == if OneRun(r, q) then r.counters else before
  {
    OneRunMeans(r, q);
  }

  /** The end of a run makes its next report be held against nothing, and no other run's. */
  lemma EndForgets(a: Account, runId: string, q: Report)
    ensures var t := Apply(a, AgentEnded(runId));
      && t.usage == a.usage
      && (runId != "" && q.runId == runId ==> BaselineOf(t.baselines, RunKey(q)) == Counters(0, 0, 0))
      && (runId == "" || (q.runId != "" && q.runId != runId) ==>
            BaselineOf(t.baselines, RunKey(q)) == BaselineOf(a.baselines, RunKey(q)))
  {
  }

  // ---- one report ----

  /** What a report counts of a figure: how much it is above the one before; nothing when it is
      replayed or reports no input. */
  function Counted(r: Report, now: int, before: int): int {
    if r.replay || r.counters.input <= 0 || now <= before then 0 else now - before
  }

  function Amount(f: Field): int { if f == Absent then 0 else f.count }

  /** The usage after the sums have been written into it: only when there is input and a hit, and the
      creation only when there is any. */
  ghost predicate Written(was: Usage, cached: int, creation: int, input: int, now: Usage) {
    if input > 0 && (cached > 0 || creation > 0) then
      && now.cached == Tokens(cached) && now.input == Tokens(input) && now.shown == was.shown
      && now.creation == if creation > 0 then Tokens(creation) else was.creation
    else now == was
  }

  /** A report that the provider did not make is ignored. Any other is what the next of its run is held
      against, and what it counts is added to the totals. A root report replaces all that is shown; one
      of a child leaves it, and writes nothing when it counts nothing. */
  lemma ReportActs(a: Account, r: Report, before: Counters)
    requires before == BaselineOf(a.baselines, RunKey(r))
    ensures var t := Apply(a, Reported(r));
      var cached := Counted(r, r.counters.cached, before.cached);
      var creation := Counted(r, r.counters.creation, before.creation);
      var input := Counted(r, r.counters.input, before.input);
      && (!r.fromProvider ==> t == a)
      && (r.fromProvider ==>
            && t.baselines == a.baselines[RunKey(r) := r.counters]
            && (r.isRoot ==>
                  Written(Usage(Absent, Absent, Absent, r.shown), Amount(a.usage.cached) + cached,
                          Amount(a.usage.creation) + creation, Amount(a.usage.input) + input, t.usage))
            && (!r.isRoot && (cached > 0 || creation > 0 || input > 0) ==>
                  Written(a.usage, Amount(a.usage.cached) + cached, Amount(a.usage.creation) + creation,
                          Amount(a.usage.input) + input, t.usage))
            && (!r.isRoot && cached == creation == input == 0 ==> t.usage == a.usage))
  {
  }

  /** A snapshot shows its own totals when the provider reported them, and none otherwise. */
  lemma SnapshotShows(fromProvider: bool, t: Counters, shown: int)
    ensures Written(Usage(Absent, Absent, Absent, shown), if fromProvider then t.cached else 0,
                    if fromProvider then t.creation else 0, if fromProvider then t.input else 0,
                    SnapshotUsage(fromProvider, t, shown))
  {
  }

  // ---- histories ----

  /** What a history must do for the totals to be conserved: every live report has more input than
      where its run stood, and no less of the rest. */
  lemma {:induction false} CumulativeMeans(b: Baselines, events: seq<Event>)
    ensures Cumulative(b, events) <==>
      forall i :: 0 <= i < |events| ==> GrewFrom(b, events[..i], events[i])
  {
    if events != [] {
      var init := events[..|events| - 1];
      CumulativeMeans(b, init);
      assert forall i :: 0 <= i < |init| ==> init[i] == events[i] && init[..i] == events[..i];
    }
  }

  predicate GrewFrom(b: Baselines, history: seq<Event>, e: Event) {
    e.Reported? && e.report.fromProvider && !e.report.replay ==>
      var before, now := Last(b, history, RunKey(e.report)), e.report.counters;
      && now.input > 0 && now.input > before.input
      && now.cached >= before.cached && now.creation >= before.creation
  }

  /** The last event of the history adds at most as many cached as input tokens. */
  predicate AddsWithin(b: Baselines, history: seq<Event>) {
    history == [] || Growth(b, history).cached <= Growth(b, history).input
  }

  /** The hit rate stays below one when that is so after every event. */
  lemma {:induction false} WithinInputMeans(b: Baselines, events: seq<Event>)
    ensures CachedWithinInput(b, events) <==> forall i :: 0 <= i <= |events| ==> AddsWithin(b, events[..i])
  {
    assert events[..|events|] == events;
    if events != [] {
      var init := events[..|events| - 1];
      WithinInputMeans(b, init);
      assert forall i :: 0 <= i <= |init| ==> init[..i] == events[..i];
    }
  }

  predicate OfRun(e: Event, key: string, replay: bool) {
    e.Reported? && e.report.fromProvider && e.report.replay == replay && RunKey(e.report) == key
  }

  /** No report of the run is live, or none is replayed and the run does not end. */
  lemma {:induction false} QuietMeans(events: seq<Event>, key: string)
    ensures NothingLive(events, key) <==> forall i :: 0 <= i < |events| ==> !OfRun(events[i], key, false)
    ensures NothingReplayed(events, key) <==>
      forall i :: 0 <= i < |events| ==>
        !OfRun(events[i], key, true) && (key == "" || events[i] != AgentEnded(key))
  {
    if events != [] {
      var init := events[..|events| - 1];
      QuietMeans(init, key);
      assert forall i :: 0 <= i < |init| ==> init[i] == events[i];
    }
  }

  /** Every token of a run is counted once when what was counted before and what its live reports
      added are its last totals. */
  lemma CountedOnceMeans(b: Baselines, events: seq<Event>, key: string, counted: Counters)
    ensures var growth, last := RunGrowth(b, events, key), Last(b, events, key);
      CountedOnce(b, events, key, counted) <==>
        && counted.cached + growth.cached == last.cached
        && counted.creation + growth.creation == last.creation
        && counted.input + growth.input == last.input
  {
  }

  lemma {:induction false} DistinctMeans(keys: seq<string>)
    ensures Distinct(keys) <==> forall i, j :: 0 <= i < j < |keys| ==> keys[i] != keys[j]
  {
    if keys != [] {
      DistinctMeans(keys[1..]);
      assert forall i :: 0 < i < |keys| ==> keys[i] == keys[1..][i - 1];
      if keys[0] in keys[1..] {
        var j :| 0 <= j < |keys[1..]| && keys[1..][j] == keys[0];
        assert keys[0] == keys[j + 1];
      }
      if !Distinct(keys[1..]) {
        var i, j :| 0 <= i < j < |keys[1..]| && keys[1..][i] == keys[1..][j];
        assert keys[i + 1] == keys[j + 1];
      }
    }
  }
}
