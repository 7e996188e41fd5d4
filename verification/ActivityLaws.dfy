/** The phase of a run and what a snapshot lists, told by the tools and model calls that run. */
module ActivityLaws {
  import opened RunActivity

  /** A tool runs, a model call runs, and a model call runs that is in the given state. */
  ghost predicate ToolRuns(s: State) { exists k :: k in s.tools }

  ghost predicate ModelRuns(s: State) { exists k :: k in s.models }

  ghost predicate ModelIs(s: State, status: ModelStatus) { exists k :: k in s.models && s.models[k].status == status }

  /** The phase tells what runs: tools and models at once, or tools alone; models alone by the most
      pressing state among them; or nothing. */
  ghost predicate PhaseTells(s: State) {
    && (s.phase == ParallelRunning <==> ToolRuns(s) && ModelRuns(s))
    && (s.phase == ToolRunning <==> ToolRuns(s) && !ModelRuns(s))
    && (s.phase == Retrying <==> !ToolRuns(s) && ModelIs(s, RetryWait))
    && (s.phase == ModelStreaming <==> !ToolRuns(s) && !ModelIs(s, RetryWait) && ModelIs(s, Streaming))
    && (s.phase == ModelFailed <==>
          !ToolRuns(s) && !ModelIs(s, RetryWait) && !ModelIs(s, Streaming) && ModelIs(s, Failed))
    && (s.phase == ModelWaiting <==>
          !ToolRuns(s) && ModelRuns(s) && !ModelIs(s, RetryWait) && !ModelIs(s, Streaming) && !ModelIs(s, Failed))
    && (s.phase == Processing <==> !ToolRuns(s) && !ModelRuns(s))
  }

  lemma ClassifyTells(s: State)
    ensures s.phase == Classify(s.tools, s.models) ==> PhaseTells(s)
  {
    assert |s.tools| > 0 <==> s.tools != map[];
    assert |s.models| > 0 <==> s.models != map[];
    assert s.tools != map[] <==> ToolRuns(s) by { if s.tools != map[] { assert s.tools.Keys != {}; } }
    assert s.models != map[] <==> ModelRuns(s) by { if s.models != map[] { assert s.models.Keys != {}; } }
  }

  /** Over every run of events an approval makes the phase wait for it; a phase that waits stays;
      any other tells what runs from the first event on that acts. */
  lemma PhaseTellsWhatRuns(s: State, events: seq<Event>)
    ensures var n := Run(s, events);
      if ApprovalRequired in events then n.phase == ApprovalWaiting
      else if s.phase in {ApprovalWaiting, Suspended} || !AnyActs(s, events) then n.phase == s.phase
      else PhaseTells(n)
  {
    PhaseIsTheTrace(s, events);
    ClassifyTells(Run(s, events));
  }

  // ---- resets ----

  /** The three resets empty the maps and forget the root call. The start of a run shows processing
      unless the phase waits, a reset idle, and a reset for a replay leaves the phase. */
  lemma ResetsEmpty(s: State)
    ensures forall t :: t in {OnRunStart(s), OnReset(s), OnPresentationReset(s)} ==>
      t == s.(tools := map[], models := map[], rootCallId := "", phase := t.phase)
    ensures OnRunStart(s).phase == if s.phase in {ApprovalWaiting, Suspended} then s.phase else Processing
    ensures OnReset(s).phase == Idle && OnPresentationReset(s).phase == s.phase
  {
  }

  ghost predicate NoneNamed(events: seq<Event>) {
    forall i :: 0 <= i < |events| && events[i].RootCall? ==> events[i].callId == ""
  }

  ghost predicate LastNamed(events: seq<Event>, id: string) {
    exists i :: 0 <= i < |events| && events[i] == RootCall(id) && id != "" && NoneNamed(events[i + 1..])
  }

  lemma LastNamedStep(events: seq<Event>, id: string)
    requires events != []
    ensures var init, e := events[..|events| - 1], events[|events| - 1];
      && (NoneNamed(events) <==> NoneNamed(init) && (e.RootCall? ==> e.callId == ""))
      && (LastNamed(init, id) && (e.RootCall? ==> e.callId == "") ==> LastNamed(events, id))
      && (e == RootCall(id) && id != "" ==> LastNamed(events, id))
  {
    var init, e := events[..|events| - 1], events[|events| - 1];
    assert forall i :: 0 <= i < |init| ==> init[i] == events[i];
    if LastNamed(init, id) && (e.RootCall? ==> e.callId == "") {
      var i :| 0 <= i < |init| && init[i] == RootCall(id) && id != "" && NoneNamed(init[i + 1..]);
      assert events[i + 1..] == init[i + 1..] + [e];
      assert NoneNamed(events[i + 1..]);
    }
    if e == RootCall(id) && id != "" { assert NoneNamed(events[|events| - 1 + 1..]); }
  }

  /** The root call is the last one named. */
  lemma {:induction false} RootCallIsLastNamed(s: State, events: seq<Event>)
    ensures var n := Run(s, events);
      if NoneNamed(events) then n.rootCallId == s.rootCallId else LastNamed(events, n.rootCallId)
  {
    if events != [] {
      var init := events[..|events| - 1];
      RootCallIsLastNamed(s, init);
      LastNamedStep(events, Run(s, events).rootCallId);
      RootMoves(Run(s, init), events[|events| - 1]);
    }
  }

  lemma RootMoves(s: State, e: Event)
    ensures Apply(s, e).rootCallId == if e.RootCall? && e.callId != "" then e.callId else s.rootCallId
  {
  }

  // ---- snapshots ----

  /** A snapshot is older than the state when both carry a mark and its own is the lesser. */
  predicate Older(snapshot: Snapshot, s: State) {
    snapshot.watermark != NoMark && s.watermark != NoMark && snapshot.watermark.at < s.watermark.at
  }

  /** A snapshot is taken over unless it is older and not authoritative. It then says what runs; the
      phase follows its state, and for a running one tells what runs. The root call is kept only
      for the same run. */
  lemma SnapshotTakenOver(s: State, snapshot: Snapshot, authoritative: bool)
    ensures var t := OnSnapshot(s, snapshot, authoritative); var run := snapshot.run;
      && (Older(snapshot, s) && !authoritative ==> t == s)
      && (!Older(snapshot, s) || authoritative ==>
            && t.watermark == snapshot.watermark && t.active == run.ActiveRun?
            && (run == NoRun ==> t == Start().(watermark := t.watermark))
            && (run.ActiveRun? ==>
                  && t.runId == run.runId && t.tools == ToolsOf(run.tools) && t.models == ModelsOf(run.models)
                  && t.rootCallId == (if s.runId == run.runId then s.rootCallId else "")
                  && (snapshot.state == Running ==> PhaseTells(t))
                  && (snapshot.state == Resuming ==> t.phase == StartingAgent)
                  && (snapshot.state == WaitingInteraction ==> t.phase == ApprovalWaiting)
                  && (snapshot.state == RunSuspended ==>
                        t.phase == if snapshot.pendingInteractions > 0 then ApprovalWaiting else Suspended)
                  && (snapshot.state == OtherState ==> t.phase == s.phase)))
    ensures Start().phase == Idle && Start().runId == "" && Start().rootCallId == ""
    ensures Start().tools == map[] && Start().models == map[]
  {
    ClassifyTells(OnSnapshot(s, snapshot, authoritative));
  }

  /** Two model calls are one entry iff agent and call agree, as long as the names of agents hold no
      NUL character. */
  lemma ModelKeysDiffer(agent: string, call: string, other: string, otherCall: string)
    requires '\0' !in agent && '\0' !in other
    ensures ModelKey(agent, call) == ModelKey(other, otherCall) <==> agent == other && call == otherCall
  {
    var k, l := ModelKey(agent, call), ModelKey(other, otherCall);
    assert k[|agent|] == '\0' && l[|other|] == '\0';
    assert k[..|agent|] == agent && l[..|other|] == other;
    assert k[|agent| + 1..] == call && l[|other| + 1..] == otherCall;
    assert forall i :: 0 <= i < |agent| ==> k[i] == agent[i] != '\0';
    assert forall i :: 0 <= i < |other| ==> l[i] == other[i] != '\0';
  }

  ghost predicate NoneAfter(models: seq<Model>, i: nat, key: string) {
    forall j :: i < j < |models| ==> ModelKey(models[j].agentId, models[j].callId) != key
  }

  /** A snapshot lists the last of its models under each agent and call. */
  lemma {:induction false} SnapshotModels(models: seq<Model>, key: string)
    ensures key in ModelsOf(models) <==>
      exists i :: 0 <= i < |models| && ModelKey(models[i].agentId, models[i].callId) == key
    ensures key in ModelsOf(models) ==>
      exists i :: 0 <= i < |models| && models[i] == ModelsOf(models)[key]
        && ModelKey(models[i].agentId, models[i].callId) == key && NoneAfter(models, i, key)
  {
    if models != [] {
      var init, last := models[..|models| - 1], models[|models| - 1];
      SnapshotModels(init, key);
      assert forall i :: 0 <= i < |init| ==> init[i] == models[i];
      if ModelKey(last.agentId, last.callId) == key {
        assert models[|models| - 1] == ModelsOf(models)[key];
      } else if key in ModelsOf(init) {
        var i :| 0 <= i < |init| && init[i] == ModelsOf(init)[key]
          && ModelKey(init[i].agentId, init[i].callId) == key && NoneAfter(init, i, key);
        assert models[i] == ModelsOf(models)[key];
      }
    }
  }
}
