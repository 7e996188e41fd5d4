/** The run runtime, method by method against the model of running activity. */
module RunRuntime {
  import opened RunActivity

  class RunRuntime {
    var active: bool
    var runId: string
    var rootCallId: string
    var phase: Phase
    var runningToolCalls: map<string, Tool>
    var runningModelCalls: map<string, Model>
    var eventWatermark: Watermark

    constructor ()
      ensures Value() == Start()
    {
      active, runId, rootCallId, phase := false, "", "", Idle;
      runningToolCalls, runningModelCalls, eventWatermark := map[], map[], NoMark;
    }

    function Value(): State
      reads this
    {
      State(active, runId, rootCallId, phase, runningToolCalls, runningModelCalls, eventWatermark)
    }

    method RefreshActivityPhase()
      modifies this`phase
      ensures Value() == Refreshed(old(Value()))
    {
      if phase == ApprovalWaiting || phase == Suspended { return; }
      var toolCount, modelCount := |runningToolCalls|, |runningModelCalls|;
      if toolCount > 0 && modelCount > 0 { phase := ParallelRunning; }
      else if toolCount > 0 { phase := ToolRunning; }
      else if SomeStatus(runningModelCalls, RetryWait) { phase := Retrying; }
      else if SomeStatus(runningModelCalls, Streaming) { phase := ModelStreaming; }
      else if SomeStatus(runningModelCalls, Failed) { phase := ModelFailed; }
      else if modelCount > 0 { phase := ModelWaiting; }
      else { phase := Processing; }
    }

    method UpdateModelCall(agentId: string, callId: string, status: ModelStatus)
      modifies this
      ensures Value() == Apply(old(Value()), ModelUpdated(agentId, callId, status))
    {
      if callId == "" { return; }
      runningModelCalls := runningModelCalls[ModelKey(agentId, callId) := Model(agentId, callId, status)];
      RefreshActivityPhase();
    }

    method MarkRootAgentStarted(callId: string)
      modifies this`rootCallId
      ensures Value() == Apply(old(Value()), RootCall(callId))
    {
      if callId != "" { rootCallId := callId; }
    }

    method MarkModelRequestStarted(agentId: string, callId: string, isRoot: bool)
      modifies this
      ensures var root := if isRoot then [RootCall(callId)] else [];
        Value() == Run(old(Value()), root + [ModelUpdated(agentId, callId, Requested)])
    {
      ghost var events := (if isRoot then [RootCall(callId)] else []) + [ModelUpdated(agentId, callId, Requested)];
      if isRoot && callId != "" { rootCallId := callId; }
      assert events[..|events| - 1] == if isRoot then [RootCall(callId)] else [];
      assert isRoot ==> [RootCall(callId)][..0] == [];
      assert Value() == Run(old(Value()), events[..|events| - 1]);
      UpdateModelCall(agentId, callId, Requested);
    }

    method MarkModelAttemptCompleted(agentId: string, callId: string)
      modifies this
      ensures Value() == Apply(old(Value()), ModelCompleted(agentId, callId))
    {
      runningModelCalls := runningModelCalls - {ModelKey(agentId, callId)};
      RefreshActivityPhase();
    }

    method MarkToolStarted(agentId: string, callId: string, parentCallId: string)
      modifies this
      ensures Value() == Apply(old(Value()), ToolStarted(agentId, callId, parentCallId))
    {
      if callId == "" { return; }
      var models := runningModelCalls;
      runningModelCalls := map k | k in models && (parentCallId == "" || models[k].callId != parentCallId) :: models[k];
      runningToolCalls := runningToolCalls[callId := Tool(agentId, parentCallId)];
      assert runningModelCalls == if parentCallId == "" then models else WithoutCall(models, parentCallId);
      RefreshActivityPhase();
    }

    method MarkToolFinished(callId: string)
      modifies this
      ensures Value() == Apply(old(Value()), ToolFinished(callId))
    {
      if callId == "" || callId !in runningToolCalls { return; }
      runningToolCalls := runningToolCalls - {callId};
      RefreshActivityPhase();
    }

    method MarkAgentFinished(callId: string)
      modifies this
      ensures Value() == Apply(old(Value()), AgentFinished(callId))
    {
      if callId == "" { return; }
      runningModelCalls := WithoutCall(runningModelCalls, callId);
      runningToolCalls := WithoutParent(runningToolCalls, callId);
      RefreshActivityPhase();
    }

    method HandleApprovalRequired()
      modifies this
      ensures Value() == Apply(old(Value()), ApprovalRequired)
    {
      phase := ApprovalWaiting;
    }

    method StartActiveRunRuntime()
      modifies this
      ensures Value() == OnRunStart(old(Value()))
    {
      if !(phase == ApprovalWaiting || phase == Suspended) { phase := Processing; }
      rootCallId, runningToolCalls, runningModelCalls := "", map[], map[];
    }

    method ResetActiveRunRuntime()
      modifies this
      ensures Value() == OnReset(old(Value()))
    {
      phase, rootCallId, runningToolCalls, runningModelCalls := Idle, "", map[], map[];
    }

    /** resetActiveRunPresentation, as far as it is about the activity. */
    method ResetActiveRunPresentation()
      modifies this
      ensures Value() == OnPresentationReset(old(Value()))
    {
      runningToolCalls, runningModelCalls, rootCallId := map[], map[], "";
    }

    /** The maps of a snapshot's activity. */
    method LoadActivity(tools: seq<(string, Tool)>, models: seq<Model>)
      modifies this`runningToolCalls, this`runningModelCalls
      ensures runningToolCalls == ToolsOf(tools) && runningModelCalls == ModelsOf(models)
    {
      runningToolCalls, runningModelCalls := map[], map[];
      for i := 0 to |tools|
        invariant runningToolCalls == ToolsOf(tools[..i]) && runningModelCalls == map[]
      {
        assert tools[..i + 1][..i] == tools[..i];
        runningToolCalls := runningToolCalls[tools[i].0 := tools[i].1];
      }
      assert tools[..|tools|] == tools;
      for i := 0 to |models|
        invariant runningModelCalls == ModelsOf(models[..i]) && runningToolCalls == ToolsOf(tools)
      {
        assert models[..i + 1][..i] == models[..i];
        runningModelCalls := runningModelCalls[ModelKey(models[i].agentId, models[i].callId) := models[i]];
      }
      assert models[..|models|] == models;
    }

    /** applySessionRuntime; the phase of a running snapshot is classified here once more. */
    method ApplySessionRuntime(snapshot: Snapshot, authoritative: bool)
      modifies this
      ensures Value() == OnSnapshot(old(Value()), snapshot, authoritative)
    {
      if !authoritative && snapshot.watermark.Mark? && eventWatermark.Mark? {
        if snapshot.watermark.at < eventWatermark.at { return; }
      }
      eventWatermark := snapshot.watermark;
      match snapshot.run
      case NoRun =>
        active, runId, rootCallId, phase := false, "", "", Idle;
        runningToolCalls, runningModelCalls := map[], map[];
      case ActiveRun(id, tools, models) =>
        LoadActivity(tools, models);
        if runId != id { rootCallId := ""; }
        active, runId := true, id;
        SetSnapshotPhase(snapshot);
    }

    method SetSnapshotPhase(snapshot: Snapshot)
      modifies this`phase
      ensures phase == SnapshotPhase(snapshot, old(phase), runningToolCalls, runningModelCalls)
    {
      match snapshot.state
      case WaitingInteraction => phase := ApprovalWaiting;
      case RunSuspended => phase := if snapshot.pendingInteractions > 0 then ApprovalWaiting else Suspended;
      case Resuming => phase := StartingAgent;
      case Running =>
        var toolCount, modelCount := |runningToolCalls|, |runningModelCalls|;
        phase := if toolCount > 0 && modelCount > 0 then ParallelRunning
                 else if toolCount > 0 then ToolRunning
                 else if SomeStatus(runningModelCalls, RetryWait) then Retrying
                 else if SomeStatus(runningModelCalls, Streaming) then ModelStreaming
                 else if SomeStatus(runningModelCalls, Failed) then ModelFailed
                 else if modelCount > 0 then ModelWaiting else Processing;
      case OtherState =>
    }
  }
}
