/** What is running: the maps of running tools and model calls kept event by event, and the
    phase shown for them. */
module RunActivity {

  datatype Phase =
    | Idle | Processing | ToolRunning | ParallelRunning | Retrying | ModelStreaming | ModelFailed | ModelWaiting
    | StartingAgent | ApprovalWaiting | Suspended

  datatype ModelStatus = Requested | Waiting | Streaming | RetryWait | Failed | OtherStatus

  datatype Tool = Tool(agentId: string, parentCallId: string)

  datatype Model = Model(agentId: string, callId: string, status: ModelStatus)

  datatype RunState = WaitingInteraction | RunSuspended | Resuming | Running | OtherState

  /** The active run of a session runtime snapshot. */
  datatype ActiveRun = NoRun | ActiveRun(runId: string, tools: seq<(string, Tool)>, models: seq<Model>)

  datatype Watermark = NoMark | Mark(at: int)

  datatype Snapshot = Snapshot(run: ActiveRun, state: RunState, pendingInteractions: nat, watermark: Watermark)

  datatype State = State(active: bool, runId: string, rootCallId: string, phase: Phase,
                         tools: map<string, Tool>, models: map<string, Model>, watermark: Watermark)

  datatype Event =
    | ModelUpdated(agentId: string, callId: string, status: ModelStatus)
    | ModelCompleted(agentId: string, callId: string)
    | ToolStarted(agentId: string, callId: string, parentCallId: string)
    | ToolFinished(callId: string)
    | AgentFinished(callId: string)
    | ApprovalRequired
    | RootCall(callId: string)

  function Start(): State { State(false, "", "", Idle, map[], map[], NoMark) }

  function ModelKey(agentId: string, callId: string): string { agentId + "\0" + callId }

  predicate Locked(p: Phase) { p == ApprovalWaiting || p == Suspended }

  predicate SomeStatus(models: map<string, Model>, status: ModelStatus) {
    exists k :: k in models && models[k].status == status
  }

  /** The phase of the running tools and model calls. */
  function Classify(tools: map<string, Tool>, models: map<string, Model>): Phase {
    if |tools| > 0 && |models| > 0 then ParallelRunning
    else if |tools| > 0 then ToolRunning
    else if SomeStatus(models, RetryWait) then Retrying
    else if SomeStatus(models, Streaming) then ModelStreaming
    else if SomeStatus(models, Failed) then ModelFailed
    else if |models| > 0 then ModelWaiting
    else Processing
  }

  /** refreshActivityPhase. */
  function Refreshed(s: State): State {
    if Locked(s.phase) then s else s.(phase := Classify(s.tools, s.models))
  }

  function WithoutCall(models: map<string, Model>, callId: string): map<string, Model> {
    map k | k in models && models[k].callId != callId :: models[k]
  }

  function WithoutParent(tools: map<string, Tool>, callId: string): map<string, Tool> {
    map k | k in tools && tools[k].parentCallId != callId :: tools[k]
  }

  function Apply(s: State, e: Event): State {
    match e
    case ModelUpdated(agentId, callId, status) =>
      if callId == "" then s
      else Refreshed(s.(models := s.models[ModelKey(agentId, callId) := Model(agentId, callId, status)]))
    case ModelCompleted(agentId, callId) => Refreshed(s.(models := s.models - {ModelKey(agentId, callId)}))
    case ToolStarted(agentId, callId, parent) =>
      if callId == "" then s
      else Refreshed(s.(models := if parent == "" then s.models else WithoutCall(s.models, parent),
                        tools := s.tools[callId := Tool(agentId, parent)]))
    case ToolFinished(callId) =>
      if callId == "" || callId !in s.tools then s else Refreshed(s.(tools := s.tools - {callId}))
    case AgentFinished(callId) =>
      if callId == "" then s
      else Refreshed(s.(models := WithoutCall(s.models, callId), tools := WithoutParent(s.tools, callId)))
    case ApprovalRequired => s.(phase := ApprovalWaiting)
    case RootCall(callId) => if callId == "" then s else s.(rootCallId := callId)
  }

  function Run(s: State, events: seq<Event>): State {
    if events == [] then s else Apply(Run(s, events[..|events| - 1]), events[|events| - 1])
  }

  // ---- resets and snapshots ----

  function ToolsOf(tools: seq<(string, Tool)>): map<string, Tool> {
    if tools == [] then map[] else ToolsOf(tools[..|tools| - 1])[tools[|tools| - 1].0 := tools[|tools| - 1].1]
  }

  function ModelsOf(models: seq<Model>): map<string, Model> {
    if models == [] then map[]
    else var m := models[|models| - 1]; ModelsOf(models[..|models| - 1])[ModelKey(m.agentId, m.callId) := m]
  }

  predicate Stale(s: State, snapshot: Snapshot, authoritative: bool) {
    !authoritative && snapshot.watermark.Mark? && s.watermark.Mark? && snapshot.watermark.at < s.watermark.at
  }

  /** The phase a snapshot of an active run sets. */
  function SnapshotPhase(
    snapshot: Snapshot, before: Phase, tools: map<string, Tool>, models: map<string, Model>): Phase {
    match snapshot.state
    case WaitingInteraction => ApprovalWaiting
    case RunSuspended => if snapshot.pendingInteractions > 0 then ApprovalWaiting else Suspended
    case Resuming => StartingAgent
    case Running => Classify(tools, models)
    case OtherState => before
  }

  /** applySessionRuntime. */
  function OnSnapshot(s: State, snapshot: Snapshot, authoritative: bool): State {
    if Stale(s, snapshot, authoritative) then s
    else match snapshot.run
      case NoRun => Start().(watermark := snapshot.watermark)
      case ActiveRun(runId, tools, models) =>
        State(true, runId, if s.runId == runId then s.rootCallId else "",
              SnapshotPhase(snapshot, s.phase, ToolsOf(tools), ModelsOf(models)),
              ToolsOf(tools), ModelsOf(models), snapshot.watermark)
  }

  /** startActiveRunRuntime. */
  function OnRunStart(s: State): State {
    s.(phase := if Locked(s.phase) then s.phase else Processing, rootCallId := "", tools := map[], models := map[])
  }

  /** resetActiveRunRuntime. */
  function OnReset(s: State): State { s.(phase := Idle, rootCallId := "", tools := map[], models := map[]) }

  /** resetActiveRunPresentation: the maps are emptied before a replay, the phase is not. */
  function OnPresentationReset(s: State): State { s.(rootCallId := "", tools := map[], models := map[]) }

  // ---- the reference: the trace ----

  predicate StartsTool(e: Event, callId: string) { e.ToolStarted? && e.callId == callId && callId != "" }

  /** The finish of the tool, or of the agent call it was started under. */
  predicate EndsTool(e: Event, callId: string, parentCallId: string) {
    || (e.ToolFinished? && e.callId == callId && callId != "")
    || (e.AgentFinished? && e.callId == parentCallId && parentCallId != "")
  }

  predicate UpdatesModel(e: Event, key: string) {
    e.ModelUpdated? && e.callId != "" && ModelKey(e.agentId, e.callId) == key
  }

  /** The completion of the model call, a tool started under it, or the end of its agent. */
  predicate EndsModel(e: Event, key: string, callId: string) {
    || (e.ModelCompleted? && ModelKey(e.agentId, e.callId) == key)
    || (e.ToolStarted? && e.callId != "" && e.parentCallId != "" && e.parentCallId == callId)
    || (e.AgentFinished? && e.callId != "" && e.callId == callId)
  }

  /** The last start of the tool among the events, -1 when there is none. */
  function LastStart(events: seq<Event>, callId: string): (i: int)
    ensures -1 <= i < |events|
    ensures i >= 0 ==> StartsTool(events[i], callId)
    ensures forall j :: i < j < |events| ==> !StartsTool(events[j], callId)
  {
    if events == [] then -1
    else if StartsTool(events[|events| - 1], callId) then |events| - 1
    else LastStart(events[..|events| - 1], callId)
  }

  function LastUpdate(events: seq<Event>, key: string): (i: int)
    ensures -1 <= i < |events|
    ensures i >= 0 ==> UpdatesModel(events[i], key)
    ensures forall j :: i < j < |events| ==> !UpdatesModel(events[j], key)
  {
    if events == [] then -1
    else if UpdatesModel(events[|events| - 1], key) then |events| - 1
    else LastUpdate(events[..|events| - 1], key)
  }

  ghost predicate ToolUnended(events: seq<Event>, from: int, callId: string, parentCallId: string) {
    forall j :: 0 <= j < |events| && from < j ==> !EndsTool(events[j], callId, parentCallId)
  }

  ghost predicate ModelUnended(events: seq<Event>, from: int, key: string, callId: string) {
    forall j :: 0 <= j < |events| && from < j ==> !EndsModel(events[j], key, callId)
  }

  /** What one event does to the entry of a tool. */
  lemma StepTool(s: State, e: Event, callId: string)
    ensures var tools := Apply(s, e).tools;
      if StartsTool(e, callId) then callId in tools && tools[callId] == Tool(e.agentId, e.parentCallId)
      else
        (callId in tools <==> callId in s.tools && !EndsTool(e, callId, s.tools[callId].parentCallId))
        && (callId in tools ==> tools[callId] == s.tools[callId])
  {
    StepKeepsTools(s, e);
  }

  /** The tools after an event, whatever becomes of the phase. */
  lemma StepKeepsTools(s: State, e: Event)
    ensures Apply(s, e).tools ==
      match e
      case ToolStarted(agentId, callId, parent) =>
        if callId == "" then s.tools else s.tools[callId := Tool(agentId, parent)]
      case ToolFinished(callId) => if callId == "" then s.tools else s.tools - {callId}
      case AgentFinished(callId) => if callId == "" then s.tools else WithoutParent(s.tools, callId)
      case _ => s.tools
  {
  }

  lemma StepModel(s: State, e: Event, key: string)
    ensures var models := Apply(s, e).models;
      if UpdatesModel(e, key) then key in models && models[key] == Model(e.agentId, e.callId, e.status)
      else
        (key in models <==> key in s.models && !EndsModel(e, key, s.models[key].callId))
        && (key in models ==> models[key] == s.models[key])
  {
    StepKeepsModels(s, e);
  }

  /** The model calls after an event, whatever becomes of the phase. */
  lemma StepKeepsModels(s: State, e: Event)
    ensures Apply(s, e).models ==
      match e
      case ModelUpdated(agentId, callId, status) =>
        if callId == "" then s.models else s.models[ModelKey(agentId, callId) := Model(agentId, callId, status)]
      case ModelCompleted(agentId, callId) => s.models - {ModelKey(agentId, callId)}
      case ToolStarted(_, callId, parent) =>
        if callId == "" || parent == "" then s.models else WithoutCall(s.models, parent)
      case AgentFinished(callId) => if callId == "" then s.models else WithoutCall(s.models, callId)
      case _ => s.models
  {
  }

  /** A tool is listed iff its latest start (else its entry at the outset) is followed neither by
      its finish nor by the end of that start's agent call; its entry tells who started it. */
  lemma {:induction false} RunningToolsAreTheTrace(s: State, events: seq<Event>, callId: string)
    ensures var i := LastStart(events, callId); var tools := Run(s, events).tools;
      if i >= 0 then
        (callId in tools <==> ToolUnended(events, i, callId, events[i].parentCallId))
        && (callId in tools ==> tools[callId] == Tool(events[i].agentId, events[i].parentCallId))
      else
        (callId in tools <==> callId in s.tools && ToolUnended(events, -1, callId, s.tools[callId].parentCallId))
        && (callId in tools ==> tools[callId] == s.tools[callId])
  {
    if events != [] {
      var init, e := events[..|events| - 1], events[|events| - 1];
      RunningToolsAreTheTrace(s, init, callId);
      StepTool(Run(s, init), e, callId);
      if !StartsTool(e, callId) {
        var i := LastStart(init, callId);
        if i >= 0 {
          ToolUnendedStep(events, i, callId, events[i].parentCallId);
        } else if callId in s.tools {
          ToolUnendedStep(events, -1, callId, s.tools[callId].parentCallId);
        }
      }
    }
  }

  lemma ToolUnendedStep(events: seq<Event>, from: int, callId: string, parentCallId: string)
    requires events != [] && from < |events| - 1
    ensures ToolUnended(events, from, callId, parentCallId) <==>
      ToolUnended(events[..|events| - 1], from, callId, parentCallId)
        && !EndsTool(events[|events| - 1], callId, parentCallId)
  {
    var init := events[..|events| - 1];
    assert forall j :: 0 <= j < |init| ==> init[j] == events[j];
  }

  lemma ModelUnendedStep(events: seq<Event>, from: int, key: string, callId: string)
    requires events != [] && from < |events| - 1
    ensures ModelUnended(events, from, key, callId) <==>
      ModelUnended(events[..|events| - 1], from, key, callId) && !EndsModel(events[|events| - 1], key, callId)
  {
    var init := events[..|events| - 1];
    assert forall j :: 0 <= j < |init| ==> init[j] == events[j];
  }

  /** A model call is listed iff its latest update (else its entry at the outset) is followed
      neither by its completion, nor by a tool started under it, nor by the end of its agent
      call; its entry shows the status of that update. */
  lemma {:induction false} RunningModelsAreTheTrace(s: State, events: seq<Event>, key: string)
    ensures var i := LastUpdate(events, key); var models := Run(s, events).models;
      if i >= 0 then
        (key in models <==> ModelUnended(events, i, key, events[i].callId))
        && (key in models ==> models[key] == Model(events[i].agentId, events[i].callId, events[i].status))
      else
        (key in models <==> key in s.models && ModelUnended(events, -1, key, s.models[key].callId))
        && (key in models ==> models[key] == s.models[key])
  {
    if events != [] {
      var init, e := events[..|events| - 1], events[|events| - 1];
      RunningModelsAreTheTrace(s, init, key);
      StepModel(Run(s, init), e, key);
      if !UpdatesModel(e, key) {
        var i := LastUpdate(init, key);
        if i >= 0 {
          ModelUnendedStep(events, i, key, events[i].callId);
        } else if key in s.models {
          ModelUnendedStep(events, -1, key, s.models[key].callId);
        }
      }
    }
  }

  // ---- the phase ----

  /** The event has an identity to act on; a tool finish also needs its tool listed. */
  predicate Acts(s: State, e: Event) {
    match e
    case ModelUpdated(_, callId, _) => callId != ""
    case ModelCompleted(_, _) => true
    case ToolStarted(_, callId, _) => callId != ""
    case ToolFinished(callId) => callId != "" && callId in s.tools
    case AgentFinished(callId) => callId != ""
    case ApprovalRequired => false
    case RootCall(_) => false
  }

  predicate AnyActs(s: State, events: seq<Event>) {
    events != [] && (AnyActs(s, events[..|events| - 1]) || Acts(Run(s, events[..|events| - 1]), events[|events| - 1]))
  }

  lemma ClassifyUnlocked(tools: map<string, Tool>, models: map<string, Model>)
    ensures !Locked(Classify(tools, models))
  {
  }

  lemma StepPhase(s: State, e: Event)
    ensures var n := Apply(s, e);
      && (e == ApprovalRequired ==> n.phase == ApprovalWaiting)
      && (e != ApprovalRequired && (Locked(s.phase) || !Acts(s, e)) ==> n.phase == s.phase)
      && (!Locked(s.phase) && Acts(s, e) ==> n.phase == Classify(n.tools, n.models))
      && (!Acts(s, e) ==> n.tools == s.tools && n.models == s.models)
  {
  }

  /** The phase as the trace determines it: a locked phase stays, an approval locks it, and
      otherwise it is the classification of the maps as soon as any event acted. */
  lemma {:induction false} PhaseIsTheTrace(s: State, events: seq<Event>)
    ensures var n := Run(s, events);
      n.phase == if ApprovalRequired in events then ApprovalWaiting
                 else if !Locked(s.phase) && AnyActs(s, events) then Classify(n.tools, n.models)
                 else s.phase
  {
    if events != [] {
      var init, e := events[..|events| - 1], events[|events| - 1];
      PhaseIsTheTrace(s, init);
      StepPhase(Run(s, init), e);
      ClassifyUnlocked(Run(s, init).tools, Run(s, init).models);
      assert ApprovalRequired in events <==> ApprovalRequired in init || e == ApprovalRequired;
    }
  }

  /** Unlocked, the phase is the one a running snapshot with the same maps would set: it is so
      after such a snapshot and after the start of a run, and no event takes it away. */
  lemma PhaseMatchesSnapshot(s: State, events: seq<Event>, snapshot: Snapshot)
    requires s.phase == Classify(s.tools, s.models)
    requires snapshot.state == Running && snapshot.run.ActiveRun?
    requires var n := Run(s, events);
      !Locked(n.phase) && ToolsOf(snapshot.run.tools) == n.tools && ModelsOf(snapshot.run.models) == n.models
    ensures OnSnapshot(Run(s, events), snapshot, true).phase == Run(s, events).phase
  {
    var n := Run(s, events);
    PhaseIsTheTrace(s, events);
    if !AnyActs(s, events) { NothingActs(s, events); }
    ClassifyUnlocked(s.tools, s.models);
    assert n.phase == Classify(n.tools, n.models);
    assert SnapshotPhase(snapshot, n.phase, n.tools, n.models) == Classify(n.tools, n.models);
  }

  lemma {:induction false} NothingActs(s: State, events: seq<Event>)
    requires !AnyActs(s, events)
    ensures Run(s, events).tools == s.tools && Run(s, events).models == s.models
  {
    if events != [] {
      NothingActs(s, events[..|events| - 1]);
      StepPhase(Run(s, events[..|events| - 1]), events[|events| - 1]);
    }
  }

  lemma ClassifiedAtStart(s: State, snapshot: Snapshot)
    ensures !Locked(s.phase) ==> OnRunStart(s).phase == Classify(OnRunStart(s).tools, OnRunStart(s).models)
    ensures !Stale(s, snapshot, false) && snapshot.run.ActiveRun? && snapshot.state == Running ==>
      var n := OnSnapshot(s, snapshot, false); n.phase == Classify(n.tools, n.models)
  {
  }

  // ---- resets ----

  /** After a reset, a start of a run or a reset for replay, only what happens from then on
      counts: a tool or model call is listed iff its latest start or update is unended. */
  lemma OnlyEventsSinceResetCount(s: State, reset: State, events: seq<Event>, callId: string, key: string)
    requires reset == OnReset(s) || reset == OnRunStart(s) || reset == OnPresentationReset(s)
    ensures var tools := Run(reset, events).tools; var i := LastStart(events, callId);
      callId in tools <==> i >= 0 && ToolUnended(events, i, callId, events[i].parentCallId)
    ensures var models := Run(reset, events).models; var i := LastUpdate(events, key);
      key in models <==> i >= 0 && ModelUnended(events, i, key, events[i].callId)
  {
    RunningToolsAreTheTrace(reset, events, callId);
    RunningModelsAreTheTrace(reset, events, key);
  }

  /** A reset unlocks the phase, where the start of a run does not: after a reset the phase is
      idle until an event acts, and from then on the classification of the maps, whatever it
      was before; an approval locks it again. */
  lemma ResetUnlocks(s: State, events: seq<Event>)
    ensures var n := Run(OnReset(s), events);
      n.phase == if ApprovalRequired in events then ApprovalWaiting
                 else if AnyActs(OnReset(s), events) then Classify(n.tools, n.models)
                 else Idle
  {
    PhaseIsTheTrace(OnReset(s), events);
  }

  lemma StartKeepsLock(s: State, events: seq<Event>)
    requires Locked(s.phase) && ApprovalRequired !in events
    ensures Run(OnRunStart(s), events).phase == s.phase
  {
    PhaseIsTheTrace(OnRunStart(s), events);
  }

  /** After a reset for replay the phase stays what it was until an event acts on an unlocked
      phase, although the maps are empty. */
  lemma ReplayKeepsPhase(s: State, events: seq<Event>)
    ensures var n := Run(OnPresentationReset(s), events);
      n.phase == if ApprovalRequired in events then ApprovalWaiting
                 else if !Locked(s.phase) && AnyActs(OnPresentationReset(s), events) then Classify(n.tools, n.models)
                 else s.phase
  {
    PhaseIsTheTrace(OnPresentationReset(s), events);
  }

  /** So right after it the phase is the classification of the maps, as a running snapshot would
      set it, iff nothing was running before. */
  lemma PhaseStaleAfterReplayResetIff(s: State)
    requires s.phase == Classify(s.tools, s.models)
    ensures var n := OnPresentationReset(s);
      n.phase == Classify(n.tools, n.models) <==> s.tools == map[] && s.models == map[]
  {
  }

  ghost predicate NoneFrom(tools: seq<(string, Tool)>, from: nat, callId: string) {
    forall j :: from <= j < |tools| ==> tools[j].0 != callId
  }

  /** What a snapshot lists is what is listed after it: the last entry of each id. */
  lemma {:induction false} SnapshotTools(tools: seq<(string, Tool)>, callId: string)
    ensures callId in ToolsOf(tools) <==> exists i :: 0 <= i < |tools| && tools[i].0 == callId
    ensures callId in ToolsOf(tools) ==>
      exists i :: 0 <= i < |tools| && tools[i] == (callId, ToolsOf(tools)[callId]) && NoneFrom(tools, i + 1, callId)
  {
    if tools != [] {
      var init, last := tools[..|tools| - 1], tools[|tools| - 1];
      SnapshotTools(init, callId);
      assert forall i :: 0 <= i < |init| ==> init[i] == tools[i];
      if last.0 == callId {
        assert tools[|tools| - 1] == (callId, ToolsOf(tools)[callId]);
      } else if callId in ToolsOf(init) {
        var i :| 0 <= i < |init| && init[i] == (callId, ToolsOf(init)[callId]) && NoneFrom(init, i + 1, callId);
        assert tools[i] == (callId, ToolsOf(tools)[callId]);
      }
    }
  }
}
