/** Conversation messages as the session-run store sees them: plain JavaScript objects,
    modelled by a map from property name to value, so that `Object.assign` is map update
    and a property that is present but undefined still overwrites. */
module TimelineMessages {

  datatype Key =
    | Role | Id | Seq | RunId | Metadata
    | ExecState | ExecutionRootCallId | ExecutionTree
    | StepsLoaded | StepsLoading | StepsLoadError
    | Finished
    | Other(name: string)

  /** The metadata entries the list edits read; the empty string stands for a falsy entry. */
  datatype Meta = Meta(runId: string, consumedByRunId: string, source: string,
                       requestId: string, agentMessage: bool, msgType: string)

  datatype Value =
    | Undefined
    | Null
    | Text(text: string)
    | Number(number: int)
    | Flag(flag: bool)
    | Record(meta: Meta)
    | Opaque(handle: nat)

  type Props = map<Key, Value>

  const NO_META := Meta("", "", "", "", false, "")
  const MAX_SAFE_INTEGER := 0x1F_FFFF_FFFF_FFFF
  const EXECUTION_KEYS := {ExecState, ExecutionRootCallId, ExecutionTree, StepsLoaded, StepsLoading, StepsLoadError}

  /** The text of a property, or "" when it is missing or not a string. */
  function TextOf(p: Props, k: Key): string {
    if k in p && p[k].Text? then p[k].text else ""
  }

  function MetaOf(p: Props): Meta {
    if Metadata in p && p[Metadata].Record? then p[Metadata].meta else NO_META
  }

  /** `Number.isSafeInteger(message?.seq)`: the message has been persisted. */
  predicate Persisted(p: Props) {
    Seq in p && p[Seq].Number? && -MAX_SAFE_INTEGER <= p[Seq].number <= MAX_SAFE_INTEGER
  }

  function SeqOf(p: Props): int {
    if Persisted(p) then p[Seq].number else 0
  }

  /** The store's getMessageRunId: the run id, else the one in the metadata, else "". */
  function RunOf(p: Props): string {
    if TextOf(p, RunId) != "" then TextOf(p, RunId) else MetaOf(p).runId
  }

  /** The dispatcher's getMessageRunId also reads the consuming run. */
  function DispatcherRunOf(p: Props): string {
    if TextOf(p, RunId) != "" then TextOf(p, RunId)
    else if MetaOf(p).consumedByRunId != "" then MetaOf(p).consumedByRunId
    else MetaOf(p).runId
  }

  predicate IsAssistant(p: Props) { TextOf(p, Role) == "assistant" }

  predicate IsUser(p: Props) { TextOf(p, Role) == "user" }

  /** A streaming assistant: the placeholder that carries a run until it is persisted. */
  predicate IsCarrier(p: Props) {
    IsAssistant(p) && !Persisted(p) && RunOf(p) != ""
  }

  /** A persisted user message of the run: everything of that run must follow it. */
  predicate IsBoundary(p: Props, run: string) {
    IsUser(p) && Persisted(p) && RunOf(p) == run
  }

  predicate IsCompactPending(p: Props) {
    MetaOf(p).msgType == "context_compression_pending"
  }

  predicate SystemSource(source: string) {
    source == "background_notification" || source == "goal_continuation"
  }

  predicate Matches(current: Props, incoming: Props) {
    || (TextOf(incoming, Id) != "" && TextOf(current, Id) == TextOf(incoming, Id))
    || (IsAssistant(incoming) && IsAssistant(current) && RunOf(incoming) != "" && RunOf(current) == RunOf(incoming))
    || (IsUser(incoming) && IsUser(current)
        && SystemSource(MetaOf(current).source) && MetaOf(current).source == MetaOf(incoming).source
        && ((RunOf(incoming) != "" && RunOf(current) == RunOf(incoming))
            || (MetaOf(incoming).requestId != "" && MetaOf(current).requestId == MetaOf(incoming).requestId)))
  }

  predicate Present(p: Props, k: Key) {
    k in p && p[k] != Undefined && p[k] != Null
  }

  predicate SameConversationRole(current: Props, incoming: Props) {
    TextOf(current, Role) == TextOf(incoming, Role) && (IsAssistant(current) || IsUser(current))
  }

  /** mergeParticipantMessage on two different objects. */
  function Merged(current: Props, incoming: Props, preserveLive: bool): (r: Props)
    ensures r.Keys == current.Keys + incoming.Keys
    ensures forall k :: k in r ==>
      r[k] == if preserveLive && SameConversationRole(current, incoming) && k in EXECUTION_KEYS && Present(current, k)
              then current[k]
              else if k in incoming then incoming[k] else current[k]
  {
    if preserveLive && SameConversationRole(current, incoming) then
      current + incoming + (map k | k in EXECUTION_KEYS && Present(current, k) :: current[k])
    else
      current + incoming
  }

  // ---- the saved identity of a message ----

  datatype Entry<T> = Unset | Set(value: T)

  /** The metadata object of a message_saved event: the entries it carries. */
  datatype MetaPatch = MetaPatch(runId: Entry<string>, consumedByRunId: Entry<string>, source: Entry<string>,
                                 requestId: Entry<string>, agentMessage: Entry<bool>, msgType: Entry<string>)

  /** A message_saved event. `id` is its message id, else its id, and `parts` and `attachments` are
      what its content parts normalize to; Undefined stands for what it does not carry. */
  datatype SavedEvent = SavedEvent(id: Value, seqNo: Value, parts: Value, attachments: Value, metadata: MetaPatch,
                                   requestId: string, runId: string, consumedByRunId: string)

  const PARTS := Other("content_parts")
  const ATTACHMENTS := Other("attachments")
  const HAS_EXECUTION := Other("has_execution")

  function Or<T>(patch: Entry<T>, value: T): T { if patch.Set? then patch.value else value }

  function Named(name: string, value: string): string { if name != "" then name else value }

  /** The metadata of the message, then that of the event, then the event's own ids. */
  function SavedMeta(m: Meta, e: SavedEvent): Meta {
    Meta(Named(e.runId, Or(e.metadata.runId, m.runId)),
         Named(e.consumedByRunId, Or(e.metadata.consumedByRunId, m.consumedByRunId)),
         Or(e.metadata.source, m.source),
         Named(e.requestId, Or(e.metadata.requestId, m.requestId)),
         Or(e.metadata.agentMessage, m.agentMessage),
         Or(e.metadata.msgType, m.msgType))
  }

  predicate Given(v: Value) { v != Undefined && v != Null }

  function Put(p: Props, k: Key, v: Value): Props { if Given(v) then p[k := v] else p }

  predicate Truthy(p: Props, k: Key) { k in p && p[k] == Flag(true) }

  function SavedIds(p: Props, e: SavedEvent): Props { Put(Put(p, Id, e.id), Seq, e.seqNo) }

  function SavedParts(p: Props, e: SavedEvent): Props {
    var filled := Put(p, PARTS, e.parts);
    if Given(e.parts) && IsUser(p) then filled[ATTACHMENTS := e.attachments] else filled
  }

  predicate HasExecution(p: Props, hasRoot: Value -> bool) {
    IsUser(p) && (Truthy(p, HAS_EXECUTION) || (ExecutionTree in p && hasRoot(p[ExecutionTree])))
  }

  function SavedBinding(p: Props, e: SavedEvent, hasRoot: Value -> bool): Props {
    var bound := p[Metadata := Record(SavedMeta(MetaOf(p), e))][HAS_EXECUTION := Flag(HasExecution(p, hasRoot))];
    if IsUser(p) then bound[Finished := Flag(true)] else bound
  }

  /** The assignments of applyMessageSaved; `hasRoot` tells whether an execution tree has a root. */
  function SavedProps(p: Props, e: SavedEvent, hasRoot: Value -> bool): Props {
    SavedBinding(SavedParts(SavedIds(p, e), e), e, hasRoot)
  }

  /** The properties that saving leaves alone. */
  predicate Untouched(p: Props, q: Props, k: Key) { (k in q <==> k in p) && (k in p ==> q[k] == p[k]) }

  lemma SavedKeeps(p: Props, e: SavedEvent, hasRoot: Value -> bool, k: Key)
    requires k !in {Id, Seq, Metadata, Finished, PARTS, ATTACHMENTS, HAS_EXECUTION}
    ensures Untouched(p, SavedProps(p, e, hasRoot), k)
  {
    SavedPartKeeps(p, e, k);
  }

  lemma PartsKeep(p: Props, e: SavedEvent, k: Key)
    requires k != PARTS && k != ATTACHMENTS
    ensures Untouched(p, SavedParts(p, e), k)
  {
  }

  lemma IdsKeep(p: Props, e: SavedEvent, k: Key)
    requires k != Id && k != Seq
    ensures Untouched(p, SavedIds(p, e), k)
  {
  }

  /** Saving gives the message the id and the number of the event, as far as it carries them. */
  lemma SavedIdentity(p: Props, e: SavedEvent, hasRoot: Value -> bool)
    ensures var q := SavedProps(p, e, hasRoot);
      && (if Given(e.id) then Id in q && q[Id] == e.id else Untouched(p, q, Id))
      && (if Given(e.seqNo) then Seq in q && q[Seq] == e.seqNo else Untouched(p, q, Seq))
  {
    PartsKeep(SavedIds(p, e), e, Id);
    PartsKeep(SavedIds(p, e), e, Seq);
  }

  /** It binds the message to the run and request of the event; a user message is finished, and
      only a user message can show an execution. */
  lemma SavedState(p: Props, e: SavedEvent, hasRoot: Value -> bool)
    ensures var q := SavedProps(p, e, hasRoot);
      && Metadata in q && q[Metadata] == Record(SavedMeta(MetaOf(p), e))
      && HAS_EXECUTION in q && q[HAS_EXECUTION] == Flag(HasExecution(p, hasRoot))
      && (if IsUser(p) then Finished in q && q[Finished] == Flag(true) else Untouched(p, q, Finished))
  {
    SavedPartKeeps(p, e, Role);
    SavedPartKeeps(p, e, Metadata);
    SavedPartKeeps(p, e, Finished);
    SavedPartKeeps(p, e, HAS_EXECUTION);
    SavedPartKeeps(p, e, ExecutionTree);
  }

  lemma SavedPartKeeps(p: Props, e: SavedEvent, k: Key)
    requires k !in {Id, Seq, PARTS, ATTACHMENTS}
    ensures Untouched(p, SavedParts(SavedIds(p, e), e), k)
  {
    IdsKeep(p, e, k);
    PartsKeep(SavedIds(p, e), e, k);
  }

  /** So a numbered event makes the message persisted, and its run is its own run id, else the
      event's, else the one it had. */
  lemma SavedRun(p: Props, e: SavedEvent, hasRoot: Value -> bool)
    ensures var q := SavedProps(p, e, hasRoot);
      && (e.seqNo.Number? && -MAX_SAFE_INTEGER <= e.seqNo.number <= MAX_SAFE_INTEGER ==>
            Persisted(q) && SeqOf(q) == e.seqNo.number)
      && (!Given(e.seqNo) ==> (Persisted(q) <==> Persisted(p)) && SeqOf(q) == SeqOf(p))
      && RunOf(q) == (if TextOf(p, RunId) != "" then TextOf(p, RunId)
                      else Named(e.runId, Or(e.metadata.runId, MetaOf(p).runId)))
  {
    SavedIdentity(p, e, hasRoot);
    SavedState(p, e, hasRoot);
    SavedKeeps(p, e, hasRoot, RunId);
  }
}
