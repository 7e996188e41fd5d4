# Verified models of the session client, plugin manager, sandbox leases and tool router

A Dafny 4.11 project that models the stateful core of the repository and proves what its parts
are for. Each component has a specification module (states, events, `Apply`, `Run`, and the
theorems over every run) and, where the source updates objects in place, a class whose methods
are proved against that specification.

| component | specification | implementation |
|---|---|---|
| conversation timeline and its cursor | TimelineMessages, TimelineSort, TimelineReconcile, TimelineEdits | TimelineStore |
| plugin order, lifecycle and rollback | PluginOrder, PluginLifecycle, PluginDependencies | the classes and methods in the same files |
| sandbox lease store | LeaseProtocol | LeaseStore |
| frame-batched execution projection | StreamProjection | StreamProjector |
| session cache-token accounting | CacheTokens | `ContextUsageReducer` in CacheTokens |
| optimistic session list | SessionList | SessionListStore |
| message loading and its fences | MessageLoads | MessageLoader |
| follow-up receipts and their recovery | Followups | FollowupStore |
| running tools, model calls and the phase | RunActivity | RunRuntime |
| rows of the execution tree | ActionRows | the methods in the same file |
| file browser tree | FileTree | the methods in the same file |
| tool router | ToolRouting | ToolRouter |

The modules named `…Laws` (TimelineLaws, LeaseLaws, StreamLaws, CacheLaws, SessionLaws, LoadLaws,
FollowupLaws, ActivityLaws, RowLaws, FileLaws, RoutingLaws, PluginLaws) say what each of these does
in terms of the stored properties, events and ids; the operations they are about use none of the
vocabulary that these modules define.

Sequences, KeyedLists, StableSort and Text hold the array, map, sort and string operations the
models share. `dafny verify dfyconfig.toml` checks everything.

## How the models are built

- A JavaScript object whose identity matters (a message in a list) is a class object, or an
  uninterpreted identity with its properties in a map; `Object.assign` and spread are map update.
- Asynchronous code is cut at its awaits: each event of a model is one atomic step, and the
  theorems quantify over all sequences of events. What a function keeps across an await is a
  value (`Request`, `Ticket`, `Refresh`) that its later steps are given back.
- Network responses, timers, clocks, plugin callbacks and engine results are event parameters.
  `Date.parse`, `localeCompare`, icon and subtitle tables, and message reconciliation inside the
  loader are function parameters; the collation is any real-valued rank of strings.
- A falsy string or id is the empty string. Counters that are not finite are read as 0.

## Where the code does not have the expected property

Each of these is a lemma with the exact condition, and most have a concrete instance beside it:

- An application runtime is disposed twice when its first start failed and the handle was
  disposed either before that or after a rollback that threw (`AppDisposals`).
- While the lease store is closing, a destroy that fails after the lease's timer has fired leaves
  the lease with neither timer nor destroy (`FailedDestroyLeaves`, `ForgetsIff`; `ClosingForgets`
  is a run that ends so).
- A replay drops the frames still queued; that shows iff the root call is not known yet and a
  queued frame names it (`ReplayIgnoresQueueIff`, with an instance in `ReplayBeforeRootIsKnown`).
- A reset for a replay leaves the queued frames, which then go into the rebuilt tree as well:
  that tree is the expected one iff nothing was queued (`ReplayAfterResetIff`). It also leaves the
  phase, which is then out of date iff something was running (`PhaseStaleAfterReplayResetIff`).
- When the usage is reloaded during a run with what the run's baseline stands at, the run is
  counted exactly once iff its replayed reports end where the baseline stood
  (`ReplayedThenLiveCountsOnceIff`; `CountedOnceIff` is the condition for every history and every
  amount counted before). Otherwise the difference is counted twice or not at all.
- Input tokens before the first cache hit are not retained (`InputBeforeFirstHit`).
- Removing the compaction dividers moves the index on when it stands on a divider itself
  (`RemovePendingCursor`, `StaleCursorMovesOn`). Dividers are system rows and the index is only
  ever aimed at assistants, so this takes an index left over from a list that was replaced
  without re-aiming it.
- Consumed receipts are removed after the reload even while their entry mutates
  (`ConsumedEntry`, with a run that ends so in `ConsumedWhileMutating`); only the status loop is
  free of that race (`RefreshSparesMutations`).
- Disconnecting a socket drops sessions that have since moved to another one
  (`MovedSessionLosesItsRoute`, `DisconnectDropsOnlyItsRoutesIff`).
- A tool call whose `send` throws is rejected but stays pending until its timer fires
  (`PendingIffUnsettled`).
- A path that is listed first as a file and then as a directory hides what lies below it
  (`AllListedIff`, with an instance in `FileHidesBelow`).
- A group row shows success although some of its nodes were stopped or are pending
  (`GroupStatus`).

## Model

| member | source | states |
|---|---|---|
| `TimelineSort.SortPermutes` | frontend-client/src/stores/session-run.js:95-129 | sorting never adds, drops or duplicates a message |
| `TimelineSort.SortOrders` | frontend-client/src/stores/session-run.js:95-129 | persisted messages come out in ascending sequence order, every streaming assistant stands behind all persisted user messages of its run however many assistants are relocated one after another, and rows that are not relocated keep their order |
| `TimelineSort.SortIsStable` | frontend-client/src/stores/session-run.js:96-98 | messages with equal sequence numbers keep the order they had |
| `TimelineSort.RelocatedCarriersHug` | frontend-client/src/stores/session-run.js:107-127 | a relocated assistant lands right behind the last user boundary of its run, separated from it only by assistants of that run relocated later |
| `TimelineSort.SortFixesOrdered` | frontend-client/src/stores/session-run.js:95-129 | a list already in order with every assistant in place is left alone |
| `TimelineSort.SortIdempotent` | frontend-client/src/stores/session-run.js:95-129 | sorting twice equals sorting once |
| `TimelineStore.FillSlots` | frontend-client/src/stores/session-run.js:99-102 | the canonical rows are dealt out to the slots of the persisted rows, left to right |
| `TimelineStore.SortParticipantMessages` | frontend-client/src/stores/session-run.js:95-129 | the splicing loop computes the sort that the lemmas of TimelineSort describe |
| `TimelineMessages.Merged` | frontend-client/src/stores/session-run.js:76-93 | what every property is after a merge: the current one for execution fields that are present on a message of the same conversation role, else the incoming one, else the current one |
| `TimelineMessages.SavedIdentity` | frontend-client/src/composables/sessionEnvelopeDispatcher.js:186-188 | a saved message takes the id and the number the event carries |
| `TimelineMessages.SavedState` | frontend-client/src/composables/sessionEnvelopeDispatcher.js:193-205 | its metadata is bound to the event's run and request; a user message is finished, and only a user message shows an execution |
| `TimelineMessages.SavedRun` | frontend-client/src/composables/sessionEnvelopeDispatcher.js:186-201 | a numbered event makes it persisted; its run is its own run id, else the event's, else the one it had |
| `TimelineMessages.SavedKeeps` | frontend-client/src/composables/sessionEnvelopeDispatcher.js:184-205 | every other property is left alone |
| `TimelineReconcile.ClaimsInjective` | frontend-client/src/stores/session-run.js:459-466 | no current message is claimed by two page rows |
| `TimelineReconcile.ReconcileAccounts` | frontend-client/src/stores/session-run.js:455-468 | the result holds one entry per page row and every unclaimed message without a sequence number, and nothing else |
| `TimelineReconcile.ReconcileDrops` | frontend-client/src/stores/session-run.js:459-468 | a current message is dropped iff no row claims it, it is persisted and the page does not carry that very object unmatched |
| `TimelineReconcile.FreshPageClaims` | frontend-client/src/stores/session-run.js:459-466 | each page row claims the first matching message that no earlier row claimed, is merged into it, and leaves the rest untouched |
| `TimelineReconcile.ClaimKeepsLiveExecution` | frontend-client/src/stores/session-run.js:76-93 | a claimed message of the same role keeps its non-null live execution fields and takes every other property of the row |
| `TimelineReconcile.UnclaimedUntouched` | frontend-client/src/stores/session-run.js:459-466 | messages no row claims keep their properties |
| `TimelineReconcile.ReconcileDistinct` | frontend-client/src/stores/session-run.js:455-475 | reconciling with a page of fresh objects never puts a message in the list twice |
| `TimelineEdits.StepKeepsCursor` | frontend-client/src/stores/session-run.js:469-508 | one edit keeps the cursor on the same message object iff it does not remove that object; only a reconcile, which clears the cursor, and the removal of transient rows can |
| `TimelineEdits.ReconcileLoses` | frontend-client/src/stores/session-run.js:469-473 | a reconcile clears the cursor iff the designated message is unclaimed, persisted and not itself on the page |
| `TimelineEdits.RemovePendingCursor` | frontend-client/src/composables/sessionEventReducer.js:15-21 | removing the transient rows keeps the cursor on its message iff that message is not transient |
| `TimelineEdits.PendingRemovedKeeps` | frontend-client/src/composables/sessionEventReducer.js:15-21 | removing the transient rows removes exactly these, keeps the others in order and moves the cursor to the number of rows kept before it |
| `TimelineEdits.StaleCursorMovesOn` | frontend-client/src/composables/sessionEventReducer.js:15-21 | the witness: with the index on a transient row the removal hands it to the row behind |
| `TimelineEdits.OrdinaryMessageKeepsCursor` | frontend-client/src/stores/session-run.js:499-508 | streaming, re-sorting, inserting and removing transient rows, in any sequence, keep the cursor on a message that is not transient |
| `TimelineEdits.RunKeepsCursor` | frontend-client/src/stores/session-run.js:455-508 | over every sequence of edits the cursor designates the same message object until an edit removes it; when that is a reconcile it stays cleared |
| `TimelineEdits.SortingEditsOrder` | frontend-client/src/stores/session-run.js:468-508 | every edit that sorts leaves the order theorem true of the properties after the edit |
| `TimelineEdits.SavedMessagePrecedesCarriers` | frontend-client/src/composables/sessionEnvelopeDispatcher.js:184-206 | once a user message is saved under a safe number, every streaming assistant of its run stands behind it |
| `TimelineEdits.RunKeepsDistinct` | frontend-client/src/stores/session-run.js:455-508 | no sequence of edits bringing fresh objects puts a message in the list twice |
| `TimelineStore.SessionRunStore.ReconcileParticipantMessages` | frontend-client/src/stores/session-run.js:455-475 | claims, merges in place, sorts and re-aims the cursor as the model of the edit says |
| `TimelineStore.SessionRunStore.UpsertParticipantMessage` | frontend-client/src/stores/session-run.js:477-497 | merges into the matching message, inserts an agent message before the carrier of its run, or appends; then sorts and re-aims |
| `TimelineStore.SessionRunStore.ReorderParticipantMessages` | frontend-client/src/stores/session-run.js:499-508 | sorts the list and re-aims the cursor |
| `TimelineStore.SessionRunStore.InsertNewRunUserMessage` | frontend-client/src/composables/sessionEnvelopeDispatcher.js:164-181 | inserts before the assistant of the run or the unfinished active assistant and shifts the cursor |
| `TimelineStore.Message.SaveIdentity` | frontend-client/src/composables/sessionEnvelopeDispatcher.js:186-205 | the assignments write the saved identity into the message |
| `TimelineStore.SessionRunStore.ApplyMessageSaved` | frontend-client/src/composables/sessionEnvelopeDispatcher.js:184-206 | writes the saved identity into the message and re-sorts the root list iff it is then persisted; the lists of other participants stay |
| `TimelineStore.SessionRunStore.ClaimRow` | frontend-client/src/stores/session-run.js:459-466 | one turn of the claiming loop: the row claims the first unclaimed match and is merged into it, or stays |
| `TimelineStore.SessionRunStore.FindInsertionPoint` | frontend-client/src/composables/sessionEnvelopeDispatcher.js:165-173 | the assistant of the run, else the active assistant while it is unfinished, else none |
| `TimelineStore.SessionRunStore.RemoveCompactPendingMessages` | frontend-client/src/composables/sessionEventReducer.js:15-21 | the reverse splice loop removes the transient rows and corrects the cursor; the lists of other participants stay |
| `TimelineStore.SessionRunStore.ShowCompactPending` | frontend-client/src/composables/sessionEventReducer.js:176-184 | appends one compaction divider to the root list unless one stands there |
| `TimelineLaws.SortedByNumber` | frontend-client/src/stores/session-run.js:95-129 | the stored sequence numbers ascend and no persisted user message stands behind a streaming assistant of its run |
| `TimelineLaws.SortFixesIff` | frontend-client/src/stores/session-run.js:95-129 | sorting leaves a list alone iff that is so already |
| `TimelineLaws.DisplacedFollowsBoundary` | frontend-client/src/stores/session-run.js:107-127 | where the numbers ascend, a displaced assistant ends up behind the last persisted user message of its run with only assistants of that run between |
| `TimelineLaws.EachIsRelocated` | frontend-client/src/stores/session-run.js:107-127 | the loop relocates the streaming assistants one after another |
| `TimelineLaws.EditsSortByNumber` | frontend-client/src/stores/session-run.js:468-508 | every sorting edit leaves the list ascending, with the assistants behind, by the properties after the edit |
| `TimelineLaws.FreshRowClaims` | frontend-client/src/stores/session-run.js:58-74 | a page row claims index x iff x is the first unclaimed message with its id, or an assistant of its run, or a system row of its source with its run or request |
| `TimelineLaws.FreshPageDrops` | frontend-client/src/stores/session-run.js:459-468 | a fresh page drops exactly the numbered messages no row claims |
| `TimelineLaws.ReloadKeepsObject` | frontend-client/src/stores/session-run.js:455-475 | a message that one row is a record of, and no other, stays the same object, with the row written into it and its live execution kept |
| `TimelineLaws.MergedMeans` | frontend-client/src/stores/session-run.js:76-93 | which record each property comes from when one record is written into another |
| `TimelineLaws.KnownMessageIsMerged` | frontend-client/src/stores/session-run.js:481-485 | an upsert of a known message is written into the first row it is a record of |
| `TimelineLaws.NewMessageIsPlaced` | frontend-client/src/stores/session-run.js:486-491 | a new message from an agent goes before the first assistant of its run, any other to the end |
| `TimelineLaws.UpsertLengthens` | frontend-client/src/stores/session-run.js:477-497 | an upsert lengthens the list iff no row is a record of the message |
| `TimelineLaws.NewRunMessageIsPlaced` | frontend-client/src/composables/sessionEnvelopeDispatcher.js:164-181 | before the first assistant bound to the run, else before the unfinished active assistant, else at the end |
| `TimelineLaws.DividersGo` | frontend-client/src/composables/sessionEventReducer.js:15-21 | exactly the rows whose metadata marks them as compaction dividers go |
| `TimelineLaws.SavedEntries` | frontend-client/src/composables/sessionEnvelopeDispatcher.js:193-205 | each metadata entry after saving, and whether the message shows an execution |
| `TimelineLaws.SavedContents` | frontend-client/src/composables/sessionEnvelopeDispatcher.js:186-192 | the id, number, content parts and attachments are those the event carries |
| `TimelineLaws.SavedLeavesTheRest` | frontend-client/src/composables/sessionEnvelopeDispatcher.js:186-205 | what the event does not carry stays, and so does everything saving does not write |
| `TimelineLaws.PushedAtTheEnd` | frontend-client/src/composables/sessionEventReducer.js:176-184 | a message pushed stands at the end and moves nothing |
| `TimelineLaws.TouchesMeans` | frontend-client/src/stores/session-run.js:455-508 | which edits can take the cursor off an ordinary message |
| `PluginOrder.OrderPlugins` | backend-core/src/plugins/plugin-manager.ts:655-680 | succeeds iff ids are non-empty and distinct, every requirement is installed and no plugin is on a dependency cycle; returns every plugin once with its requirements before it; leaves a list already in order alone; each error it reports is real |
| `PluginOrder.IndexById` | backend-core/src/plugins/plugin-manager.ts:656-662 | reports the first empty or repeated id, else maps exactly the ids to their plugins |
| `PluginOrder.Visitor.Visit` | backend-core/src/plugins/plugin-manager.ts:667-677 | visits a plugin after its requirements, keeping the visited plugins ordered dependencies first; an error explains itself by a gap or a cycle |
| `PluginOrder.OrderedIsAcyclic` | backend-core/src/plugins/plugin-manager.ts:664-679 | plugins in an order with requirements first have no dependency cycle |
| `PluginLifecycle.DisposeAll` | backend-core/src/plugins/plugin-manager.ts:631-653 | every runtime is disposed exactly once in reverse order, continuing past errors, which are all collected |
| `PluginLifecycle.CreateRuntimes` | backend-core/src/plugins/plugin-manager.ts:360-399 | fails iff a factory throws or a capability is provided twice; a failure disposes all earlier runtimes once in reverse order, and is an aggregate iff one of those disposals throws |
| `PluginLifecycle.RuntimeHandle.Dispose` | backend-core/src/plugins/plugin-manager.ts:385-389 | however often the handle is disposed, each of its runtimes is disposed once |
| `PluginLifecycle.AppDisposals` | backend-core/src/plugins/plugin-manager.ts:444-463 | over every sequence of starts and disposes each application runtime is disposed once for a failed first start and once for a dispose that no clean rollback preceded, so at most twice |
| `PluginLifecycle.AppDisposedOnceIff` | backend-core/src/plugins/plugin-manager.ts:444-463 | one start and then one dispose dispose each runtime once, except twice when the start failed and its own rollback threw |
| `PluginLifecycle.LifecycleBalances` | backend-core/src/plugins/plugin-manager.ts:585-628 | over every sequence of starts and stops and every failure pattern, each stop closes the most recent start still open, and the open starts are the plugins believed started |
| `PluginLifecycle.FailedStartRollsBack` | backend-core/src/plugins/plugin-manager.ts:585-598 | a failed start stops, in reverse order, exactly the plugins whose start was attempted, including the one that threw |
| `PluginLifecycle.StoppedLeaveNothing` | backend-core/src/plugins/plugin-manager.ts:600-619 | after a stop a registry holds no contribution of a stopped plugin and has lost no other |
| `PluginLaws.IdsAreTrimmed` | backend-core/src/plugins/plugin-manager.ts:656-657 | a plugin goes by its declared id without the white space around it |
| `PluginLaws.CreationSucceedsIff` | backend-core/src/plugins/plugin-manager.ts:360-399 | runtimes are created iff no factory throws and no capability is provided twice |
| `PluginLaws.CreatedUpToFirstThrow` | backend-core/src/plugins/plugin-manager.ts:360-399 | a failed creation disposes of the runtimes made before the first throw |
| `PluginLaws.StartActs` | backend-core/src/plugins/plugin-manager.ts:444-463 | the first start starts runtimes up to the first that throws, then disposes all; later starts do nothing |
| `PluginLaws.DisposeActs` | backend-core/src/plugins/plugin-manager.ts:444-463 | the first dispose disposes all runtimes last first, and throws iff one of them does |
| `PluginLaws.StoppingActs` | backend-core/src/plugins/plugin-manager.ts:600-619 | every started plugin is stopped, the last first |
| `PluginLaws.StartingActs` | backend-core/src/plugins/plugin-manager.ts:585-598 | when nothing and when everything is started |
| `PluginLaws.FailingActs` | backend-core/src/plugins/plugin-manager.ts:585-598 | when one plugin throws, it and those before it are started and stopped again, the last first |
| `PluginLaws.RunTakesEachStep` | backend-core/src/plugins/plugin-manager.ts:585-628 | a run takes its starts and stops one after another |
| `PluginLaws.FirstStartMeans` | backend-core/src/plugins/plugin-manager.ts:444-447 | the start that counts is the first |
| `PluginLifecycle.ContributionRegistry.RemovePlugin` | backend-core/src/plugins/plugin-manager.ts:401-405 | the reverse splice loop removes exactly the contributions of the plugin, keeping order |
| `PluginLifecycle.PluginManager.StopPlugins` | backend-core/src/plugins/plugin-manager.ts:600-628 | stops the started plugins in reverse, clears their contributions from all eight registries even when stops throw, disposes the application runtime, and throws iff something threw |
| `PluginLifecycle.PluginManager.Launch` | backend-core/src/plugins/plugin-manager.ts:588-593 | starts the application runtime and then the plugins in order, up to the first that throws |
| `PluginLifecycle.PluginManager.StartPlugins` | backend-core/src/plugins/plugin-manager.ts:585-598 | starts in order; a failure rolls back as stop does, clearing the contributions of the attempted plugins; otherwise no registry changes |
| `PluginDependencies.RunKeepsOrder` | backend-core/src/plugins/plugin-manager.ts:585-619 | in every run of starts and stops the plugins running are at every moment a front part of the order |
| `PluginDependencies.DependenciesOutliveDependents` | backend-core/src/plugins/plugin-manager.ts:585-680 | with the order orderPlugins returns, in every run and under every failure pattern a plugin starts only while everything it requires runs and stops only after everything that requires it has stopped |
| `LeaseProtocol.RunKeepsInv` | sandbox-service/src/lease-store.ts:15-76 | the invariants hold after every interleaving of creates, requires, destroys, handlers, timers and shutdown |
| `LeaseProtocol.LeaseSafety` | sandbox-service/src/lease-store.ts:15-33 | at every await boundary leases plus pending creates fit the capacity, the engine has at most one destroy in flight per id, and every sandbox created and not destroyed is in the lease map |
| `LeaseProtocol.NoForgottenLease` | sandbox-service/src/lease-store.ts:45-70 | while the store is open every lease has an armed timer or a destroy under way, and timers are armed for leases only |
| `LeaseProtocol.GrantedLeaseIsLive` | sandbox-service/src/lease-store.ts:35-43 | require hands out only leases that are unexpired, not being destroyed and not destroyed |
| `LeaseLaws.HandedOutIff` | sandbox-service/src/lease-store.ts:35-43 | over every run a sandbox is handed out iff it was created with an expiry still to come, is not destroyed and no destroy of it is under way |
| `LeaseLaws.RequireActs` | sandbox-service/src/lease-store.ts:35-43 | requiring such a sandbox changes nothing; requiring one whose expiry has passed leaves its destroy begun |
| `LeaseLaws.CreatedIff` | sandbox-service/src/lease-store.ts:22-29 | the expiry of a lease is the one its creation was answered with, and never moves |
| `LeaseLaws.CreateAdmittedIff` | sandbox-service/src/lease-store.ts:15-20 | a create takes a place iff the store is open and has room |
| `LeaseLaws.CreateGivesPlaceBack` | sandbox-service/src/lease-store.ts:30-32 | its answer gives the place back |
| `LeaseLaws.ClosedForGood` | sandbox-service/src/lease-store.ts:15-16 | a closed store stays closed and lets no create through |
| `LeaseLaws.ClosingDestroysAll` | sandbox-service/src/lease-store.ts:72-76 | closing begins a destroy for every lease that had none |
| `LeaseLaws.FailureRearms` | sandbox-service/src/lease-store.ts:56-65 | a failed destroy leaves the lease, with a new timer in place of the old unless the store is closing |
| `LeaseLaws.MayHappen` | sandbox-service/src/lease-store.ts:46-70 | which answers, handlers and timers may come next in the model of the world |
| `LeaseProtocol.DestroyedForGood` | sandbox-service/src/lease-store.ts:45-70 | a destroyed sandbox is never destroyed again and never handed out |
| `LeaseProtocol.FailedDestroyLeaves` | sandbox-service/src/lease-store.ts:55-67 | in every reachable state a failed destroy leaves the lease in the map, with an armed timer iff the store was open or its old timer had not fired |
| `LeaseProtocol.ForgetsIff` | sandbox-service/src/lease-store.ts:55-67 | the only step that leaves a lease with neither timer nor destroy is the last handler of its destroy, and it does so iff that failed while closing after the timer had fired |
| `LeaseProtocol.ClosingForgets` | sandbox-service/src/lease-store.ts:55-64 | the witness: a run from a new store that ends in such a state |
| `LeaseStore.SandboxLeaseStore.CreateBegin` | sandbox-service/src/lease-store.ts:15-20 | admits a create iff the store is open and has capacity, reserving a place |
| `LeaseStore.SandboxLeaseStore.CreateResolves` | sandbox-service/src/lease-store.ts:22-32 | arms the expiry timer, stores the lease and releases the reservation |
| `LeaseStore.SandboxLeaseStore.Require` | sandbox-service/src/lease-store.ts:35-43 | returns the lease iff it may be granted; an expired one is destroyed instead |
| `LeaseStore.SandboxLeaseStore.Destroy` | sandbox-service/src/lease-store.ts:45-70 | starts one engine destroy per id and lease |
| `LeaseStore.SandboxLeaseStore.ThenHandler` | sandbox-service/src/lease-store.ts:51-54 | removes the lease and clears its timer |
| `LeaseStore.SandboxLeaseStore.CatchHandler` | sandbox-service/src/lease-store.ts:55-64 | re-arms the timer for a retry unless closing |
| `LeaseStore.SandboxLeaseStore.CloseAll` | sandbox-service/src/lease-store.ts:72-76 | closes and begins a destroy for each lease held when it was called |
| `StreamProjection.FlushIsDirect` | frontend-client/src/composables/useMessageExecution.js:268-274 | applying a queue and publishing once equals applying and publishing each event |
| `StreamProjection.RunInStep` | frontend-client/src/composables/useMessageExecution.js:256-305 | over every run, replays and session switches included, what was applied followed by what is queued is the arrival order |
| `StreamProjection.RunSchedules` | frontend-client/src/composables/useMessageExecution.js:283-301 | a non-empty queue always has a frame scheduled, and queues hold only delta and reasoning-delta frames |
| `StreamProjection.BatchedRefinesDirect` | frontend-client/src/composables/useMessageExecution.js:256-305 | flushing what is queued always gives the state and published tree of the version that applies every event on arrival |
| `StreamProjection.FlushPoints` | frontend-client/src/composables/useMessageExecution.js:268-305 | after a frame, a flush, the end of the scope or an event that is not a delta, nothing is queued |
| `StreamProjection.NoFramesNoQueues` | frontend-client/src/composables/useMessageExecution.js:283-288 | where frames cannot be requested, nothing is queued in any run |
| `StreamProjection.NoFramesIsDirect` | frontend-client/src/composables/useMessageExecution.js:283-288 | and every message is where applying each event on arrival puts it |
| `StreamLaws.RootIsFirstTold` | frontend-client/src/composables/useMessageExecution.js:215-236 | the root call is the one known before, else the call of the first agent-level event of the run that tells it |
| `StreamLaws.FedAsTheyCame` | frontend-client/src/composables/useMessageExecution.js:237-248 | every envelope is fed as it came, but for those of the root call, which lose the link to the caller |
| `StreamLaws.BatchedFeedsAsTheyCame` | frontend-client/src/composables/useMessageExecution.js:256-305 | the same of every batched run from an empty message |
| `StreamLaws.OnlyDeltasWait` | frontend-client/src/composables/useMessageExecution.js:295-305 | text and thought deltas wait behind those before them; everything else is applied after them at once |
| `StreamLaws.NothingWaitsWithoutFrames` | frontend-client/src/composables/useMessageExecution.js:283-288 | without frames every envelope is applied on arrival |
| `StreamLaws.OneFrameAtATime` | frontend-client/src/composables/useMessageExecution.js:278-293 | over every run no frame is owed but the one on record, where frames can be withdrawn |
| `StreamLaws.FrameForgotten` | frontend-client/src/composables/useMessageExecution.js:500-511 | a session switch and the end of the scope forget the frame and empty the queues; the switch applies nothing |
| `StreamLaws.ReplayAndResetAct` | frontend-client/src/composables/useMessageExecution.js:328-334 | a replay shows what its history builds from nothing and drops the queue; a reset shows nothing and keeps it |
| `StreamProjection.ReplayIgnoresQueueIff` | frontend-client/src/composables/useMessageExecution.js:328-333 | whatever history a replay brings, dropping the queue gives what it would give had every queued frame been applied, iff the root call is known or no queued frame names it |
| `StreamProjection.ReplayBeforeRootIsKnown` | frontend-client/src/composables/useMessageExecution.js:229-237 | the witness: a dropped frame that names the root call, and a history whose tree then differs |
| `StreamProjection.ReplayAfterResetIff` | frontend-client/src/composables/useRunRuntime.js:297-309 | after a reset for a replay, the replayed events give what the version without queues gives iff no frame was queued at the reset |
| `StreamProjection.ResetKeepsQueue` | frontend-client/src/composables/useRunRuntime.js:297-309 | frames left in the queue at a reset are fed into the new tree before the replayed events |
| `StreamProjector.Message.ProjectEnvelope` | frontend-client/src/composables/useMessageExecution.js:215-248 | identifies the root call of the run and strips the external parent from its lineage |
| `StreamProjector.MessageExecution.FlushMessageStreamEvents` | frontend-client/src/composables/useMessageExecution.js:268-274 | applies the queue of one message in order and publishes once |
| `StreamProjector.MessageExecution.ScheduleStreamFlush` | frontend-client/src/composables/useMessageExecution.js:283-293 | asks for one frame, or flushes at once without frames |
| `StreamProjector.MessageExecution.ApplyEnvelopeToMessage` | frontend-client/src/composables/useMessageExecution.js:295-305 | queues a delta, and flushes the queue before anything else |
| `CacheTokens.CacheTotalsConserved` | frontend-client/src/composables/sessionEventReducer.js:92-160 | after any interleaving of root and child reports, whatever earlier totals replays deliver in between and whatever the baselines stood at, the cached and creation totals are the initial totals plus the live growth of every run |
| `CacheTokens.GrowthIsSumOfLast` | frontend-client/src/composables/sessionEventReducer.js:98-110 | when all reports are live, the growth of each counter is the sum of the last totals of the runs less what their baselines stood at, however they interleave |
| `CacheTokens.GrowthAndMovesAreLast` | frontend-client/src/composables/sessionEventReducer.js:98-110 | with replays: the initial baselines, the live growth and what replays and ends moved the baselines add up to the last totals of the runs |
| `CacheTokens.LastIsGrowthAndMoves` | frontend-client/src/composables/sessionEventReducer.js:98-110 | the same run by run: a run stands at its initial baseline plus its live growth plus what the rest moved it |
| `CacheTokens.GrowthByRun` | frontend-client/src/composables/sessionEventReducer.js:98-121 | the live growth of the session is the sum of the growth of its runs, however their reports interleave |
| `CacheTokens.CountedOnceIff` | frontend-client/src/composables/sessionEventReducer.js:105-110 | a run is counted exactly once iff its replays and ends move its baseline to the amount that was counted before |
| `CacheTokens.ReloadCountsOnceIff` | frontend-client/src/composables/sessionEventReducer.js:105-110 | when the usage is reloaded with what the baseline stands at, the run is counted exactly once iff its replays and ends cancel out |
| `CacheTokens.ReplayedThenLiveCountsOnceIff` | frontend-client/src/composables/useSessionMessages.js:240-246 | when a reload replays the run and then goes on live, it is counted exactly once iff the last replayed report is what the baseline stood at |
| `CacheTokens.InputBeforeFirstHit` | frontend-client/src/composables/sessionEventReducer.js:114-121 | before the first cache hit or write, replays included, no input is counted: the initial input survives until a root report erases it |
| `CacheTokens.InputCountsFromFirstHit` | frontend-client/src/composables/sessionEventReducer.js:107-158 | the input total counts exactly from the first report that makes cached or creation positive |
| `CacheTokens.InputCountsAfterHit` | frontend-client/src/composables/sessionEventReducer.js:107-158 | once the totals have a hit, every total is the initial one plus the live growth |
| `CacheTokens.CachedNeverExceedsInput` | frontend-client/src/composables/sessionEventReducer.js:107-121 | if every report adds at most as many cached as input tokens, cached never exceeds input |
| `CacheTokens.RunKeepsStored` | frontend-client/src/composables/sessionEventReducer.js:107-158 | in every run, whatever its reports carry, the totals are non-negative with input exactly where there is a hit |
| `CacheTokens.SnapshotIsStored` | frontend-client/src/composables/useSessionRuntimeStatus.js:22-44 | the totals a session snapshot loads are of that kind |
| `CacheTokens.ReplayMovesBaselineOnly` | frontend-client/src/composables/sessionEventReducer.js:105-160 | after every run, a replayed report changes no total: it moves only the baseline of its run |
| `CacheTokens.BaselinesAreLast` | frontend-client/src/composables/sessionEventReducer.js:99-110 | the baseline of a run is its last report, zero before the first and after the end of the run |
| `CacheLaws.OneRunMeans` | frontend-client/src/composables/sessionEventReducer.js:96-98 | which reports are of one run: the same run id or, without one, the root's or the same child's |
| `CacheLaws.NextIsHeldAgainstLast` | frontend-client/src/composables/sessionEventReducer.js:99-110 | the second of two reports is held against the first iff they are of one run |
| `CacheLaws.EndForgets` | frontend-client/src/composables/sessionEventReducer.js:258 | the end of a run makes its next report count from nothing and touches no other run |
| `CacheLaws.ReportActs` | frontend-client/src/composables/sessionEventReducer.js:105-160 | what a report adds to each total, when it is written, and what a root report replaces |
| `CacheLaws.SnapshotShows` | frontend-client/src/composables/useSessionRuntimeStatus.js:22-44 | a snapshot shows its totals only when the provider reported them |
| `CacheLaws.CumulativeMeans` | frontend-client/src/composables/sessionEventReducer.js:96-110 | what the histories of the conservation theorems must do: live reports of a run grow |
| `CacheLaws.CountedOnceMeans` | frontend-client/src/composables/sessionEventReducer.js:105-110 | what it means that a run is counted exactly once, figure by figure |
| `CacheLaws.WithinInputMeans` | frontend-client/src/composables/sessionEventReducer.js:107-121 | what the bound on the hit rate asks of each event |
| `CacheLaws.QuietMeans` | frontend-client/src/composables/sessionEventReducer.js:96-110 | which histories have no live report of a run, and which no replayed one and no end |
| `CacheLaws.DistinctMeans` | frontend-client/src/composables/sessionEventReducer.js:96-98 | what the list of runs in the closed form must be |
| `CacheTokens.ContextUsageReducer.OnContextUsage` | frontend-client/src/composables/sessionEventReducer.js:79-160 | the reducer differences the report against its baseline and folds it into the session totals |
| `SessionList.ItemsUniqueAndSorted` | frontend-client/src/stores/session-list.js:19-32 | in every reachable state ids are unique and items stand by activity time descending, then id descending |
| `SessionLaws.MostRecentFirst` | frontend-client/src/stores/session-list.js:19-32 | in every reachable state the list goes from the most recently active session to the least, and among equals from the greater id to the lesser |
| `SessionList.LocalEditsWin` | frontend-client/src/stores/session-list.js:128-189 | when a page arrives in time, every session edited since its request shows its last local edit if that matches the filters and nothing otherwise; the others come from the page, or the list before it |
| `SessionList.RemovedStaysAway` | frontend-client/src/stores/session-list.js:423-427 | a session removed while a page was on its way, and not edited since, is absent when it arrives |
| `SessionList.SupersededNeverWrites` | frontend-client/src/stores/session-list.js:162-198 | a response or failure changes nothing once another load has started |
| `SessionList.VersionsGrow` | frontend-client/src/stores/session-list.js:151-163 | the request version stands still iff no load started |
| `SessionList.LogHoldsLastEdits` | frontend-client/src/stores/session-list.js:123-149 | the mutation log holds exactly the last edit of each session since a version, while no request is answered |
| `SessionList.EditsShowAtOnce` | frontend-client/src/stores/session-list.js:385-442 | an edit shows its item at once and leaves what the list shows of other sessions |
| `SessionList.UpsertOutcome` | frontend-client/src/stores/session-list.js:385-404 | an upsert shows its session iff the merged item matches and is known or dated; its own fields win over the known ones |
| `SessionList.NewFiltersHide` | frontend-client/src/stores/session-list.js:344-349 | items that do not match new filters go at once |
| `SessionList.FiltersNormalized` | frontend-client/src/stores/session-list.js:42-49 | in every reachable state an origin id is filtered on only for bots and widgets |
| `SessionLaws.EditedOnPage` | frontend-client/src/stores/session-list.js:128-143 | a session edited since the request is shown as its last edit left it iff it is dated and fits the filters |
| `SessionLaws.PageEndsLoad` | frontend-client/src/stores/session-list.js:178-199 | the response ends the load, sets the cursor and keeps exactly the newer edits |
| `SessionLaws.LoadBegins` | frontend-client/src/stores/session-list.js:151-167 | a load begins iff it starts over or there is more and none is under way; starting over keeps the items that fit |
| `SessionLaws.FiltersAsked` | frontend-client/src/stores/session-list.js:344-348 | what is left out stays, an origin id stays only with a bot or widget, and a load starts over iff that changes anything |
| `SessionLaws.FacetsReconcile` | frontend-client/src/stores/session-list.js:290-307 | filters on an origin or workspace that is not listed go |
| `SessionLaws.UpsertActs` | frontend-client/src/stores/session-list.js:385-404 | the item is written over what is known, then shown, recorded as gone, or ignored |
| `SessionLaws.ActivityActs` | frontend-client/src/stores/session-list.js:406-421 | exactly the named properties change; an unknown session is ignored |
| `SessionLaws.TitleActs` | frontend-client/src/stores/session-list.js:430-442 | the title changes and nothing moves; an empty or unchanged one is ignored |
| `SessionLaws.RemovalActs` | frontend-client/src/stores/session-list.js:423-427 | the session goes and is recorded as gone |
| `SessionLaws.EditPuts` | frontend-client/src/stores/session-list.js:396-398 | an upsert adds a missing item, an update does not |
| `SessionLaws.NewStore` | frontend-client/src/stores/session-list.js:57-75 | a new store shows nothing, filters on nothing and loads nothing |
| `SessionListStore.SessionListStore.DedupeAndSort` | frontend-client/src/stores/session-list.js:26-32 | the last item of an id wins; the result is sorted |
| `SessionListStore.SessionListStore.ApplyLocalMutations` | frontend-client/src/stores/session-list.js:128-143 | the loop over the mutation log computes the merged page |
| `SessionListStore.SessionListStore.BeginLoad` | frontend-client/src/stores/session-list.js:151-168 | starts a load unless one is running or there is no more, dropping non-matching items on reset |
| `SessionListStore.SessionListStore.FinishLoad` | frontend-client/src/stores/session-list.js:180-199 | merges the page, prunes the log and moves the cursor unless superseded |
| `SessionListStore.SessionListStore.SetFilters` | frontend-client/src/stores/session-list.js:344-349 | normalizes the filters and reloads iff they changed |
| `SessionListStore.SessionListStore.ReconcileFilters` | frontend-client/src/stores/session-list.js:290-307 | clears filters the new facets do not know |
| `SessionListStore.SessionListStore.Upsert` | frontend-client/src/stores/session-list.js:385-404 | merges, places, sorts and logs as the model says, or withdraws the item |
| `SessionListStore.SessionListStore.UpdateActivity` | frontend-client/src/stores/session-list.js:406-421 | replaces a present item, sorts and logs; unknown sessions are ignored |
| `SessionListStore.SessionListStore.UpdateTitle` | frontend-client/src/stores/session-list.js:430-442 | replaces the title in place and logs; empty and equal titles are ignored |
| `SessionListStore.SessionListStore.RemoveSession` | frontend-client/src/stores/session-list.js:423-427 | filters the session out and logs its removal |
| `KeyedLists.FindSort` | frontend-client/src/stores/session-list.js:31 | sorting keeps the item each id finds |
| `MessageLoads.ResponseWritesIff` | frontend-client/src/composables/useSessionMessages.js:144-227 | a response writes iff since its load began there was no later load of its key, no snapshot owning it and (unless it preserves the stream) no change of the projection, and its session and thread are in view; otherwise it changes nothing |
| `MessageLoads.OnlyLatestLoadWrites` | frontend-client/src/composables/useSessionMessages.js:158-163 | of two loads of one key only the later may write |
| `MessageLoads.SnapshotFencesLoads` | frontend-client/src/composables/useSessionMessages.js:267-273 | no load begun before a snapshot of its session writes after it |
| `MessageLoads.CacheForgetsAtSnapshot` | frontend-client/src/composables/useSessionMessages.js:274 | after a snapshot no load is served a list cached before it |
| `MessageLoads.RunKeepsInv` | frontend-client/src/composables/useSessionMessages.js:60-75 | in every reachable state the cache holds at most ten lists of at most 500 messages, one a key |
| `LoadLaws.ListsByTrimmedName` | frontend-client/src/stores/session-run.js:444-453 | a list goes by the trimmed name, and by root when only white space is left |
| `LoadLaws.KeysApart` | frontend-client/src/composables/useSessionMessages.js:44 | each session and thread has its own key, and a session owns its own keys only |
| `LoadLaws.DividerKept` | frontend-client/src/composables/useSessionMessages.js:51-57 | a silent replacement keeps the first divider of the root when it brings none |
| `LoadLaws.CachingActs` | frontend-client/src/composables/useSessionMessages.js:59-75 | the last 500 messages become the youngest entry, and beyond ten the oldest goes |
| `LoadLaws.ResponseActs` | frontend-client/src/composables/useSessionMessages.js:216-228 | what a response that may write puts into its list, and that any other changes nothing |
| `LoadLaws.BeginNumbers` | frontend-client/src/composables/useSessionMessages.js:142-178 | a load takes the next number of its thread, and nothing else without a cached list |
| `LoadLaws.BeginFromCache` | frontend-client/src/composables/useSessionMessages.js:176-189 | a silent load takes in the cached list, normalized, at once |
| `LoadLaws.SnapshotActs` | frontend-client/src/composables/useSessionMessages.js:266-278 | loads of the session are outdated, its cache forgotten, its threads emptied and the root filled |
| `LoadLaws.OthersAct` | frontend-client/src/composables/useSessionMessages.js:77-81 | forgetting a session takes exactly its lists away |
| `LoadLaws.CachedIsFound` | frontend-client/src/composables/useSessionMessages.js:59-75 | an event that caches under a key leaves a list there |
| `LoadLaws.NewLoader` | frontend-client/src/composables/useSessionMessages.js:30-43 | a new loader has nothing in view, under way or cached |
| `MessageLoader.SessionMessages.BeginLoad` | frontend-client/src/composables/useSessionMessages.js:144-211 | numbers the load, and serves a silent one from the cache when it can |
| `MessageLoader.SessionMessages.FinishLoad` | frontend-client/src/composables/useSessionMessages.js:212-227 | writes and caches the page iff the load is still current and the projection unchanged |
| `MessageLoader.SessionMessages.CacheMessages` | frontend-client/src/composables/useSessionMessages.js:60-75 | the entry becomes the youngest and the oldest goes when there are more than ten |
| `MessageLoader.SessionMessages.ApplySnapshotMessages` | frontend-client/src/composables/useSessionMessages.js:267-285 | supersedes the session's loads, forgets its cache, empties the threads and sets the root list |
| `Followups.PendingUniqueAndUnsettled` | frontend-client/src/stores/session-run.js:180-216 | in every reachable state pending keys are unique and none is settled |
| `Followups.SettledStaysSettled` | frontend-client/src/stores/session-run.js:191-216 | a settled request never comes back, whatever is queued, replayed or received |
| `Followups.NoFollowupLost` | frontend-client/src/stores/session-run.js:210-216 | a request that was ever pending is pending iff it has not been settled |
| `Followups.AcceptanceMonotone` | frontend-client/src/stores/session-run.js:187-199 | acceptance and settlement only grow |
| `Followups.ReceiptsOutcome` | frontend-client/src/composables/sessionFollowupRecovery.js:32-58 | the refresh loop gives each request the outcome of its receipt, whatever the order of the receipts |
| `Followups.RefreshCountsIff` | frontend-client/src/composables/sessionFollowupRecovery.js:30-31 | receipts count iff no mutation began or ended since they were requested and the session is in view; otherwise they change nothing |
| `Followups.RefreshSparesMutations` | frontend-client/src/composables/sessionFollowupRecovery.js:38-39 | the status loop never touches an entry whose mutation is under way |
| `Followups.ConsumedEntry` | frontend-client/src/composables/sessionFollowupRecovery.js:60-67 | after the reload exactly the consumed requests go, even those whose mutation is under way |
| `Followups.ConsumedWhileMutating` | frontend-client/src/composables/sessionFollowupRecovery.js:53-67 | the witness: a run in which the user begins to take a request back during the reload, and the reload removes it |
| `Followups.MutatingIffOpen` | frontend-client/src/stores/session-run.js:217-228 | a pending entry is marked as mutating iff a mutation of it is under way |
| `Followups.ReconcileEntry` | frontend-client/src/stores/session-run.js:229-238 | reconciling with a page takes away exactly the entries whose user message it carries |
| `FollowupLaws.QueueActs` | frontend-client/src/stores/session-run.js:191-195 | queueing adds an entry at the end unless it is pending or settled |
| `FollowupLaws.MarkQueuedActs` | frontend-client/src/stores/session-run.js:196-200 | only a sending entry becomes queued |
| `FollowupLaws.LeavingActs` | frontend-client/src/stores/session-run.js:201-206 | leaving or losing a session puts exactly its entries in doubt |
| `FollowupLaws.RemovalActs` | frontend-client/src/stores/session-run.js:210-216 | removing settles the request and takes its entry away |
| `FollowupLaws.BeginActs` | frontend-client/src/stores/session-run.js:217-223 | a mutation begins iff the entry is manageable, not in doubt and not mutating |
| `FollowupLaws.FinishActs` | frontend-client/src/stores/session-run.js:224-228 | its end moves the revision and unmarks the entry |
| `FollowupLaws.PageActs` | frontend-client/src/stores/session-run.js:229-238 | exactly the requests of persisted user messages not from an agent are accepted and settled |
| `FollowupLaws.SnapshotActs` | frontend-client/src/composables/useSessionAgentClient.js:133-146 | what each receipt of a session snapshot does to its request |
| `FollowupLaws.ReceiptsAct` | frontend-client/src/composables/sessionFollowupRecovery.js:30-58 | what the last receipt of each request does to its entry, its acceptance and its settlement |
| `FollowupLaws.NoReceiptNoChange` | frontend-client/src/composables/sessionFollowupRecovery.js:32-58 | a request without a receipt stays as it is |
| `FollowupLaws.ReloadActs` | frontend-client/src/composables/sessionFollowupRecovery.js:60-67 | after the reload exactly the requests last said to be consumed are settled |
| `FollowupLaws.FlagsTell` | frontend-client/src/composables/sessionFollowupRecovery.js:38-44 | when receipts have to be asked for again, and when the messages have to be reloaded |
| `FollowupLaws.FlagMeans` | frontend-client/src/composables/sessionFollowupRecovery.js:38-44 | what the receipt for one entry raises: asking again while it mutates, a reload when it was consumed |
| `FollowupLaws.RefreshAsks` | frontend-client/src/composables/sessionFollowupRecovery.js:22-23 | a refresh asks about the pending requests of the session in view |
| `FollowupLaws.NewStore` | frontend-client/src/stores/session-run.js:182-186 | a new store has no follow-ups |
| `FollowupStore.FollowupStore.ApplyStatuses` | frontend-client/src/composables/sessionFollowupRecovery.js:23-60 | the recovery loop applies the collected receipts; it retries iff a mutation moved on or some receipt's entry mutates, and reloads iff some consumed receipt has a pending entry that does not |
| `FollowupStore.FollowupStore.ApplyReceipt` | frontend-client/src/composables/sessionFollowupRecovery.js:33-58 | one turn of the loop; retries iff its entry mutates and waits iff it is consumed and still pending |
| `FollowupStore.FollowupStore.QueueFollowup` | frontend-client/src/stores/session-run.js:191-195 | settled and pending requests are not queued again |
| `FollowupStore.FollowupStore.BeginFollowupMutation` | frontend-client/src/stores/session-run.js:217-223 | begins iff the entry is manageable, confirmed and not already mutating |
| `FollowupStore.FollowupStore.ReconcilePendingFollowups` | frontend-client/src/stores/session-run.js:229-238 | the loop over the page accepts and settles the requests of its user messages |
| `FollowupStore.FollowupStore.MarkFollowupsUnconfirmed` | frontend-client/src/stores/session-run.js:201-206 | marks the session's entries in place and no others, as a disconnect does |
| `RunActivity.RunningToolsAreTheTrace` | frontend-client/src/composables/useRunRuntime.js:213-251 | a tool is listed iff its latest start is followed neither by its finish nor by the end of that start's agent call |
| `RunActivity.RunningModelsAreTheTrace` | frontend-client/src/composables/useRunRuntime.js:144-251 | a model call is listed iff its latest update is followed by none of its completion, a tool started under it, or the end of its agent call; its status is that update's |
| `RunActivity.PhaseIsTheTrace` | frontend-client/src/composables/useRunRuntime.js:127-142 | a locked phase stays, an approval locks it, and otherwise the phase is the classification of the maps once an event acted |
| `RunActivity.PhaseMatchesSnapshot` | frontend-client/src/stores/session-run.js:306-319 | unlocked, the phase is the one a running snapshot with the same maps would set |
| `RunActivity.ClassifiedAtStart` | frontend-client/src/stores/session-run.js:306-319 | the phase is classified after a running snapshot and after an unlocked start of a run |
| `RunActivity.SnapshotTools` | frontend-client/src/stores/session-run.js:283-288 | after a snapshot the listed tools are the last entries of its ids |
| `ActivityLaws.PhaseTellsWhatRuns` | frontend-client/src/composables/useRunRuntime.js:127-142 | over every run the phase waits, stays, or tells what runs: tools and models at once, tools, or the most pressing state of the models |
| `ActivityLaws.ResetsEmpty` | frontend-client/src/composables/useRunRuntime.js:90-119 | what each of the three resets leaves |
| `ActivityLaws.RootCallIsLastNamed` | frontend-client/src/composables/useRunRuntime.js:121-123 | the root call is the last one named |
| `ActivityLaws.SnapshotTakenOver` | frontend-client/src/stores/session-run.js:275-319 | when a snapshot is taken over and what it sets |
| `ActivityLaws.SnapshotModels` | frontend-client/src/stores/session-run.js:286-288 | the last model of each agent and call is listed |
| `ActivityLaws.ModelKeysDiffer` | frontend-client/src/composables/useRunRuntime.js:125 | two model calls share an entry iff agent and call agree |
| `RunRuntime.RunRuntime.UpdateModelCall` | frontend-client/src/composables/useRunRuntime.js:144-166 | lists the call with its status and refreshes the phase |
| `RunRuntime.RunRuntime.MarkModelRequestStarted` | frontend-client/src/composables/useRunRuntime.js:168-171 | notes the root call and lists the model call |
| `RunRuntime.RunRuntime.MarkModelAttemptCompleted` | frontend-client/src/composables/useRunRuntime.js:182-187 | unlists the model call and refreshes the phase |
| `RunRuntime.RunRuntime.MarkToolStarted` | frontend-client/src/composables/useRunRuntime.js:213-230 | lists the tool and ends the model call it was started under |
| `RunRuntime.RunRuntime.MarkToolFinished` | frontend-client/src/composables/useRunRuntime.js:232-239 | unlists a listed tool; otherwise nothing happens |
| `RunRuntime.RunRuntime.MarkAgentFinished` | frontend-client/src/composables/useRunRuntime.js:241-251 | unlists the model calls and tools of the agent call |
| `RunRuntime.RunRuntime.ApplySessionRuntime` | frontend-client/src/stores/session-run.js:275-323 | a snapshot that is not stale replaces the maps, the run and the phase |
| `ActionRows.RowsAreTheGrouping` | frontend-client/src/utils/executionTreePresentation.js:64-95 | there is exactly one way to list the nodes in order with every maximal run of at least three nodes of one key in a group and no other groups, and these rows are it |
| `ActionRows.BuildActionRows` | frontend-client/src/utils/executionTreePresentation.js:64-95 | the buffer loop returns that grouping |
| `ActionRows.MakeGroupRow` | frontend-client/src/utils/executionTreePresentation.js:97-127 | the accumulator loop computes the summary of the group's nodes |
| `ActionRows.GroupStatus` | frontend-client/src/utils/executionTreePresentation.js:97-127 | a group shows success iff none of its nodes failed or runs, and its success count is full iff all succeeded |
| `RowLaws.GroupsAreMaximal` | frontend-client/src/utils/executionTreePresentation.js:60-95 | a group holds at least three calls of one kind, next to it stands none of its kind, and no three stand alone |
| `RowLaws.LoneNode` | frontend-client/src/utils/executionTreePresentation.js:78-92 | a node that may not stand in a group gets a row of its own |
| `RowLaws.GroupTells` | frontend-client/src/utils/executionTreePresentation.js:98-128 | what a group counts, sums up and shows, in the words of its nodes |
| `RowLaws.StateOf` | frontend-client/src/utils/executionTreePresentation.js:3-9 | the words for each state of a node |
| `FileTree.ListingRows` | frontend-client/src/utils/fileTree.js:6-47 | the rows listed are exactly those of the paths at or above a file whose ancestors are all directories that are not collapsed, with depth, type, size and collapsed flag as the first file at or below decides |
| `FileTree.ListingOrder` | frontend-client/src/utils/fileTree.js:30-46 | each path is listed once, ancestors first and siblings directories first, then by name |
| `FileTree.ListingPreorder` | frontend-client/src/utils/fileTree.js:38-46 | each row stands below its parent or the parent's earlier rows |
| `FileTree.AllListedIff` | frontend-client/src/utils/fileTree.js:6-47 | with nothing collapsed every prefix of every path is listed iff nothing lies below a path said to be a file |
| `FileTree.FileHidesBelow` | frontend-client/src/utils/fileTree.js:16-42 | the witness: a name listed first as a file and then as a directory hides what lies in the directory |
| `FileTree.SaidIff` | frontend-client/src/utils/fileTree.js:8-29 | a path is in the tree iff it is a prefix of a file's path |
| `FileTree.PartsOfJoin` | frontend-client/src/utils/fileTree.js:9-14 | splitting a joined path gives its segments back |
| `FileTree.ToggleTouchesBelow` | frontend-client/src/utils/fileTree.js:49-54 | toggling twice changes nothing, and toggling a directory shows or hides only what lies strictly below it |
| `FileLaws.PartsAtSeparator` | frontend-client/src/utils/fileTree.js:9-10 | a path falls apart at every slash and backslash |
| `FileLaws.PartsOfPiece` | frontend-client/src/utils/fileTree.js:9-10 | a piece without separators is one segment unless it is empty |
| `FileLaws.PathOfDirectory` | frontend-client/src/utils/fileTree.js:14 | a node goes by its segments joined with slashes |
| `FileLaws.RowListedIff` | frontend-client/src/utils/fileTree.js:5-48 | a row is listed iff a file lies at or below it and every directory on the way is open; the first such file says what it is |
| `FileLaws.RowsInOrder` | frontend-client/src/utils/fileTree.js:30-36 | where two paths part the directory goes before the file and the lesser name before the greater; nothing goes before what it lies in |
| `FileLaws.RowFollowsParent` | frontend-client/src/utils/fileTree.js:38-46 | every row stands below its parent or below something in it |
| `FileLaws.ToggleTurns` | frontend-client/src/utils/fileTree.js:49-54 | toggling a path turns it and no other |
| `FileTree.FlattenFileTree` | frontend-client/src/utils/fileTree.js:6-47 | the loops over files and nodes compute that listing |
| `ToolRouting.RunKeepsInv` | host-tool-mcp-server/src/router.ts:28-109 | in every reachable state each session is listed under its socket, and the pending calls are the dispatched calls without an answer, each with its timer |
| `ToolRouting.DisconnectedServesNone` | host-tool-mcp-server/src/router.ts:59-67 | after a socket disconnects no session routes to it |
| `ToolRouting.ReverseIndexIsTheTrace` | host-tool-mcp-server/src/router.ts:49-67 | the reverse index lists a session under every socket it registered on until that socket disconnects |
| `ToolRouting.RoutesAreTheTrace` | host-tool-mcp-server/src/router.ts:39-67 | a session routes to its latest registration unless a socket it had registered on disconnected since |
| `ToolRouting.DisconnectDropsOnlyItsRoutesIff` | host-tool-mcp-server/src/router.ts:59-67 | a disconnect drops only routes to its socket iff every connected session it lists is connected through it |
| `ToolRouting.MovedSessionLosesItsRoute` | host-tool-mcp-server/src/router.ts:59-67 | a session that moved to another socket loses its route when the old one disconnects |
| `ToolRouting.FirstAnswerWins` | host-tool-mcp-server/src/router.ts:84-108 | a dispatched call is answered exactly once, by the first result or timeout that comes, and is pending with its timer armed exactly until then |
| `ToolRouting.AnsweredOnceIff` | host-tool-mcp-server/src/router.ts:86-108 | a dispatched call has been answered, once, iff a result or its timeout has come for it |
| `ToolRouting.PendingIffUnsettled` | host-tool-mcp-server/src/router.ts:86-100 | an unanswered call is pending, and its caller is still waiting iff send did not throw |
| `RoutingLaws.CallGoesThroughIff` | host-tool-mcp-server/src/router.ts:71-83 | when a call is dispatched, and which refusal it gets otherwise, by the registrations and disconnects so far |
| `RoutingLaws.CallActs` | host-tool-mcp-server/src/router.ts:71-100 | a refused call leaves nothing behind; a dispatched one is pending with its timer armed |
| `RoutingLaws.AnswerActs` | host-tool-mcp-server/src/router.ts:87-110 | the first answer to a pending call is what its caller gets; any other changes nothing |
| `RoutingLaws.CallerSees` | host-tool-mcp-server/src/router.ts:84-100 | over every run the caller sees a rejection when send threw, and else the first answer |
| `ToolRouter.Router.Register` | host-tool-mcp-server/src/router.ts:39-56 | stores the route and adds the session to the socket's set |
| `ToolRouter.Router.Disconnect` | host-tool-mcp-server/src/router.ts:59-67 | the loop removes every session the socket lists |
| `ToolRouter.Router.Invoke` | host-tool-mcp-server/src/router.ts:70-100 | fails at once without id, route, declared tool or open socket, and dispatches otherwise |
| `ToolRouter.Router.DeliverResult` | host-tool-mcp-server/src/router.ts:103-108 | settles a pending call once; later results are ignored |
| `PluginLifecycle.AppHandle.Start` | backend-core/src/plugins/plugin-manager.ts:445-457 | starts the runtimes up to the first that throws, and then disposes all of them; later calls do nothing |
| `PluginLifecycle.AppHandle.Dispose` | backend-core/src/plugins/plugin-manager.ts:458-462 | disposes every runtime in reverse order once, unless a start already rolled them back |
| `PluginLifecycle.PluginManager.StopEach` | backend-core/src/plugins/plugin-manager.ts:604-619 | each plugin is stopped once and loses its contributions in all eight registries whether or not that throws; the errors are counted |
| `LeaseStore.SandboxLeaseStore.CreateRejects` | sandbox-service/src/lease-store.ts:30-32 | a failed create releases its reservation and leaves no lease |
| `LeaseStore.SandboxLeaseStore.EngineSettles` | sandbox-service/src/lease-store.ts:50 | the engine destroys the sandbox or fails to |
| `LeaseStore.SandboxLeaseStore.FinallyHandler` | sandbox-service/src/lease-store.ts:65-67 | the id may be destroyed again only from here on |
| `LeaseStore.SandboxLeaseStore.TimerFires` | sandbox-service/src/lease-store.ts:23-25 | a timer that fires begins the destroy of its lease |
| `StreamProjector.Message.ApplyProjectedEnvelope` | frontend-client/src/composables/useMessageExecution.js:264-267 | feeds the projected envelope to the state of the message |
| `StreamProjector.Message.PublishExecutionTree` | frontend-client/src/composables/useMessageExecution.js:260-263 | the published tree is the one built from everything fed |
| `StreamProjector.MessageExecution.FlushAllStreamEvents` | frontend-client/src/composables/useMessageExecution.js:275-277 | every queue is applied and none is left |
| `StreamProjector.MessageExecution.CancelScheduledStreamFlush` | frontend-client/src/composables/useMessageExecution.js:278-282 | the scheduled frame is cancelled where the platform can |
| `StreamProjector.MessageExecution.OnFrame` | frontend-client/src/composables/useMessageExecution.js:289-292 | a frame flushes every queue |
| `StreamProjector.MessageExecution.OnSessionSwitch` | frontend-client/src/composables/useMessageExecution.js:500-506 | a session switch discards the queues |
| `StreamProjector.MessageExecution.OnScopeDispose` | frontend-client/src/composables/useMessageExecution.js:507-511 | the end of the scope flushes every queue |
| `StreamProjector.MessageExecution.OnHistory` | frontend-client/src/composables/useMessageExecution.js:328-334 | a replay drops the queue of its message and rebuilds its state from the history |
| `StreamProjector.MessageExecution.OnResetPresentation` | frontend-client/src/composables/useRunRuntime.js:297-309 | a reset drops the state and tree of the active message and leaves its queue and root call |
| `CacheTokens.ContextUsageReducer.OnAgentEnded` | frontend-client/src/composables/sessionEventReducer.js:258 | the end of a run forgets its baseline |
| `SessionListStore.SessionListStore.FailLoad` | frontend-client/src/stores/session-list.js:189-198 | a failure ends the load unless superseded, and leaves the items |
| `SessionListStore.SessionListStore.PruneLocalMutations` | frontend-client/src/stores/session-list.js:145-149 | the loop keeps exactly the edits newer than the version, in order |
| `MessageLoader.SessionMessages.SetParticipantMessages` | frontend-client/src/stores/session-run.js:444-453 | replaces the list under its trimmed name and moves the projection revision |
| `MessageLoader.SessionMessages.SupersedeLoads` | frontend-client/src/composables/useSessionMessages.js:270-273 | the loop raises the number of every key the session owns and no other |
| `MessageLoader.SessionMessages.DeleteMessageCache` | frontend-client/src/composables/useSessionMessages.js:77-81 | exactly the lists of the session are forgotten |
| `FollowupStore.FollowupStore.MarkFollowupQueued` | frontend-client/src/stores/session-run.js:196-200 | accepts the request and moves its entry from sending to queued only |
| `FollowupStore.FollowupStore.SetCurrentSession` | frontend-client/src/stores/session-run.js:239-241 | leaving a session puts its entries in doubt |
| `FollowupStore.FollowupStore.RemovePendingFollowup` | frontend-client/src/stores/session-run.js:210-216 | settles the request and takes its entry off the list |
| `FollowupStore.FollowupStore.FinishFollowupMutation` | frontend-client/src/stores/session-run.js:224-228 | moves the revision and clears the mutating mark of a pending entry |
| `FollowupStore.FollowupStore.RemoveConsumed` | frontend-client/src/composables/sessionFollowupRecovery.js:60-67 | after the reload the loop settles the consumed requests while the session is in view |
| `RunRuntime.RunRuntime.RefreshActivityPhase` | frontend-client/src/composables/useRunRuntime.js:127-142 | an unlocked phase becomes the classification of the maps |
| `RunRuntime.RunRuntime.HandleApprovalRequired` | frontend-client/src/composables/sessionEnvelopeDispatcher.js:83-87 | an approval locks the phase |
| `RunRuntime.RunRuntime.StartActiveRunRuntime` | frontend-client/src/composables/useRunRuntime.js:105-119 | the start of a run empties the maps and keeps a locked phase |
| `RunRuntime.RunRuntime.ResetActiveRunRuntime` | frontend-client/src/composables/useRunRuntime.js:90-103 | a reset empties the maps and unlocks the phase |
| `RunRuntime.RunRuntime.ResetActiveRunPresentation` | frontend-client/src/composables/useRunRuntime.js:297-309 | a reset for replay empties the maps and the root call and leaves the phase |
| `RunActivity.ResetUnlocks` | frontend-client/src/composables/useRunRuntime.js:90-103 | after a reset, whatever came before, the phase is idle until an event acts and from then on the classification of the maps; an approval locks it again |
| `RunActivity.OnlyEventsSinceResetCount` | frontend-client/src/composables/useRunRuntime.js:90-119 | after a reset, a reset for replay or the start of a run, a tool or model call is listed iff its latest start or update since then is unended |
| `RunActivity.ReplayKeepsPhase` | frontend-client/src/composables/useRunRuntime.js:297-309 | after a reset for replay the phase stays until an event acts on an unlocked phase, and from then on it is the classification of the maps |
| `RunActivity.PhaseStaleAfterReplayResetIff` | frontend-client/src/composables/useRunRuntime.js:297-309 | right after it a phase that was the classification of the maps still is iff nothing was running |
| `RunActivity.StartKeepsLock` | frontend-client/src/composables/useRunRuntime.js:105-108 | the start of a run, unlike a reset, keeps a locked phase |
| `RunRuntime.RunRuntime.MarkRootAgentStarted` | frontend-client/src/composables/useRunRuntime.js:121-123 | notes the root call of the run |
| `RunRuntime.RunRuntime.LoadActivity` | frontend-client/src/stores/session-run.js:283-288 | the maps hold the last entry of each id of the snapshot |
| `ToolRouter.Router.OnTimeout` | host-tool-mcp-server/src/router.ts:87-90 | a timeout settles its call and takes it off the pending calls |

## Left out

- `applyEnvelope` and `getExecutionTree` are not part of this model: the tree of a message is represented by the envelopes it was built from; `has_execution` is not modelled.
- `setParticipantMessages` in the cursor theorem: it replaces the list without re-aiming the index.
- Pages that carry objects already in the list: `ReconcileDrops` and `ReconcileAccounts` cover them, the distinctness theorems ask for fresh objects.
- A message's run and participant are held fixed while it has queued frames.
- StreamProjection.BatchedRefinesDirect: covers runs without session switches and replays, which discard frames on purpose; `RunInStep` covers all runs.
- Plugin callbacks that register or unregister contributions while a stop is under way, and starts and stops that overlap each other.
- The eight registries are one class: they share `removePlugin`, and the two that remove by identity have the same effect.
- PluginLifecycle.CreateRuntimes: stands for the application factories too (plugin-manager.ts:434-441), which provide no capabilities; there a rollback that throws replaces the factory's error instead of being aggregated with it.
- Completeness of `closeAll`: a create already pending may still add a lease afterwards.
- `agent.ctx`, the context meter of child agents, and the display figures of `contextUsage` other than the cache totals.
- `loadWorkspace` and `loadWorkspacePreview`: they replay mutations from version 0 after `load` may have pruned them.
- Facet counts, abort signals and error texts of the session list; `pins` is a parameter holding the cached pinned items.
- A session property that is present but undefined, where an update copies a property its item lacks.
- The scroll, focus and loading flags of the message loader, `mergeMessageIdsFromServer`, and the reload of child threads that follows a snapshot, which the caller begins as separate loads.
- The chunking of receipt queries, the recovery's timer and its toasts.
- Payload fields, token timings and retry times of model calls; the phase set when a run's first message appears.
- FileTree.FlattenFileTree: builds the tree on values instead of in place, so sharing of nodes during the build is not captured; each level is sorted from the bottom up, which gives the same order because the comparison never looks at children.
- File types other than file and directory, for which the comparison of siblings is not an order.
- Tool schemas and the log lines of the router; a call id is assumed never to repeat.
- HTTP routes, Docker and Electron processes, WebSocket transport, Vue reactivity and everything visual.
- Number formatting, badge hashes, file-name filters, role checks and output capping: they would add only easy members.
