# memgov: verified models of its transactional protocols

memgov keeps its state through small protocols. Each is a set of guarded row updates inside
one transaction, or a fixed sequence of file operations. This project models the twelve
hardest of them and proves what they keep over whole runs.

| files | what they model |
|---|---|
| WorkspaceModel, WorkspaceTheorems, WorkspaceOutcomes, WorkspaceStore, WorkspaceHistory | versioned files with an archive, under crashes after any file operation and power failures |
| TaskModel, TaskTheorems, TaskOutcomes, TaskEngine | tasks, attempts and pending actions of a runtime |
| MessageModel, MessageTheorems, MessageOutcomes, MessageDesk | message rows, analysis batches and verified associations |
| IntakeModel, IntakeTheorems, IntakeOutcomes, IntakeDesk | platform events, revisions, recalls and evidence |
| CoverageModel, CoverageTheorems, CoverageLedger | coverage windows, the covered mark, the gap flag and the catch-up proposal |
| HistoryModel, HistoryTheorems, HistoryOutcomes, HistoryDesk | claimed import steps with tokens |
| Substrings, Redaction, RetentionWalk, RetentionOutcomes | repeated replacement of expired texts, and the walk over a JSON document |
| LeaseModel, LeaseTheorems, LeaseDesk, LeaseRenewal | the receiver lease with its fences, and the renewal loop |
| OutboxModel, OutboxTheorems, OutboxOutcomes, OutboxDesk | replies on their way out and their delivery attempts |
| ReconcileModel, ReconcileTheorems, ReconcileOutcomes, ReconcileLoop, ReconcileBackoff | two workers, the checkpoint without holes, fairness over cycles, route backoff |
| VersionModel, VersionGrammar, VersionParsing, VersionOrder, VersionCheck | parsing and ordering of version tags |
| MigrationModel, MigrationTheorems, MigrationOutcomes, Migration | the recursive pass that takes retired settings out of a configuration tree |
| Options, Arithmetic, Texts | values that may be missing; division, remainder and powers of two; cutting, splitting and joining texts |

**How the models are built.** A state is a datatype of tables. Each transaction is one total
function on it; a transaction that the program refuses returns the state unchanged. Beside it
stands a class whose methods update the same tables statement by statement, in the program's
order and with its loops, and whose `ensures` clauses say that the new tables are that function
of the old ones; where a model runs through operations, `Transact` performs any of them and
keeps the invariant. Theorems are lemmas about the functions: an inductive invariant, what each
transaction does to it, and statements about `Run`, which applies any list of operations.
The `Outcomes` modules say of each
transaction, without the model's own helpers, when it is accepted, what it does to each row and
what it leaves alone, and they show progress: which courses bring a task, an import or a reply
to its end. Times are whole seconds (milliseconds for leases), a clock never goes back, and hashes,
identifiers, tokens and configuration facts that the program looks up elsewhere are parameters
of the operation.

**The workspace disk.** A script of file operations is computed from the state that a writer
finds after taking the lock; a process that dies performs a first part of it. A file remembers
its versions and up to which of them its directory was synchronised; a power failure cuts each
file, independently of the others, anywhere after that mark. The archive directory is taken to
keep the order of its entries: a power failure leaves one of the states it went through since
its last synchronisation.

**Where the code does less than one might expect.** Each of these is proved with its exact
condition; the program is modelled as it is.

- Redaction shows a text again if it can be read across an edge of the placeholder, or if
  another text of the list breaks a marker open and leaves it readable in the marker's word;
  sorting longer texts first leaves that to texts that are not longer (`Redaction.RedactCleansExactlyWhen`,
  `Redaction.SortedRedactCleansExactlyWhen`). "gov" together with "e" is such a case
  (`Redaction.SortedTextCanReturn`). Before the placeholder is put in, a text that is part of
  the marker's word is there whenever anything was marked (`Redaction.MarkCleansExactlyWhen`).
- Failing a task or an action finds the attempt row by its identifier alone
  (`TaskTheorems.FailTaskKeepsExactlyWhen`, `TaskTheorems.EndActionKeepsExactlyWhen`). After runs
  with a foreign identifier a running task has no attempt in progress, and an executing action
  no run (`TaskTheorems.MixedUpTasksBreak`, `TaskTheorems.MixedUpActionsBreak`).
- Claiming a batch reads a message's current revision but marks the row at its stored one
  (`MessageTheorems.ClaimTracksExactlyWhenFresh`, `MessageTheorems.UnsyncedClaimRepeats`). A
  synchronisation of all stale rows right before prevents it (`MessageTheorems.SyncedClaimIsFresh`),
  but one synchronisation reads at most 100 messages (`MessageTheorems.FullPageLeavesStale`).
- A finished import counts resolved gaps as open when it sets the gap flag
  (`CoverageTheorems.ImportFlagExactlyWhen`, `CoverageTheorems.ImportRaisesFlagWrongly`).
- A proposed window reaches into the future when the covered mark is ahead of the clock by the
  overlap or more; without an overlap the second pull of one instant does
  (`CoverageTheorems.SecondPullCoversTheFuture`), with one it takes a clock that went
  back or a window recorded ahead of it (`CoverageTheorems.PullsStayInThePast`).
- Recovery makes a record final whenever the live bytes match it, so a final record need not
  be a publication (`WorkspaceTheorems.RecoveryFinalisesExactly`, `WorkspaceTheorems.OrphanBecomesFinal`).
- A write under a lease is accepted under the latest grant, expired or not
  (`LeaseTheorems.AcceptedExactlyUnderLatestGrant`).
- Ending a delivery with another attempt number parts the outbox row from its attempt
  (`OutboxTheorems.FinishAgreesExactlyWhen`, `OutboxTheorems.WrongNumberParts`), and a delivery that a restart left `unknown` can
  never be reconciled (`OutboxTheorems.HandedOverForGood`).
- An edit back to earlier content without an identifier or a new edit time is taken for a
  replay (`IntakeTheorems.EditBackIsLostExactlyWhen`, `IntakeTheorems.EditBackIsLost`).

## Model

| member | source | states |
|---|---|---|
| WorkspaceTheorems.NoPublicationLost | internal/agentworkspace/workspace.go:585-665 | over any mix of writes, crashes after any file operation, recoveries and power failures: every publication has its record with its digest and that of the version right before it, and the record is final or the publication is live and the next recovery finds it |
| WorkspaceTheorems.RecordsNotShared | internal/agentworkspace/workspace.go:638-641 | no two publications, on whatever paths, share a record |
| WorkspaceTheorems.RecoveryFinalisesAll | internal/agentworkspace/workspace.go:677-721 | after a recovery that ran to its end every publication has its final record |
| WorkspaceTheorems.RecoveryFinalisesExactly | internal/agentworkspace/workspace.go:694-716 | a record is final after recovery exactly if it was, or the live bytes of its path have its digest |
| WorkspaceTheorems.OrphanBecomesFinal | internal/agentworkspace/workspace.go:694-716 | a reachable state with a final record under whose name nothing was ever published: a write dies after its pending record, another writes the same bytes, and recovery runs |
| WorkspaceTheorems.RecoverySettles | internal/agentworkspace/workspace.go:677-721 | recovery is never stopped by a missing or damaged blob, keeps the invariant at each operation, changes no file and no blob, and settles every publication before the next write goes on |
| WorkspaceTheorems.RecordsBacked | internal/agentworkspace/workspace.go:559-577 | in every archive state that may survive, the new and the replaced bytes of every record are there under matching digests |
| WorkspaceTheorems.WritesExactlyWhen | internal/agentworkspace/workspace.go:618-629 | a write that runs to its end publishes, synchronised and with its final record and touching no other file, exactly unless the expected digest is stale or nothing changes (its name being new); otherwise files are unchanged |
| WorkspaceTheorems.StaleWriteChangesNothing | internal/agentworkspace/workspace.go:623-625 | with a stale expected digest no file changes, wherever the write is cut off |
| WorkspaceTheorems.PublishSafe | internal/agentworkspace/workspace.go:636-665 | from the pending record to the final one every operation meets its condition, so the write may be cut off anywhere |
| WorkspaceTheorems.PowerLossTakesOne | internal/agentworkspace/workspace.go:652-658 | a power failure takes at most the last version of each path and nothing that was synchronised |
| WorkspaceTheorems.AcknowledgedWriteSurvives | internal/agentworkspace/workspace.go:655-665 | once a write has returned, its version stays at its place and its record stays final through every later run, in every archive state that may survive |
| WorkspaceTheorems.StepKeeps | internal/agentworkspace/workspace.go:283-336 | a write, a recovery or the creation of a workspace, cut off after any number of operations, and a power failure keep the invariant |
| WorkspaceOutcomes.RecoveryStopsExactlyWhenDamaged | internal/agentworkspace/workspace.go:694-716 | recovery stops exactly if a listed record that the live bytes match has no intact bytes in the archive, and makes only intact ones final |
| WorkspaceOutcomes.RecoveryIsOnDisk | internal/agentworkspace/workspace.go:716-721 | what recovery makes final is final in every archive state that may survive a power failure |
| WorkspaceOutcomes.DamageBlocksWrites | internal/agentworkspace/workspace.go:559-577 | no file changes while such a record is there, or while other bytes stand under the digest of the old or the new content |
| WorkspaceOutcomes.FileOutcome | internal/agentworkspace/workspace.go:645-660 | a rename makes exactly the staged bytes live under the name of their write, and a file is created only where none is |
| WorkspaceOutcomes.SyncOutcome | internal/agentworkspace/workspace.go:652-658 | synchronising a directory puts on disk what its own files hold, and no other file |
| WorkspaceOutcomes.ArchiveOutcome | internal/agentworkspace/workspace.go:263-281 | a link takes a free name only, a record becomes final only if it is there, and until the next synchronisation each such change is one more state that may survive |
| WorkspaceOutcomes.PowerLossOutcome | internal/agentworkspace/workspace.go:652-658 | of the archive any state since its last synchronisation, and of each file any version from the synchronised one on |
| WorkspaceOutcomes.EnsureOutcome | internal/agentworkspace/workspace.go:283-336 | the file of a new workspace is there and on disk, and one that was there keeps its content |
| WorkspaceStore.Store.WriteChecked | internal/agentworkspace/workspace.go:585-666 | a process that lives for so many file operations leaves exactly that much of the script done, and dies exactly if the script is longer; one that lives answers: conflict exactly if the live digest is not the expected one, unchanged exactly if the content is the same, written exactly if the version is now live and synchronised with its final record, refused only if the name of the record was taken |
| WorkspaceStore.Store.RecoverPending | internal/agentworkspace/workspace.go:677-722 | the loop over the entries performs exactly the recovery script, and reports a missing or damaged blob |
| WorkspaceStore.Store.SaveBlob | internal/agentworkspace/workspace.go:559-577 | the blob and its synchronisation, or nothing if the archive has it; an error exactly if the archived bytes do not match |
| WorkspaceStore.Store.Perform | internal/agentworkspace/workspace.go:263-281 | one link, rename or synchronisation, or nothing once the process is dead |
| WorkspaceHistory.History | internal/agentworkspace/workspace.go:726-770 | whatever the directory order: sorted newest first, at most 100, all of the path's records if there are fewer, and nothing left out is newer than anything kept |
| TaskTheorems.RunsExactlyWithOneAttempt | internal/core/runtime.go:1619-1680 | after any run in which each reported failure names the caller's own attempt or run: a task is running exactly if one attempt is in progress on its current version, and that is the only attempt in progress on the task and the only one its version ever had |
| TaskTheorems.AttemptedAtMostOnce | internal/core/runtime.go:1656-1680 | any run at all starts at most one attempt for a task and version |
| TaskTheorems.ExecutedAtMostOnce | internal/core/runtime.go:2060-2131 | any run at all, restarts, reconfigurations and unknown outcomes included, turns an action to executing at most once |
| TaskTheorems.LiveActionsAreCurrent | internal/core/runtime.go:1562-1575 | after any run at all an action that may still be executed has its task's current version |
| TaskTheorems.NothingOpenBehindATask | internal/core/runtime.go:1694-1785 | after any run a completed or pending task has no action that could still be confirmed or executed, and while a task runs none of its actions is confirmed or executing |
| TaskTheorems.ConcurrencyBound | internal/core/runtime.go:1631-1644 | attempts and action attempts in progress never exceed what was in force at the latest successful claim |
| TaskTheorems.LastActionCompletes | internal/core/runtime.go:2150-2171 | executing an action completes its task exactly if the task awaits that version and every other action of it is executed, and then nothing of the task can still be executed |
| TaskTheorems.FailTaskKeepsExactlyWhen | internal/core/runtime.go:1787-1807 | failing a task keeps the invariant exactly if the attempt that is named belongs to the running version |
| TaskTheorems.MixedUpTasksBreak | internal/core/runtime.go:1787-1807 | a reachable state in which a failed task has an attempt in progress and a running one has none, because the failure named the attempt of the other task |
| TaskTheorems.EndActionKeepsExactlyWhen | internal/core/runtime.go:2173-2225 | ending an action keeps the invariant exactly if the action is not executing under that version, or the run that is named does not carry another executing action |
| TaskTheorems.MixedUpActionsBreak | internal/core/runtime.go:2173-2225 | a reachable state in which an action executes without a run, because the end of another one named its run |
| TaskTheorems.StepKeeps | internal/core/runtime.go:1105-1273 | every transaction on tasks and actions keeps the invariant, if a reported failure names an attempt or run of that task or action |
| TaskTheorems.StepCore | internal/core/runtime.go:1562-1575 | every transaction keeps once-only attempts and executions and current live actions, whichever attempt is named |
| TaskOutcomes.NoTaskIsStuck | internal/core/runtime.go:1809-1848 | after any run, whatever failed, was cut off or went stale, some course of the owner and the runtime completes the task |
| TaskOutcomes.ApprovalIsCarriedOut | internal/core/runtime.go:1743-1785 | once the owner agrees to what an attempt proposed, some course of the runtime executes every action, and with the last one the task is complete |
| TaskOutcomes.CompletionOutcome | internal/core/runtime.go:1730-1752 | a finished attempt completes its task exactly if nothing is proposed or prepared; it blocks it exactly if something is, the runtime is proactive and it is not all newly proposed and destructive; else the task awaits confirmation |
| TaskOutcomes.CompletionRows | internal/core/runtime.go:1753-1785 | exactly the proposals are added, for that version, the attempt is done, and nothing else changes; without an attempt in progress on the running version nothing happens |
| TaskOutcomes.ClaimOutcome | internal/core/runtime.go:1619-1680 | a pending task is taken up exactly if the runtime runs and has room, which for a direct runtime means that nothing is under way |
| TaskOutcomes.FailureOutcome | internal/core/runtime.go:1787-1807 | the running version fails, and the named attempt and no other is marked |
| TaskOutcomes.EndingDecisionOutcome | internal/core/runtime.go:1135-1254 | a decision to cancel or finish starts the task over in that state and drops its work, unless it is unknown or there already |
| TaskOutcomes.OpeningDecisionOutcome | internal/core/runtime.go:1135-1254 | new work opens a task or starts it over, for clarification if so asked outside a proactive runtime; a completed task is opened only by an update |
| TaskOutcomes.DecisionsInOrder | internal/core/runtime.go:1135-1254 | each decision of a batch finds what those before it left |
| TaskOutcomes.SourceChangeOutcome | internal/core/runtime.go:744-771 | a changed source message starts the task over as stale or cancelled and drops its work, unless it was cancelled |
| TaskOutcomes.OwnerOutcome | internal/core/runtime.go:1809-1848 | everything but a completed task is cancelled; a task that stands still is retried unless a message has an unknown outcome |
| TaskOutcomes.ResumeOutcome | internal/core/runtime_task_resume.go:96-125 | a failed task is resumed exactly if none of its actions is confirmed, executing or unknown |
| TaskOutcomes.CardOutcome | internal/core/runtime_card.go:280-341 | one answer settles all open actions of a card of the waiting task, and a refusal cancels the task; any other card is not answered |
| TaskOutcomes.ConfirmationOutcome | internal/core/runtime.go:1948-1968 | exactly a proposed action of the awaiting version is confirmed |
| TaskOutcomes.ProposalOutcome | internal/core/runtime_direct_action.go:17-61 | exactly an attempt in progress on the running version adds a proposal |
| TaskOutcomes.ActionClaimOutcome | internal/core/runtime.go:2060-2133 | a confirmed action of the awaiting version starts exactly if there is room |
| TaskOutcomes.ExecutionOutcome | internal/core/runtime.go:2135-2171 | the executing action and its run are done, and the task is complete exactly with its last action |
| TaskOutcomes.BrokenOffOutcome | internal/core/runtime.go:2173-2225 | the executing action, the named run and the awaiting task end as failed or unknown, and nothing else changes |
| TaskOutcomes.RestartOutcome | internal/core/runtime.go:2322-2344 | running tasks have failed; if an action was executing, it and every awaiting task are unknown |
| TaskOutcomes.RestartEndsWork | internal/core/runtime.go:2322-2344 | after a restart no attempt and no run is under way |
| TaskOutcomes.ReconfigurationOutcome | internal/core/runtime_config_guard.go:37-51 | every task that is not completed, cancelled, stale or of unknown outcome is stale under a new version, and all work is dropped |
| TaskOutcomes.RetentionOutcome | internal/core/direct_retention.go:443-443 | waiting actions of the tasks are outdated, executing ones unknown |
| TaskEngine.Engine.StaleRuntimeTaskWork | internal/core/runtime.go:1562-1575 | waiting actions become outdated, executing ones unknown, work in progress is dropped |
| TaskEngine.Engine.CompleteRuntimeBatch | internal/core/runtime.go:1135-1254 | the decisions of a batch, applied in order |
| TaskEngine.Engine.MessageChanged | internal/core/runtime.go:744-771 | a revised or withdrawn source message moves the task to a new version and drops its work |
| TaskEngine.Engine.ClaimRuntimeTask | internal/core/runtime.go:1619-1680 | one attempt at the chosen pending task if the runtime may start one more |
| TaskEngine.Engine.CompleteRuntimeTask | internal/core/runtime.go:1694-1785 | the attempt ends and the task is completed, blocked or awaits confirmation; refused for another version or attempt |
| TaskEngine.Engine.FailRuntimeTask | internal/core/runtime.go:1787-1807 | task and named attempt fail |
| TaskEngine.Engine.SetRuntimeTaskStatus | internal/core/runtime.go:1809-1848 | an owner cancels or retries under a new version |
| TaskEngine.Engine.ResumeRuntimeTask | internal/core/runtime_task_resume.go:96-125 | a failed task goes back to pending under a new version unless an action may have taken effect |
| TaskEngine.Engine.ProposeRuntimeAction | internal/core/runtime_direct_action.go:17-61 | a new proposal of the attempt in progress |
| TaskEngine.Engine.ConfirmRuntimeActionFromMessage | internal/core/runtime.go:1948-1968 | a proposal of the awaiting version is confirmed once |
| TaskEngine.Engine.ConfirmRuntimeCard | internal/core/runtime_card.go:280-341 | all open actions of the card are confirmed or rejected together |
| TaskEngine.Engine.ClaimRuntimeAction | internal/core/runtime.go:2060-2133 | a confirmed action of the awaiting version starts executing under a new run |
| TaskEngine.Engine.CompleteRuntimeAction | internal/core/runtime.go:2135-2171 | the action is executed, and the task completed with its last one |
| TaskEngine.Engine.EndRuntimeAction | internal/core/runtime.go:2173-2225 | the action failed or its outcome is unknown, and its task with it |
| TaskEngine.Engine.RecoverRuntime | internal/core/runtime.go:2322-2344 | after a restart running work failed and executing actions are unknown |
| TaskEngine.Engine.InvalidateRuntimeConfigWork | internal/core/runtime_config_guard.go:37-51 | a new configuration makes open work stale under new versions |
| MessageTheorems.BatchedIsHeld | internal/core/runtime.go:1002-1018 | in every reachable state a batched row names an analysing batch of its runtime that holds the message at the row's revision |
| MessageTheorems.EachRevisionInOneBatch | internal/core/runtime.go:1002-1018 | if every claim finds its picks synchronised, no runtime has two batches, completed or open, for one revision of a message |
| MessageTheorems.ClaimTracksExactlyWhenFresh | internal/core/runtime.go:1012-1018 | a claim keeps the books right exactly if every row it picks is at its message's current revision |
| MessageTheorems.UnsyncedClaimRepeats | internal/core/runtime.go:1012-1018 | without the synchronisation one revision is completed by two batches |
| MessageTheorems.NoneStaleExactlyWhenSighted | internal/core/runtime.go:591-735 | a synchronisation over the routes leaves no pending row of the runtime at an old revision exactly if it reads the message of each such row |
| MessageTheorems.SyncedClaimIsFresh | internal/core/runtime.go:953-1018 | a claim right after a synchronisation that reads the message of every pending row at an old revision picks only current rows, whatever it sweeps |
| MessageTheorems.FullPageLeavesStale | internal/core/runtime.go:598-633 | of more than 100 pending rows at an old revision, a synchronisation of at most 100 messages leaves one as it was |
| MessageTheorems.OneObservationPerPair | internal/core/runtime.go:938-1001 | over any run: of an associated pair all batches since the association hold one and the same message in one and the same runtime, the claimed one |
| MessageTheorems.PutBackAtMostTwice | internal/core/runtime.go:1298-1318 | over any run a failure under a work lease, conflicts aside, puts one revision back in a queue at most twice |
| MessageTheorems.StepFits | internal/core/runtime.go:591-782 | every transaction on messages, rows, batches and associations keeps each row in step with its batch, route and revision |
| MessageOutcomes.ThreeAttempts | internal/core/runtime.go:1286-1303 | in any reachable state, a revision whose analysis keeps failing for reasons that may pass is put back by the first two failures and given up by the third |
| MessageOutcomes.FailureOutcome | internal/core/runtime.go:1275-1322 | under a work lease a conflict puts the rows back, and so does an unavailable service, a timeout or a restart of the first two attempts; anything else gives them up; each failure counts; without a lease they go back uncounted; other rows stay |
| MessageOutcomes.CompletionOutcome | internal/core/runtime.go:1116-1133 | a batch is completed exactly if it is analysing and each message is available at the revision that was read; its rows are processed, others stay |
| MessageOutcomes.SightingOutcome | internal/core/runtime.go:648-735 | a row that nothing concerns stays; else it stands at the current revision where its message belongs: withdrawn, context, ignored, awaiting its receipt or queued |
| MessageOutcomes.FirstRouteIsTaken | internal/core/runtime.go:916-1019 | the first due route with picks in its queue gives the batch, after the duplicates of the routes up to it have left |
| MessageOutcomes.NoRouteNoBatch | internal/core/runtime.go:916-1019 | without such a route only duplicates leave the queue |
| MessageOutcomes.BatchOutcome | internal/core/runtime.go:982-1012 | the batch holds exactly the picks at the current revisions of their messages |
| MessageOutcomes.AttemptOutcome | internal/core/runtime.go:1009-1011 | its attempt is one more than the highest retry count in the queue |
| MessageOutcomes.MarkingOutcome | internal/core/runtime.go:1012-1018 | exactly the rows of the picks that stand at the current revision are marked with the batch |
| MessageOutcomes.DuplicatesOutcome | internal/core/runtime.go:924-950 | exactly the pending rows of the route leave whose association is claimed for another observation or owned by a group agent |
| MessageOutcomes.IgnoringOutcome | internal/core/runtime.go:606-611 | exactly the pending rows of the route are ignored |
| MessageOutcomes.ApprovalOutcome | internal/core/runtime.go:1969-1973 | the row of an available approval message is processed at its current revision |
| MessageOutcomes.AssociationOutcome | internal/core/message_association.go:41-117 | two messages are associated exactly if their channels differ and neither is associated; the claim goes to one that has started, if any has |
| MessageOutcomes.MessageOutcome | internal/core/message.go:369-430 | a message arrives once at revision one, a new content counts one revision on, and a recall or expiry touches only its availability |
| MessageDesk.Desk.SyncRuntimeMessages | internal/core/runtime.go:648-735 | the rows of the sighted messages, one after the other |
| MessageDesk.Desk.IgnoreRoute | internal/core/runtime.go:606-611 | pending rows of an ignored route leave the queue |
| MessageDesk.Desk.ClaimRuntimeBatch | internal/core/runtime.go:914-1019 | routes are swept in order, duplicates leave the queue, and the first route that is ready gives one new batch |
| MessageDesk.Desk.MarkDuplicates | internal/core/runtime.go:924-950 | pending rows whose association is claimed elsewhere, or owned by a group agent, leave the queue |
| MessageDesk.Desk.ClaimAssociations | internal/core/runtime.go:993-1000 | each unclaimed association is claimed by the first pick it concerns |
| MessageDesk.Desk.NextAttempt | internal/core/runtime.go:1009-1011 | one more than the highest retry count in the queue |
| MessageDesk.Desk.CompleteRuntimeBatch | internal/core/runtime.go:1116-1133 | the batch completes exactly if it is analysing and all its messages are unchanged and available |
| MessageDesk.Desk.FailRuntimeBatch | internal/core/runtime.go:1275-1322 | the batch fails and its rows go back, or are given up, by code, attempt and work lease |
| MessageDesk.Desk.ConfirmedByMessage | internal/core/runtime.go:1969-1973 | an approval message counts as processed |
| MessageDesk.Desk.AssociateVerifiedMessages | internal/core/message_association.go:41-117 | a pair on two channels, neither linked before, is linked with the observation that already started, if any |
| IntakeTheorems.RecallIsForEver | internal/core/message.go:489-556 | once a recall is recorded, before or after its message, the message and all evidence from any of its revisions stay withdrawn whatever follows |
| IntakeTheorems.OrderDoesNotMatter | internal/core/message.go:469-523 | a message is recalled exactly if a recorded event recalls it and exists exactly if another recorded event tells of it, in whatever order they came |
| IntakeTheorems.ReplayChangesNothing | internal/core/message.go:327-337 | an event that was taken once changes nothing ever after |
| IntakeTheorems.RevisionsInOrder | internal/core/message.go:407-430 | revisions are exactly 1 to the current one, and neighbours differ in content |
| IntakeTheorems.LatestContentWins | internal/core/message.go:407-430 | the current revision holds the content of the event just recorded |
| IntakeTheorems.ChangesAreCounted | internal/core/message.go:546-555 | the counter of a source never falls, and rises whenever its state changes |
| IntakeTheorems.EditBackIsLostExactlyWhen | internal/core/message.go:170-177 | in every reachable state an event without identifier whose content is not the current one is lost exactly if an event with the same origin, kind, sender, times and content was taken before; else its content becomes current |
| IntakeTheorems.EditBackIsLost | internal/core/message.go:170-177 | a text that returns under the same times after another one replaced it is lost |
| IntakeOutcomes.EvidenceExactlyWithBody | internal/core/message.go:419-434 | over any run a revision has evidence exactly if the event that wrote it had a body |
| IntakeOutcomes.EvidenceOutcome | internal/core/message.go:419-434 | a new revision with a body gets its evidence, available or, after a recall, withdrawn; nothing else gets any, and other evidence stays |
| IntakeOutcomes.NewsOutcome | internal/core/message.go:363-487 | news writes the first revision, the next one if the content differs, or none; a recall that is recorded withdraws the message, and otherwise its availability stays |
| IntakeOutcomes.RecallOutcome | internal/core/message.go:489-556 | a recall is kept with its time and withdraws exactly its message and all its evidence, if it is known |
| IntakeOutcomes.ExpiryOutcome | internal/core/direct_retention.go:368-437 | exactly the available messages of the list expire, each once, with their evidence |
| IntakeDesk.Desk.Intake | internal/core/message.go:287-361 | an event is ignored, recognised, or recorded and applied; the report names its status, revision, availability and whether the content is new |
| IntakeDesk.Desk.ApplyMessage | internal/core/message.go:363-467 | a new revision exactly if the content differs from the newest, then the recall is settled |
| IntakeDesk.Desk.ApplyRecall | internal/core/message.go:489-522 | the recall is kept and withdraws the message if it is known |
| IntakeDesk.Desk.MarkRecalled | internal/core/message.go:527-556 | the message and every source of it are withdrawn, each with its counter raised |
| IntakeDesk.Desk.SettleAvailability | internal/core/message.go:471-487 | a recall that came first withdraws the message that follows |
| IntakeDesk.Desk.ExpireMessages | internal/core/direct_retention.go:368-437 | messages past their term and their evidence expire, unless already withdrawn |
| CoverageTheorems.CoverageIsHonest | internal/core/coverage.go:64-131 | over any mix of pulls and imports: every instant from the first complete window to the covered mark was read, a resolved gap lies inside one complete window, an open gap keeps the flag up |
| CoverageTheorems.CoveredNeverRecedes | internal/core/coverage.go:93-102 | the covered mark never moves back |
| CoverageTheorems.RecordSettlesFlag | internal/core/coverage.go:116-121 | after every recorded attempt the flag is up exactly if a gap is open |
| CoverageTheorems.FlagIsExactWithoutImports | internal/core/coverage.go:116-121 | over runs of pulls the flag is exact |
| CoverageTheorems.RecordedWindows | internal/core/coverage.go:64-131 | an attempt adds its window, a complete one resolves exactly the open gaps inside its range, and one beyond the covered mark adds the gap between |
| CoverageTheorems.RecordedMarks | internal/core/coverage.go:93-130 | the covered mark moves to the end of a complete window that is the first or starts no later than the mark, and never back; the observed mark follows |
| CoverageTheorems.ObservedMark | internal/core/coverage.go:36-44 | the observed mark moves to a later message and never back |
| CoverageTheorems.ImportedWindows | internal/core/history_import.go:284-286 | an import marks exactly the earlier attempts at its own range as complete |
| CoverageTheorems.ImportFlagExactlyWhen | internal/core/history_import.go:279-291 | after a finished import the flag is exact exactly if the import leaps over a gap, an open gap reaches out of its range, or no gap of another range is resolved or lies inside its range |
| CoverageTheorems.ImportRaisesFlagWrongly | internal/core/history_import.go:279-291 | a reachable state in which the flag is up and no gap is open |
| CoverageTheorems.CatchUpBound | internal/core/coverage.go:228-255 | with complete pulls at a fixed time the present is reached after exactly the distance divided by span less overlap, rounded up, and not before |
| CoverageTheorems.CatchUpInStrides | internal/core/coverage.go:228-255 | each pull moves the mark by span less overlap, but not beyond the present |
| CoverageTheorems.ProposedWindow | internal/core/coverage.go:228-255 | the first window is one span long and ends now; later ones start the overlap before the covered mark and end now or a span later |
| CoverageTheorems.PullsStayInThePast | internal/core/coverage.go:228-255 | over any series of pulls at times that do not go back, with an overlap: the covered mark never passes the present and no gap opens |
| CoverageTheorems.SecondPullCoversTheFuture | internal/core/coverage.go:245-253 | without an overlap the second pull at one instant covers a span that lies in the future |
| CoverageLedger.Ledger.RecordCoverage | internal/core/coverage.go:64-131 | window, resolved gaps, mark, new gap and flag as one step; refused for an empty range or a partial one without reason |
| CoverageLedger.Ledger.ObserveMessage | internal/core/coverage.go:36-44 | only the observed mark advances |
| CoverageLedger.Ledger.FinishImport | internal/core/history_import.go:276-291 | the import's window, then its earlier attempts count as read |
| HistoryTheorems.OneStepAtATime | internal/core/history_import.go:158-190 | in every reachable state a source has at most one unexpired running claim |
| HistoryTheorems.TokenUsedAtMostOnce | internal/core/history_import.go:191-213 | over any run each claim token commits or fails at most one step |
| HistoryTheorems.StaleWorkerNeverCommits | internal/core/history_import.go:191-213 | a worker whose claim expired, ended or was taken over never commits a page nor records a failure, whatever happens later |
| HistoryTheorems.EventsAccounted | internal/core/history_import.go:298-303 | events are applied plus duplicates in every reachable state, and after five failures in a row the import has stopped |
| HistoryTheorems.AtMostFiveFailuresInARow | internal/core/history_import.go:306-326 | over any run an import fails at most five times between commits and retries by hand |
| HistoryTheorems.QueuedStepWaits | internal/core/history_import.go:176-176 | nobody takes up a queued import before its time, whatever happens short of a cancellation or a retry by hand of that import |
| HistoryTheorems.FailedStepRests | internal/core/history_import.go:316-321 | after a failure the import rests 30 seconds, doubled once for each failure in a row before it |
| HistoryTheorems.CompletedIsFinal | internal/core/history_import.go:123-136 | a completed import never changes again |
| HistoryTheorems.CursorMovesOn | internal/core/history_import.go:227-303 | over any run without a retry by hand, each committed step that leaves the import queued goes on from another cursor than the one before |
| HistoryOutcomes.NoImportIsStuck | internal/core/history_import.go:123-190 | after any run, whatever failed, was cancelled or was left claimed, some course completes the import |
| HistoryOutcomes.CountersAddUp | internal/core/history_import.go:298-303 | over any run the applied events are the new ones of the committed pages, and the duplicates the known ones |
| HistoryOutcomes.CommitOutcome | internal/core/history_import.go:215-304 | a page under a live claim adds its new and known events; the last one completes the import, one with a new cursor queues it at once, any other stops it |
| HistoryOutcomes.FailureOutcome | internal/core/history_import.go:306-326 | one more failure and 30, 60, 120, 240 or 480 seconds of rest; the fifth, or a final code, stops the import |
| HistoryOutcomes.ClaimOutcome | internal/core/history_import.go:158-190 | a due import is claimed for two minutes exactly if no claim of its source is live |
| HistoryOutcomes.CreationOutcome | internal/core/history_import.go:64-91 | exactly a range of at most 30 days that the source and route have no import for is queued |
| HistoryOutcomes.OwnerOutcome | internal/core/history_import.go:123-154 | everything but a completed import is cancelled; a failed or cancelled one starts afresh from the place that is found |
| HistoryDesk.Desk.CreateHistoryImport | internal/core/history_import.go:64-91 | one import per range of at most 30 days |
| HistoryDesk.Desk.CancelHistoryImport | internal/core/history_import.go:123-136 | cancelled unless completed |
| HistoryDesk.Desk.RetryHistoryImport | internal/core/history_import.go:137-154 | queued afresh if failed or cancelled |
| HistoryDesk.Desk.ClaimHistoryImport | internal/core/history_import.go:158-190 | a due import under a new token for two minutes, if no claim of the source is live |
| HistoryDesk.Desk.FinishHistoryImport | internal/core/history_import.go:215-304 | counters, cursor and status of a committed page; refused without a live claim or for a bad page |
| HistoryDesk.Desk.FailHistoryImport | internal/core/history_import.go:306-326 | one more failure, a doubled delay, and the end after the fifth |
| Redaction.MarkCleansExactlyWhen | internal/core/direct_retention.go:168-173 | before the placeholder is put in, none of the texts is left exactly if none was there or none is part of the marker's word |
| Redaction.MarkCanLeaveAText | internal/core/direct_retention.go:170-170 | before the placeholder is put in, the text "e" is back after its own removal |
| Redaction.MarkKeepsTheRest | internal/core/direct_retention.go:168-173 | the result is the input with non-overlapping pieces, each one of the texts, replaced by markers; what lies between is unchanged, in order, and free of every text |
| Redaction.MarkRemoves | internal/core/direct_retention.go:168-173 | before the placeholder is put in, each text outside the marker's word is gone, whatever the others are |
| Redaction.RedactCleansExactlyWhen | internal/core/direct_retention.go:168-173 | the finished redaction hides a text for every input and every list exactly if it cannot be read across an edge of the placeholder and no text breaks a marker open so that it is left readable |
| Redaction.SortedRedactCleansExactlyWhen | internal/core/direct_retention.go:131-173 | the same for lists with longer texts first, where only a text that is not longer can break the marker open |
| Redaction.SortedTextCanReturn | internal/core/direct_retention.go:131-173 | "gov" is readable after the redaction of itself among the sorted texts "gov" and "e" |
| RetentionWalk.WalkHides | internal/core/direct_retention.go:136-178 | after the walk no text field shows a text of the list, and blanked fields below an expired source are empty, at every depth; for texts that cannot be read across an edge of the placeholder and that no text of the list leaves readable in a broken marker |
| RetentionWalk.WalkKeepsUntouched | internal/core/direct_retention.go:136-178 | a document that mentions no text and no expired source comes back as it was |
| RetentionOutcomes.BlankOutcome | internal/core/direct_retention.go:139-155 | a body, content or quote below an object that names an expired source, by source_id or by its own id next to fragments, is empty, at every depth |
| RetentionOutcomes.PlaceOutcome | internal/core/direct_retention.go:136-178 | everything else keeps its place; a text under one of the ten keys for people is redacted, and every other value stays |
| RetentionWalk.RedactText | internal/core/direct_retention.go:514-530 | the loop over the texts, then the placeholder |
| RetentionWalk.WalkInPlace | internal/core/direct_retention.go:136-178 | the walk that overwrites each map and list entry in turn |
| LeaseTheorems.FencesStrictlyIncrease | internal/core/channel.go:665-687 | the acquisitions of a run get the fences 1, 2, 3, ... |
| LeaseTheorems.AcceptedFencesInOrder | internal/channel/collect.go:428-435 | the fences of accepted writes never go down |
| LeaseTheorems.AcceptedExactlyUnderLatestGrant | internal/core/channel.go:691-703 | a write is accepted exactly under the token and fence of the latest acquisition, expired or released |
| LeaseTheorems.SupersededForEver | internal/core/channel.go:691-703 | once another grant is made the token before it is never accepted again |
| LeaseTheorems.HolderKeepsChannel | internal/core/channel.go:675-681 | until its time runs out nothing that others try takes the channel from a holder that does not start again, renew or release |
| LeaseTheorems.TakenOverExactlyAfterExpiry | internal/core/channel.go:665-733 | over any run in which its holder does not extend it, a lease is followed by another grant exactly if somebody with a name, a valid time and a new token tried after it had run out or was released |
| LeaseTheorems.GrantLasts | internal/core/channel.go:665-687 | a named holder that asks for a second to a day gets an open channel with the next fence and keeps it for that time whatever others try; any other request changes nothing |
| LeaseTheorems.RenewalLasts | internal/core/channel.go:705-719 | a renewal under the current token and fence gives the asked time anew from now, and the channel for that time; any other renewal changes nothing |
| LeaseTheorems.WritesLandExactlyUnderTheGrant | internal/channel/collect.go:428-462 | over any run exactly the writes under the grant of their time land, in their order |
| LeaseRenewal.RenewReceiverLease | internal/channel/collect.go:396-426 | the loop ends in the call that the rule picks |
| LeaseRenewal.Renew | internal/channel/collect.go:396-426 | success only in a call that began before expiry, after calls that all were busy with time to spare |
| LeaseRenewal.EndsExactly | internal/channel/collect.go:396-426 | the loop goes on exactly while the store is busy and more than 250 milliseconds are left, and ends at the first other call as that call decides |
| LeaseDesk.Channel.AcquireLease | internal/core/channel.go:665-687 | a new token and the next fence, unless another holder is live or the time is out of bounds |
| LeaseDesk.Channel.CheckLease | internal/core/channel.go:691-703 | token and fence are the current ones |
| LeaseDesk.Channel.RenewLease | internal/core/channel.go:705-719 | a new time for the current grant |
| LeaseDesk.Channel.ReleaseLease | internal/core/channel.go:723-733 | the time of the current token ends now |
| LeaseDesk.Channel.IntakeFenced | internal/channel/collect.go:428-462 | a write goes through exactly if the check inside its transaction passes |
| OutboxTheorems.SentAtMostOnce | internal/core/dispatch.go:201-236 | over any run a row enters sending at most once and has at most one attempt |
| OutboxTheorems.EachReplySentAtMostOnce | internal/core/outbox.go:230-253 | over any run a reply to one input on one route is sent at most once, however often it is prepared |
| OutboxTheorems.HandedOverForGood | internal/core/dispatch.go:286-342 | a reply that was handed over is never stale, cancelled or waiting again, and one left unknown by a restart stays so |
| OutboxTheorems.FinishAgreesExactlyWhen | internal/core/runtime.go:3038-3049 | ending a delivery keeps row and attempt in step exactly if the attempt number is right |
| OutboxTheorems.WrongNumberParts | internal/core/runtime.go:3038-3049 | a reachable state in which the row is accepted and its attempt still sending |
| OutboxTheorems.AttemptsAgree | internal/core/dispatch.go:241-342 | over runs with right numbers every handed-over row stands as its attempt does |
| OutboxOutcomes.ReplyCanBeDelivered | internal/core/dispatch.go:201-262 | after any run a reply that still waits can be sent and accepted, with one attempt |
| OutboxOutcomes.ReconciliationOutcome | internal/core/dispatch.go:309-342 | evidence makes an unknown delivery accepted, with a receipt, or free to retry; nothing else is reconciled |
| OutboxOutcomes.SendingOutcome | internal/core/dispatch.go:201-236 | exactly a waiting row with its digest and all checks, or a ready one that is current, is handed over with a new attempt |
| OutboxOutcomes.FinishOutcome | internal/core/runtime.go:3038-3049 | a row that is being sent ends as told, and its attempt if the number is right |
| OutboxOutcomes.ReportOutcome | internal/core/dispatch.go:241-262 | a row that is being sent takes the reported state with its attempt, accepted only with a receipt |
| OutboxOutcomes.CancellationOutcome | internal/core/dispatch.go:286-304 | exactly a waiting or stale row is cancelled, with a reason |
| OutboxOutcomes.PreparationOutcome | internal/core/outbox.go:187-253 | the first reply to an input on a route gets a row: a draft, or ready for a task |
| OutboxOutcomes.PolicyOutcome | internal/core/channel.go:448-455 | exactly the waiting rows of the route or channel are stale |
| OutboxOutcomes.RuntimeOutcome | internal/core/runtime.go:2345-2354 | a restart leaves what was being sent unknown, and a new configuration also makes what waited stale |
| OutboxDesk.Desk.Draft | internal/core/outbox.go:187-253 | a new row, or the one that the route already has for this input |
| OutboxDesk.Desk.AuthorizeDispatch | internal/core/dispatch.go:201-236 | a waiting row with its displayed digest and all checks passed is handed over with a new attempt |
| OutboxDesk.Desk.BeginDelivery | internal/core/runtime.go:3019-3036 | a ready row that is still current is handed over with a new attempt |
| OutboxDesk.Desk.FinishDelivery | internal/core/runtime.go:3038-3049 | the attempt of that number and a sending row end |
| OutboxDesk.Desk.RecordDelivery | internal/core/dispatch.go:241-262 | a sending row and its attempts take the reported state; accepted only with a receipt |
| OutboxDesk.Desk.CancelDraft | internal/core/dispatch.go:286-304 | only a row that was not handed over is cancelled |
| OutboxDesk.Desk.ReconcileDelivery | internal/core/dispatch.go:309-342 | only an unknown delivery, and only on evidence |
| OutboxDesk.Desk.RetireRoute | internal/core/channel.go:448-455 | a new route policy makes waiting rows stale |
| OutboxDesk.Desk.RetireChannel | internal/core/channel_config.go:91-94 | a new channel configuration makes waiting rows stale |
| OutboxDesk.Desk.ReconfigureRuntime | internal/core/runtime_config_guard.go:52-60 | a new runtime configuration makes waiting rows stale and sending ones unknown |
| OutboxDesk.Desk.RestartRuntime | internal/core/runtime.go:2345-2354 | a restart makes sending rows and attempts unknown |
| ReconcileTheorems.CursorNeverPassesUnattempted | internal/channel/data_source.go:507-556 | under every interleaving, with failures, lost checkpoints and cancellation, all routes that the stored cursor passed were attempted |
| ReconcileTheorems.CompleteCycleAdvances | internal/channel/data_source.go:507-556 | a cycle that was not cancelled attempts each of its routes and moves the cursor by exactly their number |
| ReconcileTheorems.EveryRouteVisited | internal/channel/data_source.go:484-557 | from any cursor every route is visited within the number of routes divided by the share of a cycle, rounded up |
| ReconcileTheorems.CycleCanFinish | internal/channel/data_source.go:507-556 | from every point of a cycle that was not cancelled some course of the workers and the loop ends it |
| ReconcileTheorems.StepShrinksWork | internal/channel/data_source.go:507-556 | whatever a worker or the loop does brings the end of the cycle nearer |
| ReconcileTheorems.ChainsExist | internal/channel/data_source.go:484-557 | from every start there are series of finished cycles of any length, so the bound on visits speaks of something |
| ReconcileTheorems.StepKeeps | internal/channel/data_source.go:507-556 | no taken offset is lost except after a cancellation, and results speak only of attempted routes, after every step of a worker or of the loop |
| ReconcileOutcomes.BeginOutcome | internal/channel/data_source.go:498-513 | a cycle has two workers and twenty routes, or all if there are fewer |
| ReconcileOutcomes.TakeOutcome | internal/channel/data_source.go:513-517 | an idle worker takes the next route, drops it after a cancellation, and leaves without one |
| ReconcileOutcomes.ReturnOutcome | internal/channel/data_source.go:518-525 | a visited route counts as attempted, failed or not |
| ReconcileOutcomes.ReceiveOutcome | internal/channel/data_source.go:531-552 | the oldest result is marked, the place moves to the first hole, and becomes the last checkpoint exactly if it was stored |
| ReconcileLoop.CollectResults | internal/channel/data_source.go:528-552 | the loop does to the results what the model's step for one result does in turn; whatever their order, the mark stands at the first hole, and the cycle fails exactly if a route or a checkpoint did |
| ReconcileBackoff.FailingRouteIsLeftAlone | internal/channel/data_source.go:559-587 | calls to the provider of a failing route spread out, to five minutes from the seventh on |
| ReconcileBackoff.VisitOutcome | internal/channel/data_source.go:559-587 | a route that rests is not called; any other is, and success ends its backoff, a stop leaves it, and a failure adds a rest of 5, 10, 20, 40, 80, 160 or 300 seconds |
| VersionParsing.ParsedExactlyWhenWritten | internal/console/version.go:153-175 | a text is read as a version exactly if it is that version written out, after an optional v and before optional build metadata |
| VersionParsing.WrittenOnce | internal/console/version.go:153-175 | no text is two versions |
| VersionGrammar.GrammarExactly | internal/console/version.go:153-175 | a version has three plain numbers and pre-release identifiers that are not empty, hold only digits, letters and hyphens, and as numbers do not begin with zero; build metadata is such marks with single dots between |
| VersionGrammar.MarkExactly | internal/console/version.go:153-162 | the allowed characters, one by one |
| VersionOrder.NumberIsValue | internal/console/version.go:177-185 | comparing by length and then by text is comparing by value, for numbers of any length |
| VersionOrder.ComparisonIsPrecedence | internal/console/version.go:187-231 | the comparison is the precedence of section 11 of Semantic Versioning 2.0.0, and equal only for equal versions |
| VersionOrder.Antisymmetric | internal/console/version.go:187-231 | swapping the versions flips the sign |
| VersionOrder.Transitive | internal/console/version.go:187-231 | versions are totally ordered |
| VersionCheck.IsNumeric | internal/console/version.go:155-162 | all digits and not empty |
| VersionCheck.CompareVersions | internal/console/version.go:187-231 | the two loops give the comparison, for versions only |
| VersionCheck.CheckTag | internal/console/version.go:50-83 | the tag is one that no readable tag of at most 128 characters exceeds, none if there is none, and the verdict is how the running version stands to it |
| Migration.Convert | internal/cli/config_workspace_migration.go:29-89 | accepted exactly if no alias, repeated key or odd home is in the way; the result is the tree without what is retired, the homes are those of the agents, each once and in their order, and changed exactly if something was retired |
| Migration.Pass.Visit | internal/cli/config_workspace_migration.go:31-82 | one node, with its homes and whether it changed |
| Migration.Pass.VisitEntries | internal/cli/config_workspace_migration.go:35-73 | the entries of a mapping, kept, cut or refused in turn |
| Migration.Pass.VisitItems | internal/cli/config_workspace_migration.go:56-66 | the items of a list, kept or cut in turn |
| MigrationTheorems.EntriesKeptInOrder | internal/cli/config_workspace_migration.go:35-73 | exactly the entries that are not retired stay, in their order |
| MigrationTheorems.ItemsKeptInOrder | internal/cli/config_workspace_migration.go:56-66 | exactly the list items that are not retired stay, in their order |
| MigrationTheorems.UnchangedExactlyWhenClean | internal/cli/config_workspace_migration.go:83-85 | a tree is left alone exactly if nothing in it is retired |
| MigrationTheorems.SecondPassIsQuiet | internal/cli/config_workspace_migration.go:29-89 | a second pass accepts the result, changes nothing and finds no home |
| MigrationTheorems.OtherSectionsUntouched | internal/cli/config_workspace_migration.go:42-45 | whatever stands under another top-level key, if its name has no slash, is kept as it is |
| MigrationOutcomes.EveryHomeReported | internal/cli/config_workspace_migration.go:42-55 | the reported homes are the texts of the entries home directly under a key of the agents, each once, in the order of the document, whatever lists stand between |
| MigrationOutcomes.RefusedExactlyWhenBad | internal/cli/config_workspace_migration.go:32-54 | a document is refused exactly if some place that is not retired holds an alias, a repeated key, or a home that is no text |
| MigrationOutcomes.RetiredExactly | internal/cli/config_workspace_migration.go:43-47 | for keys without a slash, exactly which settings are retired |
| MigrationOutcomes.DroppedExactly | internal/cli/config_workspace_migration.go:56-66 | exactly which list items are dropped: one capability of an agent, and the paths of the retired skill |

## Left out

- SQL, SQLite, locks and retries of transactions: one transaction is one atomic step, and an error means no change.
- Guards that read tables outside a model (leases of work, pools, lanes, route eligibility, sender identity, card templates, policy checks) are boolean parameters of an operation, or the choice of the row that a query returns.
- Fields that no decision depends on: titles, texts, results, error codes, audit records, most timestamps.
- The task, message and outbox models hold the rows of one runtime, of all runtimes, and of one database respectively; a batch's decisions and its rows are modelled apart, in TaskModel and MessageModel.
- WorkspaceModel: temporary files of exclusive creation, symbolic links, size limits and permissions; entries of the archive directory are taken to reach the disk in their order, so a file system that reorders them is not covered.
- WorkspaceModel: unrelated failures of a single file operation; the process either performs it or dies.
- WorkspaceModel.RevisionOf: the actor, request identifier, time and size of a record.
- WorkspaceHistory.SortIn: the library sort is a function that puts one item into sorted ones; which of two records of the same time comes first is not fixed by the program.
- MessageDesk.Desk.ClaimRuntimeBatch: which pending rows are read from the head of a queue, and when a route is due, are given with each sweep; the context messages and matters of a batch are left out.
- MessageDesk.Desk.SyncRuntimeMessages: the page of at most 100 messages is the list of sightings; echo, receipt and approval lookups are their flags.
- IntakeModel: principals, relations, attachments, observations, conversations and the correction of history times; a source is known by its message and revision.
- CoverageModel: time texts are integers, and a covered mark always parses.
- HistoryModel: the events of a page are taken in by the intake model, and its window by the coverage model; here a page is whether each event was known, and where to go on.
- Redaction: texts are sequences of characters; a text that holds the NUL character is left out of the guarantees. Lengths are counted in characters.
- RetentionWalk.WalkInPlace: maps and lists are values that the method reassigns entry by entry; sharing of nodes inside one document cannot occur in parsed JSON.
- ApplyDataSourceRetention: its queries and counters; what it does to messages is in IntakeDesk.Desk.ExpireMessages, to actions in TaskModel, to texts in Redaction.
- LeaseDesk.Channel.IntakeFenced: the counters of applied, duplicate and rejected events, and what the write itself does, which is the intake model's part.
- LeaseRenewal.Renew: the calls of the loop are given with their times and answers; the wait of 250 milliseconds between them is inside those times.
- OutboxDesk.Desk.Draft: request contexts, the checks on a new draft, and the digests, which are given.
- OutboxModel: the blocked state, which no code sets, and the contents of the checks.
- ReconcileModel: channel capacity, which is never exceeded, and the time limit of one route; a route list that changes between cycles.
- ReconcileBackoff: the backoff row is a value, not an object.
- VersionModel: fetching and caching of tags; characters stand for bytes.
- MigrationModel: YAML parsing and printing; keys that are not scalars; the test whether a path ends in the retired skill is a parameter; nodes are values that the pass rebuilds.
- Adapters, provider and model calls, the console, the command line, configuration planning, formatting and views: wide but decided field by field.
