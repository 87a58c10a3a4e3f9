# Agentic Control: a verified model

A Dafny model of the parts of the agentic control plane whose behaviour is hardest to see from one
function, with proofs of what the code, its documentation and its tests rely on. Strings, tables and
clocks are values; everything that the code updates in place is a class or a local variable updated in
place, and is proved to compute a specification about which the properties are then proved.

- **Court runs** (`Court`, `CourtInvariants`, `CourtProperties`, `CourtVerdicts`, `CourtEffects`, `CourtWaves`,
  `CourtControls`, `CourtTermination`, `CourtWitnesses`, `CourtEngine`, `Phases`, `SessionControls`). A run owns one worker per role, spawned in
  waves of clerks, jurors and judges. Each engine operation is a step on the run's rows; the invariants hold
  over all sequences of steps, and termination is proved for every fair infinite schedule.
- **Workspace store** (`Documents`, `DocumentEdits`, `Leases`, `Wakeups`). Optimistic document writes and leases are modelled at
  the granularity of SQL statements, with callers interleaving between them; wakeups as timed histories.
- **Session ledger and usage summary** (`UsageLedger`, `UsageKeys`). Cumulative counters that may restart, attributed to
  models and modes, and added up again.
- **Thread turns** (`Segments`, `ThreadEvents`, `Demux`, `Turns`, `TurnTexts`, `TurnMessages`, `ToolRepair`). An event log is split into turns,
  with synthetic ids for events that carry none.
- **Voices** (`Voice`, `VoiceClaims`). An exclusive allocator whose scans iterate maps in an unspecified order.
- **Shell commands** (`Shell`). Quoting, inverted by the shell's own token recognition.
- **Dockets and fanout** (`Plans`, `PlanTexts`, `Delegation`, `DelegationChoices`, `Fanout`,
  `FanoutResults`). Selection, routing, and an event loop that must
  account for every target.
- `Text`, `TextProperties`, `Splitting`, `Lists`, `Places` and `CourtTypes` hold what these share.

## Hypotheses

- Court operations are atomic, and a process of a superseded attempt writes nothing more. Store errors do not
  occur. `CourtWitnesses` shows what goes wrong without the first two. The preset, the delegation decision and
  the role catalogue may differ from one reconcile to the next, except in the termination theorems.
- On a fair schedule a queued worker begins some time, a running one ends some time, and a reconcile follows the end
  of each process. Nothing need happen twice; the reconciles that completion needs are derived from this.
- Document revisions stored are at least 1, which holds unless a caller inserts a document with a negative one.
- Clocks do not run backwards. A wakeup's clock is positive, since 0 stands for "not paused".
- Voice exclusivity needs each session to be presented with one agent. Projects and agent ids are normalised.
- Integer counters are unbounded; sums are assumed not to reach the limits of 64-bit integers.

## Where the code does not do what one might expect

- An interrupt of a worker without a stored session identity is reported as pending and said to be handled later,
  but its control row is completed at once, so no poll delivers it (`CourtControls.PendingInterruptNeedsSession`).
- Failed and cancelled jurors count as running when the phase is evaluated (`Phases.WorkerCounts`).
- Deleting and recreating a document lets a stale writer commit (`Documents.RecreationLosesUpdate`).
- A late release ends a newer lease of the same owner name (`Leases.SharedOwnerNameLosesLease`).
- A reset between the read and the write of a pause is lost (`Wakeups.InterleavedResetIsLost`), and of two resumes
  of one pause the later moves the due time again (`Wakeups.InterleavedResumesDrift`).
- A pause that comes after the due time moves the due time by more than the time paused
  (`Wakeups.DueShiftsByPausedTimeExactlyWhenOnTime`).
- The summary's total can differ from its breakdowns: a snapshot's usage is attributed to no model or mode, and after a
  restart of a counter the total holds the new reading alone (`UsageLedger.SnapshotUsageIsNotAttributed`,
  `UsageLedger.RestartIsNotInUsage`; exactly when, in `UsageLedger.UsageAgreesExactlyWhen` and
  `UsageLedger.TotalAgreesExactlyWhen`).
- The messages of a turn lose the white space between the pieces they are made of, which its text keeps
  (`TurnTexts.MessagesShowTextExactlyWhenTrimmed`).
- A decision whose list of judges holds only blanks gets the preset's judge, not those of its juries
  (`DelegationChoices.JudgeOfPreset`).
- The revision check before the upsert of a document refuses nothing that the upsert itself would accept
  (`DocumentEdits.CheckIsRedundant`).
- The text gathered for a turn outlives its session when one of its ids holds NUL
  (`ToolRepair.NULSurvivesSessionEnd`).
- A reconcile on the snapshot of another one spawns more of a wave that a failed launch cut short
  (`CourtProperties.FailedWaveIsContinued`).
- A binary spelled like an assignment or a reserved word is printed unquoted and not run as a command
  (`Shell.BinaryIsMisreadExactlyWhen`).
- A base label that already ends in a number sign and a number can collide with a numbered label
  (`Fanout.LabelsUniqueExactlyWhen`).

## Model

| member | source | states |
|---|---|---|
| CourtInvariants.StepKeeps | internal/court/engine.go:508-584 | Every operation of a run (begin, attach, finish, poll, reconcile, cancel, interrupt, resume, retry) keeps the invariant: one worker per role, judges only beside completed clerks and jurors, verdict, completion time and phase agreeing with the status, a completed run having only completed workers, the archive holding exactly the earlier attempts, pending controls belonging to the current attempt |
| CourtInvariants.StartHolds | internal/court/engine.go:129-244 | A started run satisfies that invariant, whichever launches fail |
| CourtInvariants.Reachable | internal/court/engine.go:508-584 | So does every state reached by any sequence of operations |
| CourtInvariants.RetryKeeps | internal/court/lifecycle.go:155-202 | A retry archives the ended attempt, fails the controls left over from it and reopens only a run that is not completed |
| CourtInvariants.SpawnUnique | internal/court/store.go:134 | Inserting workers under the uniqueness constraint never gives a role a second worker |
| CourtInvariants.SpawnCovers | internal/court/engine.go:597-632 | When no launch fails, every role asked for has a worker afterwards |
| CourtInvariants.FinishRows | internal/orchestration/worker_lifecycle.go:47-95 | The end of a process writes the one row of its worker, and a cancellation already recorded wins over its result |
| CourtInvariants.FinalVerdictNonEmpty | internal/court/engine.go:984-1021 | The final verdict is never empty, which the agreement of verdict and status rests on |
| CourtProperties.CompletedIsAbsorbing | internal/court/engine.go:508-530 | A completed run is final: after any further operations its status, verdict, phase, archive and every worker apart from session identities are what they were |
| CourtProperties.CompletedStepChangesNothing | internal/court/lifecycle.go:10-76 | No single cancel, retry, worker step, control or reconcile changes the run record, the archive or any worker of a completed run, apart from stored session identities; rows of controls may still be added and settled |
| CourtProperties.VerdictExactlyWhenCompleted | internal/court/operator.go:181-190 | In every reachable state a verdict is served if and only if the run is completed, and then every worker is completed, the phase is complete and the completion time is set |
| CourtProperties.WaveDiscipline | internal/court/engine.go:553-583 | A worker appears after the start only by a reconcile that finds every existing worker completed; a juror only after a clerk phase and before any juror or judge, a judge only once |
| CourtProperties.StaleReconcileKeepsUnique | internal/court/store.go:134 | A reconcile that decided on a snapshot of any age never gives a role two workers |
| CourtProperties.ReconcileAddsNothingExactlyWhen | internal/court/engine.go:553-632 | Whatever snapshot it decided on, a reconcile adds no worker if and only if every role of the wave it is due to spawn has one |
| CourtProperties.RacingReconcilesSpawnOnce | internal/court/engine.go:553-632 | Of two reconciles that took the same snapshot, in surroundings of their own, the second adds no worker if and only if the first left no role of the second wave without one; in the same surroundings both are due to spawn the same roles, so they create one wave when no launch fails |
| CourtProperties.FailedWaveIsContinued | internal/court/engine.go:597-632 | When a launch fails they may not: the second reconcile goes on where the first was cut short |
| CourtVerdicts.VerdictIsTheJudges | internal/court/engine.go:984-1007 | A verdict is made of the results of the judges that have one and of nothing else: the one result as it is, or all of them under their titles, in order |
| CourtVerdicts.VerdictWithoutJudges | internal/court/engine.go:1008-1021 | When no judge has a result it is made of every reported result, in order |
| CourtVerdicts.OnlyJudgeSpeaks | internal/court/engine.go:994-996 | The only judge with a result decides alone |
| CourtVerdicts.OthersHaveNoSay | internal/court/engine.go:984-996 | Once a judge has a result, replacing clerks, jurors and judges without one by whatever else changes nothing |
| CourtVerdicts.ServedVerdict | internal/court/engine.go:543-595 | The verdict that a reconcile writes when it completes a run is that of the judges, or of all workers when no judge has a result |
| CourtEffects.BeginSays | internal/orchestration/worker_lifecycle.go:25-38 | A beginning process changes one row, of a live worker, to running |
| CourtEffects.FinishSays | internal/orchestration/worker_lifecycle.go:47-95 | An ending process writes one row: stopped is cancelled, an error is failed and a success is completed, with its result, unless the worker was cancelled meanwhile |
| CourtEffects.CancelSays | internal/court/lifecycle.go:10-76 | A cancellation keeps the result of the row it cancels and halts the run; its control is completed, pending or failed according to session, runtime and status |
| CourtEffects.InterruptSays | internal/court/lifecycle.go:79-123 | An interrupt records one control of a running worker and nothing else; which status it stores and which it reports |
| CourtEffects.ResumeSays | internal/court/lifecycle.go:126-152 | A resume records one control in any state of the worker and stores the session only when it is adopted |
| CourtEffects.RetrySays | internal/court/lifecycle.go:155-202 | A retry archives the row as it ended, queues the worker afresh for the next attempt and sets the phase of its kind, or leaves both failed |
| CourtEffects.PollSettlesByAnswer | internal/court/agentic_control.go:201-245 | A poll settles a control by the answer that falls to it in the order of the waiting controls |
| CourtEffects.UnknownIsIgnored | internal/court/lifecycle.go:10-202 | An operation on a role without a worker changes nothing |
| CourtWaves.RolesOfKindAre | internal/court/engine.go:811-829 | The roles of a wave are those of the preset of that kind, all of them, in order |
| CourtWaves.SpawnAppends | internal/court/engine.go:597-632 | Of any list of roles, those without a worker and without a namesake before them get a queued worker each, in order, after the workers there are |
| CourtWaves.SpawnStopsAtFailure | internal/court/engine.go:597-632 | The first launch that fails leaves its worker failed, the earlier ones queued and the later ones uncreated, and the run failed |
| CourtWaves.StartsWithKind | internal/court/engine.go:793-809 | A start creates a worker for each clerk, or without clerks for each juror, and is in that phase |
| CourtWaves.StartsWithJudge | internal/court/engine.go:793-809 | Without either it creates the first judge, if any and unless it is for review only |
| CourtWaves.ReconcileHalts | internal/court/engine.go:508-542 | A failed worker fails the run, also beside a cancelled one; otherwise a cancelled worker cancels it; a run that is over or empty stays |
| CourtWaves.ReconcileWaits | internal/court/engine.go:553-557 | While work is under way only the phase moves, and to which, from the workers, the preset and the workflow |
| CourtWaves.ReconcileCompletes | internal/court/engine.go:543-552 | When there are judges and all are completed the run is completed |
| CourtWaves.JurorWave | internal/court/engine.go:558-562 | After the clerks come the jurors of the docket if the run delegates and has one, and otherwise all of the preset |
| CourtWaves.ReviewCompletes | internal/court/engine.go:563-565 | A run for review only is completed after its jurors |
| CourtWaves.JudgeWave | internal/court/engine.go:566-584 | The judges of the bench without a worker get one, in order; when all have one nothing happens |
| CourtWaves.NoBenchCompletes | internal/court/engine.go:566-572 | Without a judge to call the run is completed |
| CourtWaves.UnknownJudgeWaits | internal/court/engine.go:893-940 | A judge of the docket that nobody knows leaves the run as it is |
| CourtWaves.PresetJudgeIsFirst | internal/court/engine.go:884-891 | The judge of a preset is the first role that is one |
| CourtControls.PendingForLists | internal/orchestration/sqlite_ledger_store.go:51-69 | The polled controls are exactly the pending cancel and interrupt rows of the worker, in id order |
| CourtControls.PollSettlesExactly | internal/court/agentic_control.go:201-245 | One poll settles a row if and only if it is a pending cancel or interrupt of that worker with no such cancel before it |
| CourtControls.PollDeliversToOwnAttempt | internal/court/agentic_control.go:201-245 | In a reachable state a poll delivers only controls issued during the attempt whose process polls |
| CourtControls.SettledStays | internal/orchestration/sqlite_ledger_store.go:35-49 | Over any run a settled control never changes again |
| CourtControls.SupersededNeverDelivered | internal/court/lifecycle.go:155-183 | Controls pending when a retry starts are failed by it and, whatever follows, never delivered to a new attempt |
| CourtControls.RetryHistory | internal/orchestration/sqlite_worker_store.go:54-90 | In every reachable state the archived attempts of a worker are exactly 1 to its attempt minus 1, each once, each failed or cancelled |
| CourtControls.PendingInterruptNeedsSession | internal/court/lifecycle.go:79-123 | An interrupt reported as pending stays deliverable if and only if the worker has a stored session identity; without one its row is completed at once and never delivered |
| SessionControls.ReachedStopsAtFirstStop | internal/orchestration/session_control.go:52-84 | A poll reaches the controls up to and including the first stop request, and all of them when there is none |
| SessionControls.HandlePendingSessionControls | internal/orchestration/session_control.go:52-84 | The loop handles those controls in order, reports a cancellation if and only if the first stop was accepted, fails if and only if it was refused, and counts every refusal |
| SessionControls.ErrorsAreRefusals | internal/orchestration/session_control.go:52-84 | The errors are the refusals, each counted once |
| CourtTermination.EveryFairRunCompletes | internal/court/engine.go:553-584 | With pairwise disjoint clerk, juror and judge ids, judges that can be found, and launches and workers that succeed, a run with an initial worker reaches a completed run with a verdict, and its record never changes afterwards, on every infinite schedule in which a queued worker begins some time, a running one ends some time, and a reconcile follows the end of a process |
| CourtTermination.OwedReconcileComes | internal/orchestration/worker_lifecycle.go:47-95 | What such a schedule gives: whenever no worker is active and the run is not completed, a reconcile is still to come |
| CourtTermination.AtMostThreeWaves | internal/court/engine.go:558-583 | Such a run adds workers at most twice after the initial wave |
| CourtTermination.GoodStepMeasure | internal/court/engine.go:508-584 | The measure behind it: waves left, then unfinished work, never rises, and new workers use up a wave |
| CourtTermination.Progress | internal/court/engine.go:508-584 | From any moment of such a schedule at which the run is not completed, the measure goes down later |
| CourtWitnesses.OnceOnlyIsFair | internal/orchestration/worker_lifecycle.go:25-95 | The theorem covers the schedules the engine makes: one in which the only worker begins once, ends once and is followed by one reconcile satisfies its hypothesis |
| CourtWitnesses.OnceOnlyIsGood | internal/orchestration/worker_lifecycle.go:25-95 | And nothing fails in that schedule, for a preset that has just a judge |
| CourtWitnesses.SharedRoleNeverCompletes | internal/court/engine.go:975-982 | Disjoint ids are needed: a juror and a judge with one id leave the run running for ever, whatever is done |
| CourtWitnesses.StallsExactly | internal/court/engine.go:558-583 | Exactly when a reconcile of a running run with all workers completed gets nowhere: every role of the wave that is due already has a worker, or a docket judge cannot be found |
| CourtWitnesses.SupersededWriteReopensCompletedRun | internal/orchestration/sqlite_worker_state_store.go:46-53 | Writes of a superseded attempt must be excluded: the completion statement checks no launch id, and such a write completes a run that is then reopened and loses its verdict |
| CourtWitnesses.InterleavedSpawnBreaksWaves | internal/court/engine.go:597-632 | Operations must be atomic: a reconcile between two inserts of a wave puts a juror beside a queued clerk |
| CourtEngine.SummarizeWorkerStatuses | internal/orchestration/worker_kernel.go:11-24 | The three flags say whether some worker failed, was cancelled, or is queued or running |
| CourtEngine.FinalVerdict | internal/court/engine.go:984-1021 | The loops compute the verdict specified: the one judge result, all judge results in titled sections, or all reported results |
| CourtEngine.Engine.StartRun | internal/court/engine.go:129-244 | The run and its first wave are created statement by statement, as the specification of a start says |
| CourtEngine.Engine.SpawnRoles | internal/court/engine.go:597-632 | Insert, skip on conflict, and stop at the first failed launch |
| CourtEngine.Engine.ReconcileRun | internal/court/engine.go:508-584 | The reconcile, statement by statement, computes the specified new state |
| CourtEngine.Engine.StartNextWave | internal/court/engine.go:545-584 | Its tail: phase evaluation while work is under way, the juror wave, completion without judges, the judge wave |
| CourtEngine.Engine.CompleteRun | internal/court/engine.go:586-595 | Verdict, completed status and complete phase are written together |
| CourtEngine.Engine.BeginWorker | internal/orchestration/worker_lifecycle.go:25-38 | A process that finds its worker ended does nothing; otherwise it marks the row running |
| CourtEngine.Engine.FinishWorker | internal/orchestration/worker_lifecycle.go:47-95 | A process that ends writes its outcome under the guard for cancelled rows |
| CourtEngine.Engine.PollControls | internal/court/agentic_control.go:201-245 | A poll lists, handles and marks the pending controls of its worker |
| CourtEngine.Engine.CancelWorker | internal/court/lifecycle.go:10-76 | A cancel records its control, cancels the row and blocks the run |
| CourtEngine.Engine.InterruptWorker | internal/court/lifecycle.go:79-123 | An interrupt leaves its control pending only when the runtime refused it |
| CourtEngine.Engine.ResumeWorker | internal/court/lifecycle.go:126-152 | A resume records its control and, when adopted, stores the session identity |
| CourtEngine.Engine.RetryWorker | internal/court/lifecycle.go:155-202 | A retry supersedes, archives, resets, reactivates and launches, and marks the row and run failed when the launch fails |
| CourtEngine.Engine.UpdateRunStatus | internal/orchestration/sqlite_run_state_store.go:18-29 | The completion time is set if and only if the new status is terminal |
| Phases.EvaluatePhase | internal/court/workflow.go:259-325 | The single scan with counters computes the declarative result, whose counts are cardinalities |
| Phases.CountIsCardinality | internal/court/workflow.go:259-325 | A count is the number of positions that satisfy the condition |
| Phases.EvaluateOrderIndependent | internal/court/workflow.go:259-325 | The result is the same for every order of the participants |
| Phases.PhaseExactlyWhen | internal/court/workflow.go:296-325 | For every input and every participants, when each phase is reached, by what some or all participants are |
| Phases.CountsSay | internal/court/workflow.go:259-295 | The counts are the numbers of participants of each sort |
| Phases.FlagsSay | internal/court/workflow.go:286-295 | And the flags say whether there are any, and whether the jurors have all they need |
| Phases.WorkerCounts | internal/court/workflow.go:328-349 | For participants made from workers: ready jurors are the completed ones, running jurors all others (failed and cancelled included), they add up to the total, and nothing blocks |
| Phases.WorkerPhase | internal/court/engine.go:844-852 | The phase of a run, case by case, from its juror workers: verdict or inline judge only with a juror and every juror completed |
| Documents.WritesSerialise | internal/controlplane/workspacestore.go:190-250 | For every interleaving of the statements of appends, renames, archivings, clearings, metadata updates and plain writes with no deletion, the row is what the committed operations give one after the other in commit order, and its revision has risen by their number |
| Documents.StepOnDocument | internal/controlplane/workspacestore.go:190-250 | Each commit applies its operation to the row as it then is and raises the revision by one; no other step touches the row |
| Documents.CommitSeesItsRead | internal/controlplane/workspacestore.go:291-354 | No lost update: a read-modify-write that would commit finds the row exactly as it read it, as long as the document is not deleted between that call's own read and its write |
| Documents.RecreationLosesUpdate | internal/controlplane/workspacestore.go:318-321 | Conversely, whatever row a call read and at whatever revision, once the document is deleted while the call is in flight another caller can create it anew, with any content, so that the call still commits and that content is lost |
| Documents.DocumentStore.WriteDocument | internal/controlplane/workspacestore.go:190-250 | Uninterrupted, a write succeeds if and only if the revision check passes and the upsert affects a row, and then stores exactly the written row |
| Documents.DocumentStore.AppendDocument | internal/controlplane/workspacestore.go:307-316 | Append as a read followed by a write of the next revision |
| Documents.DocumentStore.RenameDocument | internal/controlplane/workspacestore.go:323-332 | Rename likewise |
| Documents.DocumentStore.ArchiveDocument | internal/controlplane/workspacestore.go:334-343 | Archive likewise |
| Documents.DocumentStore.ClearDocument | internal/controlplane/workspacestore.go:345-354 | Clear likewise |
| Documents.DocumentStore.AddDocumentMetadata | internal/controlplane/workspacestore.go:291-305 | Metadata merge likewise |
| Documents.DocumentStore.DeleteDocument | internal/controlplane/workspacestore.go:318-321 | Removes the document of that workspace and id and no other |
| DocumentEdits.EffectFollows | internal/controlplane/workspacestore.go:190-354 | Each operation sets its own field and leaves the others: an append adds at the end, new metadata entries come over old ones |
| DocumentEdits.CommitFollows | internal/controlplane/workspacestore.go:190-354 | A commit amid other calls does so to the row as it stands by then, and to no other row |
| DocumentEdits.FieldsSerialise | internal/controlplane/workspacestore.go:190-354 | For any interleaving without deletion a document ends with the content, name and archive mark that its committed operations give in commit order |
| DocumentEdits.AppendsSerialise | internal/controlplane/workspacestore.go:307-316 | With appends alone: the old content followed by every committed text, in commit order, each once |
| DocumentEdits.WriteSucceedsExactlyWhen | internal/controlplane/workspacestore.go:190-250 | An uninterrupted write succeeds if and only if the name is free and the id new or its revision the one before |
| DocumentEdits.CheckIsRedundant | internal/controlplane/workspacestore.go:215-245 | The check before the upsert refuses nothing that the upsert would accept |
| DocumentEdits.NewRow | internal/controlplane/workspacestore.go:190-240 | A document under a new id is stored as it is, apart from times and a first revision |
| Leases.AcquiresAreSeparated | internal/controlplane/workspacestore.go:719-742 | Mutual exclusion: between two successful acquires of one key, for any interleaving of the two statements of the callers, there is a release in the first owner's name, a reset, or a sweep at a time strictly after the first expiry |
| Leases.ExclusiveUntilExpiry | internal/controlplane/workspacestore.go:719-737 | Until its expiry, a lease neither released nor reset stays in the table and no acquire of its key succeeds |
| Leases.LostExactlyWhenEnded | internal/controlplane/workspacestore.go:719-763 | A step takes a held lease away if and only if it is one of those three |
| Leases.StaleReleaseIsHarmless | internal/controlplane/workspacestore.go:739-742 | A release removes a lease if and only if key and owner are its own |
| Leases.SharedOwnerNameLosesLease | internal/controlplane/workspacestore.go:739-742 | The owner name is the only identity: a late release does end a newer lease of the same owner name |
| Leases.LeaseStore.AcquireLease | internal/controlplane/workspacestore.go:719-737 | Uninterrupted, an acquire succeeds if and only if the key is free or its lease expired strictly before now; a failed one changes nothing |
| Leases.LeaseStore.ReleaseLease | internal/controlplane/workspacestore.go:739-742 | Removes the owner's own lease of the key and nothing else |
| Leases.LeaseStore.ResetLease | internal/controlplane/workspacestore.go:760-763 | Removes the lease of the key, whoever owns it, and nothing else |
| Leases.LeaseStore.GetLease | internal/controlplane/workspacestore.go:744-758 | Reports the stored lease if and only if it has not expired |
| Leases.FreeExactlyWhenAcquirable | internal/controlplane/workspacestore.go:719-758 | A key is reported free at a time if and only if an acquire at that time would succeed |
| Wakeups.TimeIsConserved | internal/controlplane/workspacestore.go:682-711 | Over any sequence of pauses, resumes and cancellations with a clock that does not run backwards, the time left is the initial time left less the time not paused, and never below zero |
| Wakeups.DueTimeShifts | internal/controlplane/workspacestore.go:682-711 | The due time moves by the time paused plus the lateness of the pauses |
| Wakeups.DueShiftsByPausedTimeExactlyWhenOnTime | internal/controlplane/workspacestore.go:682-711 | It moves by the time paused alone if and only if every accepted pause began by the due time then in force |
| Wakeups.CancelledStays | internal/controlplane/workspacestore.go:676-711 | A cancelled wakeup stays cancelled and cannot be paused again |
| Wakeups.InterleavedPauseAgreesExactlyWhen | internal/controlplane/workspacestore.go:682-697 | The update of a pause is not guarded: after a change to the row since it was read, it does what a pause of the changed row would do if and only if that row could be paused and had as much time left, or already read as paused so |
| Wakeups.InterleavedResetIsLost | internal/controlplane/workspacestore.go:682-716 | A reset between the two statements of a pause is undone by the next resume |
| Wakeups.InterleavedResumeAgreesExactlyWhen | internal/controlplane/workspacestore.go:699-711 | Nor is the update of a resume: it does what a resume of the changed row would do if and only if that row is paused with the same time left, or already reads as resumed so |
| Wakeups.InterleavedResumesDrift | internal/controlplane/workspacestore.go:699-711 | Of two resumes that read one paused row, the later update moves the due time on by the time between their clock readings |
| Wakeups.ResetStartsAfresh | internal/controlplane/workspacestore.go:713-716 | No pause, firing or cancellation before a reset has an effect after it |
| Wakeups.OperationsTouchTheirFields | internal/controlplane/workspacestore.go:676-711 | A pause, a resume and a cancellation, field by field, and what they leave |
| Wakeups.WakeupStore.PauseWakeup | internal/controlplane/workspacestore.go:682-697 | Accepted if and only if not fired, not cancelled and not paused; stores the time left, at least zero |
| Wakeups.WakeupStore.ResumeWakeup | internal/controlplane/workspacestore.go:699-711 | Accepted if and only if paused; due again after the time left |
| Wakeups.WakeupStore.SetWakeup | internal/controlplane/workspacestore.go:629-644 | A new id is stored unpaused, a used one refused |
| Wakeups.WakeupStore.CancelWakeup | internal/controlplane/workspacestore.go:676-680 | Marks the wakeup cancelled if it is neither fired nor cancelled, and touches no other |
| Wakeups.WakeupStore.ResetWakeup | internal/controlplane/workspacestore.go:713-716 | Gives the wakeup a new due time and clears its marks, and touches no other |
| UsageLedger.Conservation | internal/controlplane/sessionledger.go:319-347 | For any log of cumulative readings, the attributed totals plus what had no key are, counter by counter, the sum of the last readings of the maximal non-decreasing segments |
| UsageLedger.EntryIsAttributed | internal/controlplane/sessionledger.go:177-188 | The entry of a model or mode is what was consumed while the session had it |
| UsageLedger.PeaksOfNonDecreasing | internal/controlplane/sessionledger.go:332-337 | Without resets that sum is the last reading |
| UsageLedger.LedgerConserves | internal/controlplane/sessionledger.go:95-206 | The law for the ledger: for any history of a session its model and its mode totals, each with its unattributed part, both equal that sum |
| UsageLedger.MonotoneLedgerShowsLastReading | internal/controlplane/sessionledger.go:177-188 | With a model known at every reading and no reset, the model totals add up to the last reading |
| UsageLedger.RecordsAreIndependent | internal/controlplane/sessionledger.go:208-221 | The record of a session depends on its own updates only |
| UsageLedger.ProvidersLeadToLastAnnouncer | internal/controlplane/sessionledger.go:223-237 | A provider id leads to the session that last announced it, whose record exists |
| UsageLedger.ListIsUnique | internal/controlplane/sessionledger.go:349-372 | There is one breakdown list of a table: the order of map iteration leaves no trace |
| UsageLedger.ListSumIsSum | internal/controlplane/sessionledger.go:349-372 | A breakdown list holds as much as its table |
| UsageLedger.ListingGoesDown | internal/controlplane/sessionledger.go:349-372 | A listing goes from the largest total down, and by key, compared character by character, where totals are equal |
| UsageLedger.TokenBreakdowns | internal/controlplane/sessionledger.go:349-372 | The listing shows exactly the entries with a non-empty key, largest total first, then by key |
| UsageLedger.SessionLedger.UpsertSession | internal/controlplane/sessionledger.go:35-59 | A snapshot merges model, mode and a non-zero usage into its session alone |
| UsageLedger.SessionLedger.UpdateFromEvent | internal/controlplane/sessionledger.go:95-206 | An event updates its session: model and mode first, then the delta attributed to them |
| UsageKeys.ModelAndModeAreTheLastNamed | internal/controlplane/sessionledger.go:35-163 | A session has the model and the mode last named by an update, an event's own mode before that of its state |
| UsageKeys.LogChargesTheLastNamed | internal/controlplane/sessionledger.go:132-188 | Every reading is charged to the model and the mode last named by then |
| UsageKeys.EntriesAreRises | internal/controlplane/sessionledger.go:177-188 | The entry of a model, or a mode, is how far the counters rose while it was the last one named |
| UsageLedger.SessionLedger.Get | internal/controlplane/sessionledger.go:61-69 | Looks up by session id, otherwise by provider id |
| UsageLedger.UsageSummary | internal/court/usage.go:44-99 | The summary's total and, key by key and in all, its two breakdowns are the sums over the sessions |
| UsageLedger.SummaryConservesReadings | internal/court/usage.go:44-99 | From the events to the summary: with models known, the by-model totals add up to the sum over sessions of their readings before each reset and at the end; with modes known, so do the by-mode totals |
| UsageLedger.UsageAgreesExactlyWhen | internal/controlplane/sessionledger.go:35-206 | For every history of non-negative readings with a model (or mode) known, a session's usage equals its by-model (by-mode) total in a counter if and only if no snapshot carried a usage after the last reading and the readings never fell, or the last such snapshot said what the readings come to |
| UsageLedger.TotalAgreesExactlyWhen | internal/court/usage.go:44-99 | So for the summary: its total differs from a breakdown by the sum of those drifts; without such snapshots it is at most the breakdown, and equal if and only if no session's readings ever fell |
| UsageLedger.SnapshotUsageIsNotAttributed | internal/controlplane/sessionledger.go:35-59 | The first way to differ: a snapshot's usage is attributed to no model |
| UsageLedger.RestartIsNotInUsage | internal/controlplane/sessionledger.go:319-347 | The second: after a restart the usage is the new reading alone, and the breakdown keeps the old one |
| Turns.DeriveThreadTurns | internal/controlplane/service.go:833-929 | The single pass over a mixed log puts out, in order of first occurrence, each turn built from the table of turns |
| Turns.TurnsAreFoldsOfOwnEvents | internal/controlplane/service.go:833-929 | The pass is a demultiplexer: the turn of an id is the fold of the events that resolve to it, alone and in order |
| Turns.TurnsAreListedOnce | internal/controlplane/service.go:833-929 | The turns are the distinct resolved ids in order of first occurrence |
| Turns.EventsAddUp | internal/controlplane/service.go:839-850 | The event counts of the turns add up to the number of events that resolve to a turn |
| Turns.TurnShowsItsEvents | internal/controlplane/service.go:850-897 | Count, status, assistant text and request ids of a turn, from its own events: the last closing event, the last final text with the deltas after it, the ids without repetitions |
| Turns.OneUserMessage | internal/controlplane/service.go:854-858 | However many starts its events hold, a turn gets at most one user message |
| Turns.PresentedUsers | internal/controlplane/service.go:907-915 | When put out it has exactly one if its start gave a prompt or it has a summary |
| TurnTexts.PartAdds | internal/controlplane/service.go:1002-1020 | A part comes after what the assistant has said in its kind, trimmed, and changes no other kind |
| TurnTexts.MessagesSay | internal/controlplane/service.go:859-873 | What a turn's messages say is the pieces of its own events in order, each trimmed, and a final text while nothing else was said or thought |
| TurnTexts.MessagesSayTheDeltas | internal/controlplane/service.go:859-867 | Without a final text: the message pieces, and the thought pieces, one after the other |
| TurnTexts.MessagesShowTextExactlyWhenTrimmed | internal/controlplane/service.go:859-867 | Then the messages show the turn's text if and only if no piece of it begins or ends with white space |
| TurnMessages.MessagesHold | internal/controlplane/service.go:854-882 | The messages hold the tool calls of its completions, a result for each tool that ended and the prompt of its first start: all, once, in order |
| TurnMessages.MessagesAreAddedAtTheEnd | internal/controlplane/service.go:850-882 | No event moves or removes a message |
| TurnMessages.TurnEndsLikeItsEvents | internal/controlplane/service.go:859-897 | Thoughts, end and summary of a turn, from its own events: an error text comes before a summary |
| TurnMessages.PromptSays | internal/controlplane/service.go:957-971 | The prompt: the input text and parts, or else the summary of the start without its announcement |
| TurnMessages.PresentedSays | internal/controlplane/service.go:903-927 | What is put out: the summary as prompt if there is none, and the two texts at the end if the assistant has no message |
| Turns.ThreadTurn.Update | internal/controlplane/service.go:850-897 | One event applied in place to a turn, effect by effect |
| Turns.ThreadTurn.AppendAssistantPart | internal/controlplane/service.go:1002-1020 | Adds trimmed text to the last part of its kind, or starts a part or a message |
| Turns.ThreadTurn.AppendToolCalls | internal/controlplane/service.go:1022-1032 | Adds tool calls to the last assistant message, or to a new one |
| Turns.ThreadTurn.Present | internal/controlplane/service.go:903-927 | The prompt and texts added before a turn is put out |
| Turns.ResolveTurnID | internal/controlplane/service.go:931-944 | The id of an event: its own, or the open synthetic one of its scope, or a new one |
| ThreadEvents.SyntheticTurnsAreSegments | internal/controlplane/service.go:833-944 | Two events without an id share a turn if and only if they are of one scope with no start after the first and no end before the second; scopes never share a turn |
| ThreadEvents.UnnamedEventsShareATurn | internal/controlplane/service.go:833-944 | The same from the events' own fields: which place an event is at, which events begin a turn and which finish one |
| ThreadEvents.SyntheticInjective | internal/controlplane/service.go:939-942 | Synthetic ids of different scopes or numbers differ |
| ThreadEvents.RealTurnsAreByID | internal/controlplane/service.go:931-934 | If no event names a synthetic turn as its own, an event with an id shares a turn only with events of that id |
| Segments.NumbersMarkSegments | internal/controlplane/service.go:931-944 | The numbering with one open number per scope gives two events one number if and only if they are in one segment |
| Segments.OpenExactlyWhileUnbroken | internal/controlplane/service.go:931-944 | A scope keeps its number exactly as long as its segment is unbroken |
| Demux.TableIsFolds | internal/controlplane/service.go:839-850 | Reading a mixed stream once into a table gives each label the fold of its own items |
| Demux.OrderIsDedup | internal/controlplane/service.go:844-849 | The order kept beside the table is the list of labels without repetitions |
| Demux.ItemsAddUp | internal/controlplane/service.go:839-850 | No labelled item is lost or taken twice |
| ToolRepair.Repairer.Handle | internal/controlplane/service.go:166-204 | At the completion of a turn the text handed over is what its own key accumulated since it was last cleared |
| ToolRepair.Repairer.ClearSession | internal/controlplane/service.go:219-236 | Deletes exactly the four-part keys that name a session of the event |
| ToolRepair.KeysAreInjective | internal/controlplane/service.go:206-217 | Without NUL in the ids, two events use one buffer if and only if runtime, sessions and turn agree |
| ToolRepair.HeldIsSaidSince | internal/controlplane/service.go:166-204 | A buffer holds the deltas of its key since it was last emptied, all, in order, and nothing else |
| ToolRepair.AddsExactlyWhen | internal/controlplane/service.go:166-178 | Which deltas a turn's buffer takes: those of the same runtime, sessions and turn |
| ToolRepair.ClearsExactlyWhen | internal/controlplane/service.go:179-236 | What empties it: an end of the turn, of whatever kind, and an end of its session |
| Splitting.SplitJoin | internal/controlplane/service.go:216-230 | Splitting a key undoes joining it, without the separator in the parts |
| Splitting.PiecesLackTheSeparator | internal/controlplane/service.go:228 | Splitting cuts at every separator: no piece holds one |
| ToolRepair.KeySplitsExactlyWhenPlain | internal/controlplane/service.go:206-230 | A key splits into four parts again if and only if no id in it holds NUL |
| ToolRepair.OtherKeysUntouched | internal/controlplane/service.go:172-199 | A delta or the end of a turn leaves the buffers of all other keys as they are |
| ToolRepair.SessionEndClears | internal/controlplane/service.go:200-236 | The end of a session empties the buffer of a turn if and only if the turn is of that session, by its own id or the provider's, and no id in its key holds NUL; every other buffer stays |
| ToolRepair.NULSurvivesSessionEnd | internal/controlplane/service.go:219-236 | So a turn with NUL in an id keeps its text beyond the end of its session |
| Voice.VoicesStayExclusive | internal/apphost/voice.go:155-285 | If each session is always presented with one agent, then after any sequence of operations, and for any orders of map iteration, all bindings of a voice belong to one agent |
| Voice.AnswerIsOrderIndependent | internal/apphost/voice.go:300-315 | Then the conflict scan gives one answer whatever the order of iteration |
| Voice.SharedVoiceIsOrderDependent | internal/apphost/voice.go:300-315 | Exclusivity is exactly what that needs: the scan is order-independent for all such requests if and only if the voices are held exclusively |
| Voice.ClaimIsDeterministic | internal/apphost/voice.go:155-212 | A claim has one outcome, although it scans maps twice |
| VoiceClaims.ClaimantIs | internal/apphost/voice.go:155-157 | A claim speaks for the agent it names, or its metadata names, or else for its session |
| VoiceClaims.VoiceOfClaim | internal/apphost/voice.go:168-183 | A claim that succeeds binds the agent's assigned voice whatever it asked for, or else the voice it asked for, or else an offered one |
| VoiceClaims.ClaimWrites | internal/apphost/voice.go:188-211 | It writes one binding, field by field, under its session or its agent, and the assignment when it is to last |
| VoiceClaims.ClaimRefused | internal/apphost/voice.go:155-186 | A claim that fails changes nothing, and for which reason it does |
| VoiceClaims.AssignmentHolds | internal/apphost/voice.go:125-184 | After an assignment the agent gets the assigned voice or none; other assignments stay |
| VoiceClaims.PickIsFirstFree | internal/apphost/voice.go:287-298 | With voices held exclusively the scan settles on the first offered voice that no other agent holds |
| Voice.TurnedAwayOnlyWhenAllTaken | internal/apphost/voice.go:287-298 | A claim free to take any offered voice fails only if each is held by someone else |
| Voice.SyncLeavesListedSessions | internal/apphost/voice.go:238-285 | After a synchronisation every binding with a session names a listed session that is not over, and no other binding is lost |
| VoiceClaims.SyncWithOne | internal/apphost/voice.go:238-285 | A synchronisation with one session, binding by binding |
| VoiceClaims.SessionTakesItsVoice | internal/apphost/voice.go:257-283 | A session is bound to its agent's assigned voice if and only if it is under way and no other agent holds the voice |
| Voice.SharedSessionBreaksExclusivity | internal/apphost/voice.go:300-311 | The hypothesis is needed: one session presented with two agents can leave both on one voice |
| Voice.ClaimKeepsExactlyWhen | internal/apphost/voice.go:155-212 | Without it, for one claim: the voices stay exclusive if and only if the claim fails or every binding of its voice by another agent is the one it replaces |
| Voice.VoiceManager.Assign | internal/apphost/voice.go:125-153 | Validates and stores an assignment |
| Voice.VoiceManager.Claim | internal/apphost/voice.go:155-212 | The claim with its scans, for the agent named by the request, by its metadata or after its session, has an outcome that the relation allows |
| Voice.VoiceManager.Release | internal/apphost/voice.go:214-236 | Deletes exactly the bindings that match every filter given |
| VoiceClaims.ReleaseByOne | internal/apphost/voice.go:214-236 | A release by one filter takes exactly the bindings with that value, and an empty one all |
| VoiceClaims.ReleaseIsIntersection | internal/apphost/voice.go:214-236 | A release with several filters takes what each of them alone would take |
| Voice.VoiceManager.SyncSessions | internal/apphost/voice.go:238-285 | Prunes, then rebinds session by session, as the relation allows |
| Voice.VoiceManager.VoiceConflict | internal/apphost/voice.go:300-315 | The scan in arbitrary order returns an answer decided by some binding of the voice, or none when there is none |
| Voice.VoiceManager.FirstAvailable | internal/apphost/voice.go:287-298 | The first offered voice that the scan lets through |
| Shell.RoundTrip | internal/harness/install.go:907-927 | For every binary and argument list, the shell's token recognition and quote removal read the printed command as exactly the binary followed by the arguments |
| Shell.ScanQuote | internal/harness/install.go:916-927 | Whatever the value, its quotation is read as one token, that value |
| Shell.PrintingIsInjective | internal/harness/install.go:907-914 | No two commands are printed alike |
| Shell.BareExactlyWhenSafe | internal/harness/install.go:916-927 | A word is printed bare if and only if it is not empty and made of letters, digits and six other characters |
| Shell.CommandIsJoined | internal/harness/install.go:907-914 | A command is its words with one space between them |
| Shell.BinaryIsMisreadExactlyWhen | internal/harness/install.go:916-925 | The binary is taken for an assignment or a reserved word if and only if it is spelled like one in characters that are left unquoted |
| Shell.MisreadBinaries | internal/harness/install.go:907-925 | Two such binaries: A=b and if |
| Delegation.BuildDelegatedDocket | internal/court/delegation.go:159-250 | A decision is built if and only if its juries are known, it selects a juror, all selected are catalogued jurors and no selected judge is catalogued as something else; otherwise the reason given holds. The docket has one assignment per selected juror, in order, from the first route that targets it |
| Delegation.SelectionIsUnion | internal/court/delegation.go:165-188 | The selected jurors are exactly the union of the named juries' members, the named jurors and the routes' juror targets, each once |
| DelegationChoices.AssignmentFromRoute | internal/court/delegation.go:220-229 | The first route of a juror gives instructions, deliverable and reason, each on its own; what it leaves blank is as without a route |
| DelegationChoices.AssignmentWithoutRoute | internal/court/delegation.go:220-224 | Without a route: the operator's prompt, the usual deliverable and the reason of the decision |
| DelegationChoices.AssignmentIsForItsJuror | internal/court/delegation.go:230-239 | Every assignment is for its juror and covers the whole plan |
| DelegationChoices.JuriesComeFirst | internal/court/delegation.go:165-179 | The jurors of the named juries come before all others |
| DelegationChoices.RoutesComeLast | internal/court/delegation.go:177-187 | Those that only a route targets come last |
| DelegationChoices.NamedJudges | internal/court/delegation.go:204-206 | When the decision names judges they are those |
| DelegationChoices.JudgesOfJuries | internal/court/delegation.go:173-175 | When its list of judges is empty they are those of its juries |
| DelegationChoices.JudgeOfPreset | internal/court/delegation.go:173-211 | Otherwise it is the preset's first judge, also when the list is of blanks only, whatever judges the juries have |
| DelegationChoices.TargetsAre | internal/court/delegation.go:281-287 | A route targets the id it gives alone and those of its list, trimmed |
| DelegationChoices.TrimmedTakes | internal/court/delegation.go:252-267 | Cleaning takes the values that are not blank, trimmed, in order |
| Delegation.DelegateJurors | internal/court/delegation.go:159-250 | A docket that is built is a delegation the engine may use |
| Delegation.RouteForRole | internal/court/delegation.go:289-298 | The first route that targets the role, or none if no route does |
| Delegation.RouteTargetIDs | internal/court/delegation.go:281-287 | The targets of a route: its single target and its list, cleaned together |
| Delegation.CleanStringList | internal/court/delegation.go:252-267 | Trimmed, without blanks and repetitions |
| Delegation.IDList.AddUniqueID | internal/court/delegation.go:269-279 | The growing list is always the cleaned list of everything offered |
| Delegation.CleanAgain | internal/court/delegation.go:281-287 | Cleaning a cleaned list behind other values is cleaning once |
| Lists.DedupKeepsFirstOrder | internal/court/delegation.go:252-267 | Removing repetitions keeps the order of first occurrences |
| Plans.Itoa | internal/court/workflow.go:405-418 | Every 64-bit integer fits the twenty-byte buffer; a non-negative one is written as its decimal numeral |
| Text.ValueOfDecimal | internal/court/workflow.go:405-418 | Reading a numeral back gives the number |
| TextProperties.TrimSpaceIsMiddle | internal/court/workflow.go:166 | Trimming takes white space off both ends, all of it and nothing else |
| TextProperties.FirstNonEmptyIsFirst | internal/apphost/voice.go:155-157 | The first text that is not blank is chosen, trimmed; none exactly when all are blank |
| Plans.BuildPlan | internal/court/workflow.go:165-214 | A plan has one element for each body of the task (its bullets, or else its paragraphs, or else itself), with the body collapsed as detail and the start of it as title, numbered from 1, with pairwise different ids |
| Plans.PlanKeepsWords | internal/court/workflow.go:165-214 | Without bullets the details hold the words of the task, each once and in order; with or without, none is empty if and only if the task has a word |
| Plans.TitleSummarises | internal/court/workflow.go:189-197 | A title is never empty and at most 72 characters long; it begins the collapsed text before the first colon, and is all of it when that is short enough |
| PlanTexts.BulletsAre | internal/court/workflow.go:169-174 | The bullets of a task are the texts of its bullet lines, all, in order |
| PlanTexts.BodiesAre | internal/court/workflow.go:165-185 | A task with bullets is cut into them, one without into its paragraphs, one without words not at all |
| PlanTexts.SummaryBegins | internal/court/workflow.go:206 | The summary begins the first detail and is all of it up to 180 characters |
| Splitting.JoinSplit | internal/court/workflow.go:167-180 | Joining the pieces of a split gives the text back, for every separator |
| Splitting.CollapseKeepsWords | internal/court/workflow.go:385-387 | Collapsing white space keeps the words, and doing it twice is doing it once |
| Plans.BuildDocket | internal/court/workflow.go:217-256 | One assignment per juror of the preset, in order; under routing for the element whose turn it is |
| PlanTexts.RoutedSays | internal/court/workflow.go:227-232 | Under routing a juror is told the detail of its element alone |
| PlanTexts.UnroutedSays | internal/court/workflow.go:224-236 | Otherwise the whole prompt, after the brief of its role in a role-scoped workflow |
| Plans.RoutingIsBalanced | internal/court/workflow.go:226-230 | Under routing each of m elements gets the floor or the ceiling of n/m of n jurors, and every element is covered if and only if n is at least m |
| Plans.RouteJurors | internal/court/workflow.go:165-256 | A routed docket of a built plan takes its elements in turn, so that law applies to it |
| Fanout.RunFanout | internal/orchestration/fanout.go:111-206 | Repeating, labelling, starting and collecting ends normally if and only if every started session finishes in the stream, and then the results are for the repeated and labelled targets, each once, if and only if the started sessions have different ids |
| Fanout.StartAndCollect | internal/orchestration/fanout.go:134-206 | Starting and collecting ends normally if and only if every started session finishes in the stream, and the output accounts for the run |
| Fanout.PrepareTargets | internal/orchestration/fanout.go:120-121 | The targets of a run are the requested ones, repeated and labelled |
| Fanout.Collect | internal/orchestration/fanout.go:162-206 | The event loop with its counter: the results are the start failures, then one for each session in the order in which they finish, each made of that session's own events, and the total is the sum over the results |
| Fanout.EveryTargetAccountedFor | internal/orchestration/fanout.go:134-206 | The results are for the requested targets, each as often as it was requested, if and only if the started sessions have different ids; there are never more |
| Fanout.FinishedIsFinal | internal/orchestration/fanout.go:171-175 | Events after a session's terminal one, and events of others, change nothing in its result |
| Fanout.FinishedExactlyWhenTerminal | internal/orchestration/fanout.go:176-196 | A session is finished if and only if a terminal event of its own has been seen |
| Fanout.FinishersAreTheFinished | internal/orchestration/fanout.go:171-196 | Each session that finishes is counted once |
| Fanout.SessionsStandForTheirTargets | internal/orchestration/fanout.go:158-159 | With different ids each session stands for the target that started it |
| Fanout.Finish | internal/orchestration/fanout.go:208-228 | Closing a session: usage after the stop if it can be read, otherwise before it |
| FanoutResults.TurnIsOfEventsToItsEnd | internal/orchestration/fanout.go:168-172 | A session's turn is made of its own events up to the first that ends it |
| FanoutResults.ResultSays | internal/orchestration/fanout.go:176-228 | What a result says of them: the last final text, or the deltas in order, or the closing summary; the error; the count; how the session was closed and which usage was recorded |
| FanoutResults.OutputSays | internal/orchestration/fanout.go:159-194 | Every session has such a result in the output |
| FanoutResults.FinishersAreInOrder | internal/orchestration/fanout.go:168-191 | Sessions are listed in the order of the events that end them |
| FanoutResults.FailuresSay | internal/orchestration/fanout.go:149-154 | The starts that fail have their results first, in order, with target and error and nothing else |
| FanoutResults.SessionIsOfTheLastStart | internal/orchestration/fanout.go:155-156 | A session id stands for the target of the last start that returned it |
| FanoutResults.TotalIsSum | internal/orchestration/fanout.go:201-204 | The total is, counter by counter, the sum over the results |
| FanoutResults.LabelSays | internal/orchestration/fanout.go:257-272 | A target's label: its name, or if others share it its name and the number of namesakes up to it |
| Fanout.AssignLabels | internal/orchestration/fanout.go:257-272 | Labels in place: the base, numbered by occurrence when it occurs more than once |
| Fanout.LabelsUniqueExactlyWhen | internal/orchestration/fanout.go:257-272 | Labels are pairwise different if and only if no unrepeated base is spelled like a numbered label of a repeated one |
| Fanout.LabelsUniqueWithoutHash | internal/orchestration/fanout.go:257-272 | In particular when no base contains # |
| Fanout.RepeatTargets | internal/orchestration/fanout.go:244-255 | Repetition as specified |
| Fanout.RepeatedAt | internal/orchestration/fanout.go:244-255 | Repeating n times gives n consecutive copies of each target in order |

## Left out

- SQL, files, sockets, processes, HTTP and provider adapters: tables are maps or sequences, statements are atomic, and errors of the store do not occur.
- Backends, prompts, timestamps, launch ids and runtime events of a court run: they decide nothing that is modelled. Whether a runtime accepts a stop, an interrupt or an adoption is a parameter.
- Plans.BuildPlan: leaves out keywords and the time of creation, and counts characters where the code cuts a title or a summary at a number of bytes.
- The parsing of a clerk's decision: the decision is a parameter.
- Costs in dollars: they are floating-point sums beside the token counters, and rounding is not modelled.
- ListDocuments, ListPendingWakeups, memory and tasks of the workspace store: they would only add easy members. Task locks do not exclude each other under interleaving and are not modelled.
- Wakeups.TimeIsConserved: takes each pause, resume and cancellation as one step, although a pause or resume is a read followed by an unguarded write. Wakeups.InterleavedPauseAgreesExactlyWhen and Wakeups.InterleavedResumeAgreesExactlyWhen say when that matters.
- Leases.AcquiresAreSeparated: does not model an error of the expiry sweep, which the code ignores.
- Voice.VoicesStayExclusive: does not model the file the assignments are saved to, or a failure to save; projects are taken as normalised, and keys are pairs, so an id containing NUL is not told apart.
- ToolRepair.Repairer.Handle: stops at the text handed to the extraction of tool calls; the extraction itself is not modelled.
- Turns.DeriveThreadTurns: takes texts, content parts, tool calls and tool results as fields of the event, since their extraction from JSON is not modelled.
- Fanout.RunFanout: takes resolved targets, and the controller's answers as parameters. ResolveFanoutTargets is not modelled; it drops the labels that callers ask for. A cancelled context and a closed stream are one outcome. Token probabilities are left out.
- Shell.RoundTrip: covers token recognition and quote removal; what a line means as a command is covered only by Shell.BinaryIsMisreadExactlyWhen.
- UsageLedger.SessionLedger.UpdateFromEvent: leaves out fields of the session that do not bear on usage (status, titles, errors, times).
- Hook installation and removal, the command line, the MCP server, speech routing, harness normalisation and evaluation rubrics: tables and plumbing.
