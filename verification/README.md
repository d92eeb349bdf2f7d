# Verification of the control workflow and the trading engine

Two systems of this repository keep state that concurrent or repeated inputs could corrupt, and both are modelled here,
as Dafny programs whose methods are proved against specifications and whose specifications are proved to have the
properties the repository is built on.

**The control workflow** decides what a coding agent may do next. Run events are reduced to a projection of tasks
(`Reducer`); a dispatcher claims intents in an append-only log, moves them by compare-and-set and leases them to recovery
workers (`DispatcherStore`); event handlers and recovery workers race on that log and may crash after any step
(`DispatcherWorkers`); and the log is shared through a branch whose ref only moves forward (`ControlSync`).

**The trading engine** turns channel messages into broker commands. Versions of a message are stored (`RawMessages`),
parsed (`Parser`) and applied to sessions, orders and positions through lists loaded once per message
(`TradingRepository`); commands wait in an outbox until reports move them on.

| files | what they hold |
|---|---|
| `Wrappers`, `TextOrder`, `TextLines` | options and results, the order of strings, and text as lines |
| `Reducer`, `ReducerOrder`, `ReducerEffects`, `ReducerHistory` | the reducer; that it depends on the set of events only; when each event is accepted and what it changes; what a reduced log says about the past |
| `DispatcherStore`, `DispatcherLog` | the store as a class over its log; what every log it can write satisfies |
| `DispatcherWorkers`, `DispatcherInvariant`, `DispatcherSafety`, `DispatcherOutcomes`, `DispatchBudget`, `Recovery` | the workers as a step relation with crashes; what one step may change, and at-most-once dispatch; how every intent ends; how much is dispatched in all; the recovery loop |
| `ControlMerge`, `ControlSync` | merging two copies of a log; publishing with a compare-and-set on the ref, with racing writers |
| `TradingModel` | messages, tables, what an event decides and what a decision writes, reports, runs |
| `TradingOutcomes` | what every event and report does, by the rows it can mean |
| `TradingInvariant`, `TradingHistory` | the invariant over seven tables and its preservation; what runs never undo |
| `TradingProvenance`, `TradingTargets` | every row and every transition has its event; events act on a unique target or not at all |
| `TradingReplacement`, `TradingRedelivery`, `TradingConfluence` | replacements wait; nothing is repeated; interleavings agree |
| `TradingSnapshot`, `TradingLists`, `TradingRepository` | the lists and the repository class, proved equal to the specification |
| `RawMessages`, `EndToEnd` | stored versions; from message to command, with crashes in between |
| `LineSpans`, `Parser`, `ParserOutcomes` | a text as lines with offsets; the parser's structure; what its results say about the text |

## Conventions

An event creates at most one row in each table, so the key of the event (channel, message, version, index) names the row
where the source draws a uuid; equality of final tables is then plain equality. Provider and intent ids are fresh numbers.
Timestamps are integers and a date is a timestamp divided by 86400. Prices are integer hundredths, as the columns are
`Numeric(12, 2)`. What another system answers, and what the clock reads, is a parameter or a choice of the step relation.

## Where an expected property fails

Each of these fails on an input that a lemma names, and another lemma says exactly when it holds.

- The stop boundary forbids dispatching the second task (`control/GOAL.md:24`), but the stop check and the task binding are
  two reads of the run log: `DispatchBudget.FollowUpCanSlipThrough` is a run that dispatches it.
  `DispatchBudget.FollowUpIsDispatchedExactlyByASlip` says of every run when that happens.
- Nothing ends a recovery pass or a handler that is in flight when the boundary is projected: the stop is read once, at its
  beginning. `DispatchBudget.NothingIsCalledAfterStop` says that these are the only ones that go on.
- Cancelled is called terminal (`docs/DOMAIN_MODEL.md:93`), but a cancellation may be reported again:
  `TradingHistory.CancelledIsLeftExactlyByAReport` says exactly when an order leaves that state.
- Edits do not repeat commands, unless a version is first processed after a later one (`TradingRedelivery.LateVersionRepeatsACommand`),
  as after the crash of `EndToEnd.CrashBetweenStoringAndApplying`. `TradingRedelivery.RepeatsExactlyWhenLate` is exact for one
  event and `EndToEnd.OneCommandExactlyWithoutLateDeliveries` for every sequence of inputs.
- A released command is released once, unless it is reported as blocked (`TradingReplacement.ReplacementIsReleasedTwice`):
  `TradingReplacement.ReleasedExactlyWhenBlockedAndAnswered` says exactly when it is released again.
- Merging two logs keeps what each remembers, but not one intent per request (`ControlMerge.RivalClaimsSurviveTheMerge`):
  `ControlMerge.MergeKeepsKeysApartExactly` says exactly when it does.
- Leases exclude each other, unless the worker has no name (`DispatcherLog.UnnamedLeasesOverlap`), and exactly then:
  `DispatcherLog.LeaseExcludesExactlyWhenNamed`. The only caller always passes one (`src/development_automation/dispatcher.py:387`).

The model follows the code where the documents differ otherwise: the end of a session goes straight to `ENDED`, never
through `ENDING` (`docs/DOMAIN_MODEL.md:68`), and the no-progress pause of the reducer cannot be reached.

## Model

| member | source | states |
|---|---|---|
| Reducer.ReduceRunEvents | src/development_automation/reducer.py:143-336 | the loop over the sorted events, with its skipped duplicates and early errors, returns exactly the fold of the log |
| Reducer.StepKeepsWellFormed | src/development_automation/reducer.py:159-332 | every reachable projection has at most two tasks; the second exists exactly when the stop boundary is set, and then the first is completed and the second was never dispatched |
| ReducerOrder.ReduceIsRunOfDistinct | src/development_automation/reducer.py:147-157 | a log reduces exactly when no two of its events conflict and its distinct events, in key order, all apply; the result is theirs |
| ReducerOrder.DistinctIsCanonical | src/development_automation/reducer.py:53-54 | the distinct events are the events of the log, strictly ordered by creation time and message id |
| TextOrder.BeforeExactlyWhen | src/development_automation/reducer.py:53-54 | one message id sorts before another exactly when it is a proper prefix of it, or smaller at the first place where they differ |
| ReducerOrder.ReductionDependsOnSetOnly | src/development_automation/reducer.py:143-157 | two bags with the same events, in any order and with any identical duplicates, give the same projection or both fail |
| ReducerOrder.LaterEventIsOneStep | src/development_automation/reducer.py:143-336 | appending an event with a later key is one more step from the stored projection, with the same error if it fails, so a restart loses nothing |
| ReducerEffects.CreationBegins | src/development_automation/reducer.py:161-177 | a creation is accepted exactly when there is no task yet, and begins a ready one with nothing recorded |
| ReducerEffects.DispatchRuns | src/development_automation/reducer.py:179-196 | a dispatch is accepted exactly for a ready task of its attempt before the boundary; the task then runs, and gains the provider run once |
| ReducerEffects.ResultWaitsForCi | src/development_automation/reducer.py:198-225 | a result is accepted exactly for a running task of its attempt whose commit is the head; the task waits for CI on that head, its criteria added up and its turns without progress counted anew or on |
| ReducerEffects.CiWaitsForReview | src/development_automation/reducer.py:227-240 | CI evidence is accepted exactly for the head and attempt that wait for it, and its checks and conclusion are kept |
| ReducerEffects.ReviewDecides | src/development_automation/reducer.py:242-290 | a review is accepted exactly for the head and attempt that wait for it, and with a decision: to accept, or to go on, completes the task; a required fix makes it ready for one more attempt up to the third repair and pauses it with the limit's reason after that; to block, or to ask a human, pauses it |
| ReducerEffects.FollowUpIsCreated | src/development_automation/reducer.py:292-319 | a follow-up is accepted exactly from the completed initial task and under a new id; it is ready, and the boundary is set |
| ReducerEffects.RefusalsAreNamed | src/development_automation/reducer.py:161-334 | which error a refused event raises |
| ReducerHistory.CompletionIsWitnessed | src/development_automation/reducer.py:73-97 | a task is projected completed if and only if the log holds an accepting review of it, and if and only if it holds, in key order, a dispatch, a result, CI evidence and an accepting review of one attempt, the last three on one commit, which is then the projected head |
| ReducerHistory.LifecycleIsBounded | src/development_automation/reducer.py:161-319 | every log that reduces has at most 4 distinct dispatches and at most 18 distinct events other than pauses and completions |
| ReducerHistory.BoundsAreAttained | src/development_automation/reducer.py:161-319 | both bounds are exact: a log of 18 such events, 4 of them dispatches, reduces |
| ReducerHistory.AttemptsAreNumberedFromCreation | src/development_automation/reducer.py:242-271 | attempt minus repairs stays what the creation event said, and the no-progress count never exceeds repairs plus one |
| ReducerHistory.NoProgressPauseIsUnreachable | src/development_automation/reducer.py:198-211 | with the shipped limits the no-progress pause is dead code: recording a result never pauses a task |
| ReducerHistory.BoundaryIsTheFollowUpEvent | src/development_automation/reducer.py:292-319 | of every log that reduces, the stop boundary is set if and only if the log creates a follow-up task; it does so once at most, and that event names the second task |
| DispatcherStore.FileDispatcherStore.LoadState | src/development_automation/dispatcher_store.py:84-154 | reading the log line by line gives its replay |
| DispatcherStore.FileDispatcherStore.RememberDelivery | src/development_automation/dispatcher_store.py:176-191 | true exactly the first time; the replay gains the delivery and nothing else |
| DispatcherStore.FileDispatcherStore.ClaimIntent | src/development_automation/dispatcher_store.py:193-241 | the intent with this dedupe key, or a new claimed one when there is none; the replay gains that one entry |
| DispatcherStore.FileDispatcherStore.TransitionIntent | src/development_automation/dispatcher_store.py:243-314 | a compare-and-set on status and version along the allowed transitions, which changes nothing when refused |
| DispatcherStore.FileDispatcherStore.LeaseUnfinishedIntent | src/development_automation/dispatcher_store.py:316-376 | leases the leasable intent with the least id, and answers none exactly when there is none |
| DispatcherStore.FileDispatcherStore.ListUnfinishedIntents | src/development_automation/dispatcher_store.py:378-388 | exactly the intents of the replay that are claimed or running |
| DispatcherStore.FileDispatcherStore.GetIntent | src/development_automation/dispatcher_store.py:390-396 | the intent of the replay with this id, if there is one |
| DispatcherStore.ReplayIsConsistent | src/development_automation/dispatcher_store.py:84-154 | in every log the operations can write, intents lie under their own ids and dedupe keys are unique |
| DispatcherLog.IntentsOnlyMoveForward | src/development_automation/dispatcher_store.py:22-29 | over any stretch of a log an intent keeps its identity, its version never falls, and a terminal intent gets no further record |
| DispatcherLog.VersionCountsRecords | src/development_automation/dispatcher_store.py:243-314 | an intent's version is the number of its records |
| DispatcherLog.SecondCasFails | src/development_automation/dispatcher_store.py:243-314 | of two compare-and-set calls that saw one version, after one succeeds the other fails whatever came in between |
| DispatcherLog.LeasesAreDisjoint | src/development_automation/dispatcher_store.py:316-374 | two leases of one intent do not overlap, over any log and for any clocks, when the first of them and those of that intent in between were taken under a worker name |
| DispatcherLog.LeaseExcludesExactlyWhenNamed | src/development_automation/dispatcher_store.py:156-165 | within the time of a lease another lease of the intent can be recorded if and only if the first was taken under the empty worker name |
| DispatcherOutcomes.TransitionsExactlyWhen | src/development_automation/dispatcher_store.py:243-314 | a transition succeeds if and only if the intent has the expected status and version and the table allows the move; it then has the new status, the next version, and the new run if one is named |
| DispatcherOutcomes.LeasesExactlyWhen | src/development_automation/dispatcher_store.py:156-165 | an intent is leasable if and only if it is claimed or running and has no worker, no end of its lease or one that is not after now |
| DispatcherSafety.AtMostOnceDispatch | src/development_automation/dispatcher.py:216-315 | for every interleaving and every crash, the provider is run at most once more than the intent was handed back, each hand-back follows a reconciliation that found nothing, and each of those a provider error |
| DispatcherInvariant.ArmingsFollowHandBacks | src/development_automation/dispatcher.py:236-258 | an intent is moved to running at most once more than it was handed back |
| DispatcherInvariant.EffectIsPermitted | src/development_automation/dispatcher.py:173-501 | whatever a worker does next: it appends only a legal record, goes on with what it knows, drives an intent only after arming it, calls the provider only when armed, hands back only what the provider does not know, ends an intent only as the answer it holds says, starts only behind an open boundary, and claims only what it bound |
| DispatcherOutcomes.DispatchEndsAsAnswered | src/development_automation/dispatcher.py:242-315 | over every run, with any others in between: the intent of a handler that called the provider and recorded the answer ends completed, failed or blocked exactly as the answer, of the call or of the reconciliation after a refusal, is completed, failed or not recognised, is still running when the job is, and is bound to the answer's run |
| DispatcherOutcomes.ReadyTasksBind | src/development_automation/dispatcher.py:173-187 | an event is bound exactly when the log projects its task as ready, on its branch and in its attempt |
| DispatcherOutcomes.RequestsAreClaimedOnce | src/development_automation/dispatcher.py:219-234 | a bound event claims a new intent exactly when none has its dedupe key, goes on with that one while it is only claimed, and otherwise stops |
| DispatcherOutcomes.NotFoundIsHandedBack | src/development_automation/dispatcher.py:249-258 | after a refused call of which the provider knows nothing the intent is claimed again, unless another moved it meanwhile |
| DispatcherOutcomes.RecoverySettles | src/development_automation/dispatcher.py:396-431 | a recovery worker records a reconciled end as it was answered, binds a job in progress to its run, and writes nothing when it is bound already or another moved the intent |
| DispatcherOutcomes.RecoveryResumes | src/development_automation/dispatcher.py:433-457 | an intent the provider does not know is marked unknown when it was running, and armed to be run when it was claimed |
| DispatcherOutcomes.RecoveryFinishes | src/development_automation/dispatcher.py:464-500 | after its own call a recovery worker binds the intent to the run and completes it exactly when the answer is completed, and otherwise fails it |
| DispatcherSafety.CrashSettles | src/development_automation/dispatcher.py:236-267 | a crash of the worker that drives a running intent leaves nobody who may run it |
| DispatcherSafety.CrashedIntentIsNeverRunAgain | src/development_automation/dispatcher.py:433-450 | such an intent is never run again, whatever handlers and recovery workers do afterwards |
| DispatchBudget.DispatchIntentsAreBounded | src/development_automation/dispatcher.py:173-228 | with one repository and a log growing in key order at most four dispatch intents are claimed for the initial task and at most one for the follow-up |
| DispatchBudget.BehindTheStopOnlyTheFollowUpBinds | src/development_automation/dispatcher.py:157-170 | a task binding that holds is the follow-up task's exactly when the run log it was read from shows the stop boundary |
| DispatchBudget.FollowUpIsDispatchedExactlyByASlip | src/development_automation/dispatcher.py:157-187 | the follow-up task is dispatched if and only if some handler, past its stop check, reads a binding that holds behind the boundary and still holds it when it claims |
| DispatchBudget.BeforeTheStopOnlyTheInitialTaskIsDispatched | src/development_automation/dispatcher.py:157-187 | in every run without such a slip all dispatch intents, at most four, are the initial task's |
| DispatchBudget.NothingIsCalledAfterStop | src/development_automation/dispatcher.py:378-384 | from any moment at which the boundary is projected on, no handler and no recovery pass begins, and the provider hears only from those that were in flight then |
| DispatchBudget.SilenceAfterStop | src/development_automation/dispatcher.py:378-384 | with none in flight, the provider is never called again |
| DispatchBudget.StopStays | src/development_automation/dispatcher.py:81-85 | later events never reopen the boundary |
| Recovery.ResumeUnfinishedIntents | src/development_automation/dispatcher.py:377-501 | the lease loop terminates when its clock readings lie within one lease period, and at its exit nothing is leasable, every intent it took became what the provider's answers make of it, and it returns one report for each dispatch it took, in that order |
| Recovery.RecoverOne | src/development_automation/dispatcher.py:395-501 | one pass changes the leased intent only, to the status and the provider run that its reconciliation asks for; it raises exactly when it can reach neither, and leaves the intent as it was, or running after a refused call; its report says what was done and names the run |
| Recovery.RecoveredStatusFollows | src/development_automation/dispatcher.py:395-500 | which answers of the provider lead to which status, with a case for every status and for the raise |
| Recovery.RunAgain | src/development_automation/dispatcher.py:452-500 | a claimed intent the provider does not know is run, bound to that run, and completed or failed; when the call raises it stays running |
| ControlMerge.MergeJsonl | src/development_automation/github_persistence.py:225-232 | the merged text has the remote's non-blank lines, then the local ones that are not among them, and reads back as those lines |
| TextLines.LinesRoundTrip | src/development_automation/github_persistence.py:226-232 | lines written with a newline each are read back by `splitlines` as they were |
| ControlMerge.MergeIsABand | src/development_automation/github_persistence.py:225-232 | merging is associative, has the empty log as identity, absorbs repetition on either side, and keeps the remote as prefix |
| ControlMerge.MergeUnites | src/development_automation/dispatcher_store.py:84-154 | replaying a merged log gives the union of the deliveries and the union of the intent ids |
| ControlMerge.MergeKeepsKeysApartExactly | src/development_automation/github_persistence.py:225-232 | a merged log has one intent per dedupe key if and only if the two sides did not claim one key under different ids |
| ControlMerge.RivalClaimsSurviveTheMerge | src/development_automation/github_persistence.py:225-232 | two logs that each claimed the same request merge into a log with both claims |
| ControlSync.ControlBranchPersistence.ReconcileLocalFiles | src/development_automation/github_persistence.py:234-259 | the loop over the paths writes back and returns exactly what the specification says, also when it raises half way |
| ControlSync.ReconcilingSays | src/development_automation/github_persistence.py:234-259 | reconciling fails exactly when a local file is missing, or is no log and differs from the branch, and then names the first such path; otherwise every file ends merged, taken from the branch or kept |
| ControlSync.ReconciledIsPublishable | src/development_automation/github_persistence.py:234-259 | reconciling loses no local line, and what it would publish extends the branch it was reconciled with |
| ControlSync.ControlBranchPersistence.SyncPaths | src/development_automation/github_persistence.py:302-322 | the retry loop ends in the first round that publishes or whose reconciling fails, with that error, and otherwise raises after four lost rounds; the branch then holds what the others pushed meanwhile and, when published, one commit more |
| ControlSync.EndsExactlyWhere | src/development_automation/github_persistence.py:302-322 | a sync publishes in a round if and only if that round is free, its files can be reconciled and every round before it was lost; it gives up if and only if all were |
| ControlSync.BranchOnlyGrows | src/development_automation/github_persistence.py:295-322 | however writers race, fail and retry, logs on the branch gain lines at the end only and other files never change |
| ControlSync.SyncedLinesStayOnTheBranch | src/development_automation/github_persistence.py:302-322 | after a successful sync every line the writer had when it began is on the branch, and stays there |
| TradingRepository.TradingStateRepository.ApplyParsedMessage | src/fictional_engine/adapters/persistence/trading_state_repository.py:73-157 | with the rows loaded once into lists and written back after each event, the tables and the results are those of reading the tables afresh before every event |
| TradingRepository.TradingStateRepository.ProcessEvent | src/fictional_engine/adapters/persistence/trading_state_repository.py:83-150 | one pass of the loop is one event on the tables, and the lists again hold the rows of the channel and date |
| TradingRepository.TradingStateRepository.LoadSnapshot | src/fictional_engine/adapters/persistence/trading_state_repository.py:787-838 | the four lists hold exactly the rows of one channel and one date |
| TradingRepository.TradingStateRepository.ApplyPlacePendingOrder | src/fictional_engine/adapters/persistence/trading_state_repository.py:408-533 | the placement handler changes the lists, and answers, as the decision on the tables says |
| TradingRepository.TradingStateRepository.ResolveOrCreateSession | src/fictional_engine/adapters/persistence/trading_state_repository.py:744-785 | finds the session of the instrument, or the only one of the day, or appends a new one |
| TradingRepository.TradingStateRepository.ApplyCancelPendingOrder | src/fictional_engine/adapters/persistence/trading_state_repository.py:535-584 | the cancellation handler requests the cancellation of the only matching pending order, or asks for review |
| TradingRepository.TradingStateRepository.ApplyMarkOrderTriggered | src/fictional_engine/adapters/persistence/trading_state_repository.py:586-637 | the trigger handler fills the only matching pending order and opens its position; no position can exist before |
| TradingRepository.TradingStateRepository.ApplyRecordTradeResult | src/fictional_engine/adapters/persistence/trading_state_repository.py:639-663 | the result handler closes the only active position, or asks for review |
| TradingRepository.TradingStateRepository.ApplyEndSession | src/fictional_engine/adapters/persistence/trading_state_repository.py:665-692 | the end handler ends the only open session, or asks for review |
| TradingRepository.TradingStateRepository.ApplyNoTradingDay | src/fictional_engine/adapters/persistence/trading_state_repository.py:694-722 | the day is closed once, and the loop over the sessions silences those still open and no other |
| TradingRepository.TradingStateRepository.UpsertSnapshot | src/fictional_engine/adapters/persistence/trading_state_repository.py:840-924 | inserting new rows and updating the mutable columns of existing ones gives exactly the changed tables |
| TradingRepository.TradingStateRepository.PersistMutation | src/fictional_engine/adapters/persistence/trading_state_repository.py:293-355 | the event's record, its review and its command are added |
| TradingRepository.TradingStateRepository.FindPriorProcessedEvent | src/fictional_engine/adapters/persistence/trading_state_repository.py:935-950 | the latest earlier version of the event that was processed |
| TradingRepository.TradingStateRepository.UpdateOutboxCommandState | src/fictional_engine/adapters/persistence/trading_state_repository.py:198-246 | a report changes the tables as specified, returns exactly the released commands, and raises for an unknown one |
| TradingOutcomes.EditsAreNoticed | src/fictional_engine/adapters/persistence/trading_state_repository.py:249-291 | an event with an earlier processed version touches no trading table and no command: it is a no-op if and only if the latest such version is the same event, and otherwise goes to review as an edit |
| TradingOutcomes.MessageIsItsEvents | src/fictional_engine/adapters/persistence/trading_state_repository.py:73-157 | a message does what its events do one after the other, each seeing the answers before it, and answers once for each |
| TradingOutcomes.TargetDecides | src/fictional_engine/adapters/persistence/trading_state_repository.py:535-692 | what a cancellation, a trigger, a result and an end do when one row, none or several can be meant: the row's new state and times, the command or position that begins, and the reason of the review |
| TradingOutcomes.OthersDecide | src/fictional_engine/adapters/persistence/trading_state_repository.py:357-406 | a no-trading day closes its date once, a request for review and an unsupported event go to review |
| TradingOutcomes.PlacementIsRefused | src/fictional_engine/adapters/persistence/trading_state_repository.py:408-442 | a placement goes to review when the cancellation before it was not resolved, and when its date is closed |
| TradingOutcomes.NamedPlacementDecides | src/fictional_engine/adapters/persistence/trading_state_repository.py:444-533 | a placement that names its instrument goes to that session of the day or begins it, unless it is over or holds the same pending order: the order and its command are what was asked for |
| TradingOutcomes.UnnamedPlacementDecides | src/fictional_engine/adapters/persistence/trading_state_repository.py:744-785 | one that names none goes to the only instrument of the day, and to review when there are several or none |
| TradingOutcomes.DependencyIsLastCancel | src/fictional_engine/adapters/persistence/trading_state_repository.py:724-742 | a placement waits for the last cancellation before it in its message, and is unresolved exactly when that one was not applied with one command |
| TradingOutcomes.ReportMovesTheOrder | src/fictional_engine/adapters/persistence/trading_state_repository.py:198-226 | a report on a cancellation puts its order in the state that goes with the report, dated exactly on success, and touches no other order; any other report touches none |
| TradingOutcomes.ReportMovesTheCommands | src/fictional_engine/adapters/persistence/trading_state_repository.py:213-242 | a report puts its command in the reported state, a success releases exactly the blocked commands that depend on it, and no other command changes |
| TradingInvariant.ReachableMeetsInv | src/fictional_engine/adapters/persistence/trading_state_repository.py:73-246 | the invariant that ties the tables together holds in every reachable state |
| TradingInvariant.UnprocessedIsFresh | src/fictional_engine/adapters/persistence/models.py:143-143 | an event that was not processed has no row in any table, so no insert violates a unique constraint |
| TradingHistory.OrdersFollowTheirCommands | src/fictional_engine/adapters/persistence/trading_state_repository.py:543-637 | in every reachable state an order has its PLACE command; it has a CANCEL command exactly when it is in a cancel state, only one, and a succeeded one goes with cancelled, a failed one with cancel-failed, one of unknown outcome with cancel-unknown, any other with cancel-requested; and it has a position, only one, exactly when it is filled |
| TradingHistory.RowsAddUp | src/fictional_engine/adapters/persistence/trading_state_repository.py:485-637 | the orders are as many as the PLACE commands, and as many as the pending orders, CANCEL commands and positions together |
| TradingHistory.RunEvolves | src/fictional_engine/adapters/persistence/trading_state_repository.py:73-246 | over any run no order returns to pending, filled orders and closed positions stay as they are, records are never changed, and orders are added only to sessions that take them |
| TradingHistory.CancelledIsLeftExactlyByAReport | src/fictional_engine/adapters/persistence/trading_state_repository.py:215-226 | a cancelled order leaves that state exactly when its cancellation is reported again as anything but a success |
| TradingHistory.ClosedSessionsAreFrozen | src/fictional_engine/adapters/persistence/trading_state_repository.py:458-465 | an ended or silenced session never changes again and its set of orders is final |
| TradingHistory.ClosedDatesGainNoOrder | src/fictional_engine/adapters/persistence/trading_state_repository.py:429-442 | after a no-trading day no session of that channel and date accepts signals and no order is added there |
| TradingProvenance.EverythingIsTraced | src/fictional_engine/adapters/persistence/trading_state_repository.py:485-692 | in every reachable state an order is what its placement asked for, a command names its order and carries its levels, a position has its order's levels and was opened by the trigger that dates the fill, and every closing, ending and silencing has its event and its time |
| TradingTargets.AppliedExactlyWhenTargetIsUnique | src/fictional_engine/adapters/persistence/trading_state_repository.py:543-692 | a cancellation, a trigger, a result and the end of a session apply exactly when they can mean one row only, then change that row and no other of its table, and otherwise ask for review |
| TradingTargets.CommandsExactlyWhen | src/fictional_engine/adapters/persistence/trading_state_repository.py:408-584 | an event commands the broker if and only if no earlier version of it was processed and the tables show what it needs: an open day, a resolved replacement and a session that takes the placement, or one order only to cancel |
| TradingTargets.NoOrderIsPendingTwice | src/fictional_engine/adapters/persistence/trading_state_repository.py:467-483 | in every reachable state no session has two pending orders that are the same but for their provider |
| TradingReplacement.ReplacementWaits | src/fictional_engine/adapters/persistence/trading_state_repository.py:417-530 | a placement after a cancellation in one message is issued blocked, waiting for a cancellation of an earlier event of that version |
| TradingReplacement.ReleasedByItsCancellation | src/fictional_engine/adapters/persistence/trading_state_repository.py:228-242 | unless it is reported on itself, a blocked command is released only by the report that its cancellation succeeded, and that order is then cancelled |
| TradingReplacement.BlockedExactlyWhileWaiting | src/fictional_engine/adapters/persistence/trading_state_repository.py:522-530 | over every run that reports on a command only once it is sent, and never as blocked, it is blocked exactly while it depends on another and was not released |
| TradingReplacement.ReleasesAreBlockings | src/fictional_engine/adapters/persistence/trading_state_repository.py:228-246 | over all reports of any run a command is returned as released at most once more than it was reported as blocked, and not even that when it is not blocked now |
| TradingReplacement.ReleasedAtMostOnce | src/fictional_engine/adapters/persistence/trading_state_repository.py:228-246 | a command that is never reported as blocked is returned as released at most once, whatever is reported on others |
| TradingReplacement.ReleasedExactlyWhenBlockedAndAnswered | src/fictional_engine/adapters/persistence/trading_state_repository.py:213-242 | a command that is not blocked is released if and only if it is reported as blocked and then its cancellation as succeeded before it is reported as anything else; a blocked one also if that success comes first |
| TradingReplacement.ReplacementIsReleasedTwice | src/fictional_engine/adapters/persistence/trading_state_repository.py:213-213 | an order, its cancellation and its replacement in one message, and three reports that release the replacement twice |
| TradingRedelivery.RedeliveryChangesNothing | src/fictional_engine/adapters/persistence/trading_state_repository.py:91-100 | at any later point of any run, processing a message version again changes nothing |
| TradingRedelivery.OneCommandPerEventOverARun | src/fictional_engine/adapters/persistence/trading_state_repository.py:102-116 | when the versions of a message are first processed in ascending order, together they issue at most one command per event |
| TradingRedelivery.RepeatsExactlyWhenLate | src/fictional_engine/adapters/persistence/trading_state_repository.py:935-950 | an event repeats a command if and only if a later version of it issued one, no earlier version was processed, and the tables show what it needs to issue its own |
| TradingRedelivery.LateVersionRepeatsACommand | src/fictional_engine/adapters/persistence/trading_state_repository.py:102-116 | the second version processed before the first: one event has issued two placements |
| TradingConfluence.InterleavingsAgree | src/fictional_engine/adapters/persistence/trading_state_repository.py:73-246 | two runs with the same messages channel by channel and the same reports end in the same tables, however they are interleaved |
| TradingConfluence.MessagesOfDifferentChannelsCommute | src/fictional_engine/adapters/persistence/trading_state_repository.py:787-807 | message sequences that agree channel by channel end in the same tables |
| TradingConfluence.ReportCommutesWithMessage | src/fictional_engine/adapters/persistence/trading_state_repository.py:198-246 | a report on an existing command commutes with every message, of its own channel too |
| TradingConfluence.EventIsLocal | src/fictional_engine/adapters/persistence/trading_state_repository.py:357-406 | an event does to the rows of its channel what it does to the whole, and leaves every other channel alone |
| TradingSnapshot.Matching | src/fictional_engine/adapters/persistence/trading_state_repository.py:543-547 | the list comprehension finds exactly the matching rows |
| TradingSnapshot.First | src/fictional_engine/adapters/persistence/trading_state_repository.py:467-481 | the search finds a matching row exactly when there is one |
| TradingSnapshot.Upsert | src/fictional_engine/adapters/persistence/trading_state_repository.py:840-859 | inserting the new rows of a list and updating the others reaches the table they describe |
| RawMessages.RawMessageRepository.IngestMessage | src/fictional_engine/adapters/persistence/raw_message_repository.py:19-60 | answers with the row that holds the version; with rivals between its reads and its commit it inserts exactly when its number is still free, and raises exactly when a rival edit took it |
| RawMessages.RawMessageRepository.FindLatestVersion | src/fictional_engine/adapters/persistence/raw_message_repository.py:97-110 | the row with the greatest version is the one stored last |
| RawMessages.VersionsAreNumberedAndLinked | src/fictional_engine/adapters/persistence/raw_message_repository.py:27-36 | the versions of a message are 1 to n in the order they were stored, each linked to the one before |
| RawMessages.LaterVersionsAreGreater | src/fictional_engine/adapters/persistence/models.py:18-24 | no two rows of a message share a version |
| EndToEnd.OneCommandEndToEnd | src/fictional_engine/application/state_machine.py:47-54 | with messages delivered, edited, delivered again and lost to crashes between storing and applying, and any reports: while no version is first delivered after a later one, all versions of one event issue at most one command |
| EndToEnd.InputsDo | src/fictional_engine/application/state_machine.py:47-54 | what each input does: a delivery stores its version and applies the events read from it, one that crashes stores only, a report moves a command |
| EndToEnd.OneCommandExactlyWithoutLateDeliveries | src/fictional_engine/application/state_machine.py:47-54 | a sequence of inputs is harmless whatever its texts say if and only if no version is first delivered after a later version of its message was |
| EndToEnd.RedeliveredInTimeIsNotLate | src/fictional_engine/application/state_machine.py:50-53 | no delivery is late if every version stored by a delivery that crashed is delivered again before another version of its message comes |
| EndToEnd.RedeliveryEndToEnd | src/fictional_engine/application/state_machine.py:47-54 | delivering again a version that was once delivered without a crash changes no table, whatever crashed and happened since |
| Parser.Parse | src/fictional_engine/application/parsing.py:157-274 | the lines are the text's and the blocks tile them; a message of a kind that asks for nothing yields no event, any other what its blocks and lines ask for, in the order of their evidence, or one request for review, exactly when its blocks are unusable, a delete is ambiguous or nothing is asked for; every span is a piece of the text and every event has evidence |
| LineSpans.SplitLinesWithSpans | src/fictional_engine/application/parsing.py:623-640 | the lines are the pieces of the text cut after every break, without the carriage returns and newlines at their ends and each where it is in the text, so they cover all of it but those |
| LineSpans.LinesAreSplitLines | src/fictional_engine/application/parsing.py:623-640 | line by line these are the lines of `splitlines`, except that a line ended by a rarer break keeps it |
| LineSpans.PiecesAreTheText | src/fictional_engine/application/parsing.py:623-640 | the pieces put together are the text |
| Parser.ExtractProviderBoundaries | src/fictional_engine/application/parsing.py:543-564 | the blocks tile the lines from the first header to the end, one header each |
| Parser.ParseProviderBlocks | src/fictional_engine/application/parsing.py:442-469 | each block is its piece of the text with the orders of its sections, each evidenced by lines of the text |
| Parser.ParseOrderSections | src/fictional_engine/application/parsing.py:472-522 | the scan yields the orders of the sections that are complete, in order |
| Parser.SectionsPartitionTheBlock | src/fictional_engine/application/parsing.py:472-496 | the sections are the lines from the first side on, cut before every side: none is lost, repeated or moved |
| Parser.ParseMessageStatusEvents | src/fictional_engine/application/parsing.py:349-439 | triggers, cancellations, the end and results, in this order, each with its matches as evidence; a review exactly for an ambiguous delete |
| Parser.ExtractAllDecimals | src/fictional_engine/application/parsing.py:581-593 | the values of the matching lines, or none when one of them is no number |
| ParserOutcomes.BlockOrdersAreRead | src/fictional_engine/application/parsing.py:499-522 | the orders of a block are those of its complete sections, in order: entry and stop loss are what their patterns read in the first line that matches, the side what is read in the first line, the take profits the values read line by line; a section is complete if and only if all three are found and none is unreadable |
| ParserOutcomes.StatusEventsAreRead | src/fictional_engine/application/parsing.py:349-439 | which matches in which lines ask for which trigger, cancellation, end and result, with the matches as evidence and nothing else asked for |
| ParserOutcomes.ClassifiesAs | src/fictional_engine/application/parsing.py:129-155 | each kind of message has its patterns, and an earlier kind in the order of the source wins |
| ParserOutcomes.AskedIs | src/fictional_engine/application/parsing.py:213-229 | the events are one placement for each order of a block that counts, and the status events |
| ParserOutcomes.EventsComeByEvidence | src/fictional_engine/application/parsing.py:722-731 | the events come by where their evidence starts, those that start together as they were |
| ParserOutcomes.CompatibleBlocksAgree | src/fictional_engine/application/parsing.py:314-316 | blocks agree exactly when their orders, taken in order, agree in all but the provider and the evidence |
| ParserOutcomes.ReasonsAre | src/fictional_engine/application/parsing.py:193-261 | which reason a review has, in the order of the guards |
| ParserOutcomes.EvidenceIs | src/fictional_engine/application/parsing.py:188-270 | what the evidence of a result consists of |
| Parser.SortIsAStablePermutation | src/fictional_engine/application/parsing.py:722-731 | sorting neither loses nor repeats an event, orders by earliest evidence and keeps the order of equals |

## Left out

- The HTTP clients of the coding agent, the review model and GitHub, and their prompts: foreign calls, whose answers are choices of the models here.
- SQL, migrations, file access and file locking: a committed transaction or a locked section is one atomic step. `Recovery.ResumeUnfinishedIntents` runs alone; racing workers are in `DispatcherWorkers`.
- The dispatcher's clock, uuid and log format: malformed log lines raise before anything modelled here happens, and appending a record and the callback after it are one step followed by a possible crash.
- Timestamps of the run log are compared as ISO texts in the source and as integers here, which agree for timestamps in one time zone.
- YAML front matter, field validation and credential redaction: events arrive validated, so an event or intent type outside the known ones cannot occur.
- Webhook signatures, actor allowlists and the CI gate: single checks, taken as the guard `admitted` of an event; a CI event is modelled from its claim on.
- The number at the end of a pull request URL is a field of the run event, not extracted from the text.
- `hydrate`, which overwrites local files from the branch before a process starts, and the creation of the branch when it is missing.
- `_relative_paths`: the paths of a sync are given as they are after deduplication; the refusal of paths outside the control root is not modelled.
- TradingReplacement.ReplacementWaits: assumes that what was processed under a message version is that version, since a stored version is parsed the same way each time.
- TradingReplacement.BlockedExactlyWhileWaiting: assumes of the reports on this command that it was sent and that none says `BLOCKED`; the code accepts such reports.
- Requests to the host of the control branch that fail for another reason than a moved ref: `ControlSync.ControlBranchPersistence.SyncPaths` meets none, and in the racing writers they are a choice.
- What the coding agent does with one call of `run`: the count is of calls.
- The parser's regular expressions and Unicode normalisation: parameters of `Parser.Parse`, whose matches lie in their line. Labels of evidence spans are not modelled.
- Fingerprints are compared as events, so two spellings of one decimal number count as equal here and as different in the source; prices with more than two decimals are not modelled.
- `list_sessions`, `list_orders` and the other listings: sorted reads of the tables.
- The columns of a stored message other than its dates: one text stands for sender, title, caption and metadata. Messages with equal deduplication keys count as the same version, as they do in the source, hash collisions included.
- The step from the parser's events to those of the engine, field by field: `EndToEnd` takes any function from a stored version to events.
- Order of rows within a list: the source sorts by creation time and uuid; here a list comes in an arbitrary order, and the proofs show nothing depends on it.
- Settings, logging, deployment and the command line.
