# A verified model of SAI's eval loop and the state machines around it

SAI decides, records what it decided, waits for reality, and asks its operator when reality does
not show. What remains of that once files become sequences and maps is a set of append-only logs
read latest-wins, schedulers with budgets, bounded collections and gates. This project models
them in Dafny and proves what they promise over every input, every run and every history.

Core files that change things step by step are classes and loops here (`EvalRecordStore`,
`AskOrchestrator`, `ApprovalService`, `AuditLog`, ...). Every method is proved against a function
of the old state, and the lemmas about those functions are the results.

| file | models |
|---|---|
| `OrderedDict.dfy`, `Options.dfy`, `Text.dfy` | Python's `dict`, `None`, string order and zero padding |
| `EvalRecords.dfy`, `Reconciler.dfy`, `Asks.dfy`, `Orchestrator.dfy`, `AskReplies.dfy` | the record log and the three runs that append to it, the ask log |
| `EvalLoop.dfy`, `GroundTruth.dfy`, `AskBudget.dfy`, `EarlyStamps.dfy` | all of them together, as events in any order: the machine, when ground truth is final, what the asks add up to, and a run that breaks the budget |
| `BatchDisagreements.dfy` | the disagreement batch and its queue |
| `EvalDatasets.dfy` | capped datasets and the True-North archive |
| `Approvals.dfy`, `Cascade.dfy` | the approval gate with its audit trail, the cascade runner |
| `PendingIntents.dfy`, `ScheduleGate.dfy` | pending intents, the once-per-slot gate |
| `AuditRotation.dfy`, `StateMigration.dfy` | monthly rotation of the audit log, the move out of the repository |
| `SheetColumns.dfy`, `ThreadMessages.dfy`, `CanonicalIndex.dfy` | column letters, newest message per thread, inverted index |

`dafny verify dfyconfig.toml` checks the whole project.

## What is proved

* **Ground truth.** Over any interleaving of recorded inputs, escalations to the human tier,
  orchestrator runs, reconciler runs, ask updates and answers to open asks, ground truth stands from a
  clock reading on, unless the input is recorded again, exactly when no ask that is open and not expired
  then leads to an unsettled older record of the input (`GroundTruth.FinalIffNotExposed`). An input that
  is recorded once is never exposed. Ground truth stems from a reconciler run inside the window that
  observed it or from an answer. An input is asked or skipped at most as often as it is recorded. A poll
  of the open asks is one of these runs.
* **Budget.** No closed window of length `budget_window` ever holds more of the orchestrator's asks
  than the budget, whatever the human tier posts; all asks of a window are at most the budget plus the
  escalations in it. The clock need not be monotone, but a post must not be stamped before its run's
  clock reading: over all tidy states with a given record log, reached by a run or not, that is exactly
  what keeps the budget (`AskBudget.StampsMustNotPrecedeClock`), and for every budget a run from the
  empty loop breaks it with one such stamp (`EarlyStamps.EarlyStampBreaksRun`).
* **Selection.** An orchestrator run is a top-k over a stable ranking in which disagreement goes first
  and covered buckets go last; the disagreement batch is a
  fair deal with prefixes, per-sender caps and exact size, and no row of a batch is in a later one
  unless the batch was a dry run.
* **Conservation.** Capped datasets keep exactly the newest accepted cases and lose no id except to
  a failing archive callback; rotation and pruning account for every line written, and a month's order
  survives exactly when no rotation of the month is overtaken; a migration loses no bytes and a second
  one does nothing.
* **Gates.** The approval store is the replay of its audit trail and every use of an approval stands
  on the latest decision; the cascade composes and never gets behind a tier without a handler; after
  any history of marks the slot offered is the first open one, and a mark stands exactly until one is
  made more than seven days past its date; an intent's first closure is final.

## Where the code differs from its documentation, or a property needs a condition

The model follows the code in each case.

* The orchestrator's header gives the disagreement score as distinct outputs over tiers; the code
  computes (distinct - 1) over live outputs (`app/eval/orchestrator.py:155-157`). Its budget is a
  sliding window, not a calendar day (`app/eval/orchestrator.py:174-182`).
* A pending record that is marked ground truth but has no reality is a candidate and can be decided
  about; `GroundTruth.GroundTruthChangesIff` says exactly which steps change a settled input, and the
  loop's invariant is that ground truth comes with its reality.
* The task runner records whatever input id it gets, under a new record id
  (`app/runtime/ai_stack/runner.py:107-122`). An input recorded again loses its ground truth and is a
  candidate again, and an answer to an ask of its old record before that ask closes or expires then replaces what its new record observed
  (`GroundTruth.OldAnswerReplacesGroundTruth`, from the empty loop in `GroundTruth.OldAnswerFromStart`):
  answers reach records by record id while the log is read by input id
  (`app/eval/reconcilers/ask_reply.py:237-281`).
* The reply reconciler's comment has the orchestrator fill an ask's `record_ids`; it does not, the
  record's own `ask_id` is the link (`app/eval/orchestrator.py:191-205`).
* An expired input is appended again on every reconciler run: the view is stable, the log is not
  (`Reconciler.SecondRun` counts the lines).
* `EdgeCaseDataset` does not override the eviction rule, so the oldest case goes, not the most
  redundant one. A cap of zero or less acts as a cap of one (`EvalDatasets.WorkingIsNewest`).
* `escalate` ends a cascade run; it does not route to the next tier. A second-opinion tier without a gate
  continues, so the cascade is closed to missing handlers but not to a missing gate.
* The policy rule that decides is the first match, not the most specific (`Approvals.FirstMatchDecides`).
* A history bound of zero keeps everything, because Python's `[-0:]` is the whole list; a negative
  bound keeps nothing (`PendingIntents.HistoryIsWindow`).
* A rotation keeps the order of the current month exactly when none of its lines was written during
  the rotation or none was in the file before (`AuditRotation.RotationKeepsOrderIff`), and order once
  lost is never regained (`AuditRotation.MonthInOrderIff`).
* Migration destinations are distinct exactly when no two targets of the move table share a path
  (`StateMigration.InjectiveIffClear`), which holds when none of the four roots lies in another.
* A pruned slot mark is forgotten: a marked slot is offered again exactly when every mark of it was
  followed by one made more than seven days past its date and no earlier slot is open
  (`ScheduleGate.OfferedIff`), so a clock that goes back by more than a week reopens it
  (`ScheduleGate.GoingBackReopens`).
* `enforce` does not compare the action it is asked about with the action that was approved
  (`app/approvals/service.py:160-173`); `Approvals.UsedActionIff` says when the two are the
  same, and `Approvals.OtherActionIsUsed` is a run in which they are not.
* A dry run of the disagreement batch writes a batch and marks nothing, so the same rows can come
  again (`BatchDisagreements.DryRunsRepeat`).

## Model

| member | source | states |
|---|---|---|
| OrderedDict.LatestIsLast | app/eval/reconciler.py:136-146 | the fold holds for each key the entry after which the key never occurs |
| OrderedDict.UpdatedFold | app/eval/reconciler.py:82-87 | appending updates replaces exactly the updated keys of the folded view and keeps its order |
| OrderedDict.GroupIsFilter | scripts/batch_disagreements.py:133-135 | a group holds exactly its key's rows in order |
| OrderedDict.FirstGroup | scripts/batch_disagreements.py:133-138 | groups come in first-seen order: the first row's group, then the grouping of the other rows |
| EvalRecords.EvalRecordStore.Append | app/eval/storage.py:39-49 | the log grows by one line at the end |
| EvalRecords.SkippedAgain | app/eval/record.py:127-135 | skipping again keeps the reason unless there is a new one |
| EvalRecords.LatestRecordsPerInput | app/eval/reconciler.py:136-146 | the loop returns the newest line of every input in first-seen order |
| Reconciler.RealityReconciliationRunner.RunForTask | app/eval/reconciler.py:99-133 | the new log is the old one plus the updates of the folded records, and the counts are their outcomes |
| Reconciler.ReconciledView | app/eval/reconciler.py:108-133 | a run maps every input's current version on its own and adds or reorders none |
| Reconciler.RunOutcome | app/eval/reconciler.py:108-133 | ground truth stays, a record past its window becomes skipped with that reason, an observed reality makes ground truth, all else stays |
| Reconciler.CountsAre | app/eval/reconciler.py:105-124 | each count is the number of records of its kind: settled, past their window, or as the reconciler says |
| Reconciler.OutcomesAddUp | app/eval/reconciler.py:105-122 | the outcome counts sum to the number of distinct inputs |
| Reconciler.SecondRun | app/eval/reconciler.py:115-133 | a second run with the same clock and observations leaves the view unchanged and appends one line per expired input |
| Asks.AskStore.LatestState | app/eval/ask.py:106-119 | the loop returns the newest version of every ask |
| Asks.AskStore.OpenAsks | app/eval/ask.py:121-128 | the asks whose newest version is open, oldest first |
| Asks.OpenMeansLastLineOpen | app/eval/ask.py:121-128 | an ask is listed as open exactly when its last line is open |
| Asks.AskPoster.PostAsk | app/connectors/slack_ask_ui.py:87-105 | a post appends one open ask with a new id and its own time stamp |
| Asks.LifecycleKeepsTimes | app/eval/ask.py:106-119 | a later version of an ask with its posting time moves no posting time of the folded log |
| Orchestrator.AskOrchestrator.ReviewPending | app/eval/orchestrator.py:81-121 | both logs, the id counter and the counts after a run, as the walk over the ranked candidates gives them |
| Orchestrator.AskOrchestrator.ReviewRanked | app/eval/orchestrator.py:106-121 | the deciding loop follows the walk over any list and budget |
| Orchestrator.AskOrchestrator.ScoreCandidates | app/eval/orchestrator.py:88-103 | the scored list holds the candidates with a bucket and their scores |
| Orchestrator.AskOrchestrator.ComputeCoverage | app/eval/orchestrator.py:159-170 | every bucket's count is its coverage, zero for buckets not in the map |
| Orchestrator.CoverageCounts | app/eval/orchestrator.py:159-170 | coverage is the number of ground-truth records of the bucket |
| Orchestrator.AskOrchestrator.DisagreementScore | app/eval/orchestrator.py:142-157 | the loop computes the share of live outputs that add a distinct one |
| Orchestrator.DisagreementIsAShare | app/eval/orchestrator.py:142-157 | the disagreement is at least 0 and below 1 |
| Orchestrator.DisagreementMeansDifference | app/eval/orchestrator.py:142-157 | it is positive exactly when two live outputs differ |
| Orchestrator.DisagreementExact | app/eval/orchestrator.py:142-157 | times the live outputs it is the distinct ones less one, and zero without live outputs |
| Orchestrator.LiveAreOutputs | app/eval/orchestrator.py:145-152 | the live outputs are those of the tiers that did not abstain, in order |
| Orchestrator.ScoreBounds | app/eval/orchestrator.py:125-139 | for nonnegative weights a score lies in 0 to the sum of the weights |
| Orchestrator.ScoreFallsWithCoverage | app/eval/orchestrator.py:132-139 | a score never rises as coverage grows |
| Orchestrator.ScoreGain | app/eval/orchestrator.py:135-139 | a score rises with disagreement, by the disagreement weight for every unit |
| Orchestrator.ScoreCost | app/eval/orchestrator.py:132-137 | an uncovered bucket scores the coverage weight, every ground-truth record up to the target costs one share of it, and none beyond |
| Orchestrator.RankedPriority | app/eval/orchestrator.py:97-103 | a candidate's priority is the score of its own bucket's coverage and its own disagreement |
| Orchestrator.DisagreementGoesFirst | app/eval/orchestrator.py:104-120 | of two candidates of one bucket, the one with less disagreement is never asked while the other waits |
| Orchestrator.UncoveredGoesFirst | app/eval/orchestrator.py:104-120 | of two equally disputed candidates, the one of the better covered bucket is never asked while the other, below the target, waits |
| Orchestrator.RankingIsStableSort | app/eval/orchestrator.py:104 | the ranking is descending, a permutation, and stable |
| Orchestrator.RankedRecords | app/eval/orchestrator.py:85-103 | exactly the folded candidates with a bucket are ranked, each once |
| Orchestrator.WhoIsRanked | app/eval/orchestrator.py:88-103 | a current record is ranked exactly when it is pending, never asked about, unobserved and in a bucket |
| Orchestrator.DecisionsByRank | app/eval/orchestrator.py:106-121 | on a ranked list the decisions have a closed form in rank, threshold and budget |
| Orchestrator.ReviewIsTopK | app/eval/orchestrator.py:96-121 | asked, skipped and waited partition the scored; skipped means below threshold; the budget is spent on the highest priorities |
| Orchestrator.ReviewedView | app/eval/orchestrator.py:186-205 | each ranked input's current version becomes what was decided and no other input changes |
| Orchestrator.ReviewOutcome | app/eval/orchestrator.py:106-120 | by rank and priority: skipped with that reason, linked in order to the next ask ids within the budget, or left alone |
| EvalLoop.StepView | app/eval/orchestrator.py:81-121 | what one event may make of one input's current version; for an answer, a settled target of the same input |
| EvalLoop.LineOrigin | app/eval/reconciler.py:116-132 | every line an event adds is a recorded input's, or a new version of a record the event may touch |
| EvalLoop.RunKeepsTidy | app/runtime/ai_stack/runner.py:107-122 | ask ids are handed out in order, links lead to asks that exist, a record id belongs to one input |
| EvalLoop.LifecycleIsCoherent | app/eval/record.py:117-141 | status, reality, ground truth, ask link and skip reason of every line agree in every run |
| EvalLoop.PollIsARun | app/eval/reconcilers/ask_reply.py:88-147 | a poll of the open asks is a legal run of the loop and ends in the same logs |
| GroundTruth.GroundTruthChangesIff | app/eval/reconciler.py:108-133 | a step changes a settled input exactly when it records it again, answers for an unsettled record of it, or decides about it |
| GroundTruth.FinalIffNotExposed | app/eval/reconcilers/ask_reply.py:237-281 | from a clock reading on, ground truth stands in all runs that do not record the input again exactly when no ask that is open and not expired then leads to an unsettled record of it |
| GroundTruth.GroundTruthIsFinal | app/eval/reconciler.py:108-133 | an input with one record that is ground truth keeps its version in every run that does not record it again |
| GroundTruth.RecordedOnceIsFinal | app/eval/reconciler.py:108-133 | from the empty loop, an input recorded at most once keeps its ground truth |
| GroundTruth.OldAnswerReplacesGroundTruth | app/runtime/ai_stack/runner.py:107-122 | an input with an open ask is recorded again and observed, and an answer to that ask before it expires replaces the observation |
| GroundTruth.OldAnswerFromStart | app/runtime/ai_stack/runner.py:107-122 | the same from the empty loop, by an escalation |
| GroundTruth.GroundTruthWasObserved | app/eval/reconciler.py:126-133 | ground truth stems from a reconciler run that observed it within the window or from an answer, and that version is the current one |
| AskBudget.DecidedOncePerRecording | app/eval/orchestrator.py:85-121 | over any run the decisions about an input are at most its recordings, counting whether it was open before and is open after |
| AskBudget.DecidedAtMostOnce | app/eval/orchestrator.py:85-121 | between recordings an input is asked or skipped at most once, so one skipped for low priority is not asked |
| AskBudget.DecidedAtMostAsRecorded | app/eval/orchestrator.py:85-121 | from the empty loop an input is decided about at most as often as it was recorded |
| AskBudget.BudgetHolds | app/eval/orchestrator.py:106-120 | in every run no window of length budget_window holds more of the orchestrator's asks than the budget, whatever the human tier posts |
| AskBudget.AllAsksInWindow | app/runtime/ai_stack/tiers/human.py:65-71 | all asks of a window are at most the budget and the escalations in it |
| AskBudget.StampsMustNotPrecedeClock | app/eval/orchestrator.py:174-182 | over every tidy state with a record log, a run keeps the budget exactly when none of the stamps it can use lies before its clock reading |
| EarlyStamps.EarlyStampBreaksRun | app/eval/orchestrator.py:174-182 | from the empty loop and for every budget: legal runs fill the budget, and one more run with a stamp before its clock breaks it |
| EarlyStamps.AllAskable | app/eval/orchestrator.py:88-121 | if every current version is askable a run can ask about all of them |
| AskBudget.UsedIsTheLastWindow | app/eval/orchestrator.py:174-182 | if no post lies in the future the asks counted are those of the window ending now |
| AskReplies.AskReplyReconciler.PollOpenAsks | app/eval/reconcilers/ask_reply.py:88-147 | both logs and the counts after a poll of the open asks |
| AskReplies.AskReplyReconciler.PropagateToRecords | app/eval/reconcilers/ask_reply.py:237-281 | the unsettled targets of an answer are appended as ground truth |
| AskReplies.TargetIff | app/eval/reconcilers/ask_reply.py:253-270 | the targets are exactly the newest lines of the record ids that the ask names or whose newest line names the ask |
| AskReplies.PostedForRecords | app/connectors/slack_ask_ui.py:89-105 | an ask is answered for the records it was posted for and those linked to it since |
| AskReplies.GroundTruthSurvivesReply | app/eval/reconcilers/ask_reply.py:237-281 | a settled input keeps its version exactly when no unsettled target is a record of that input |
| AskReplies.AnsweredVersions | app/eval/reconcilers/ask_reply.py:253-281 | exactly the linked unsettled records become ground truth, with the answer as reality of the ask |
| AskReplies.PollOutcome | app/eval/reconcilers/ask_reply.py:106-147 | closed asks stay, open ones past their expiry expire, valid replies answer, and nothing else changes an ask |
| AskReplies.UnansweredExpires | app/connectors/slack_ask_ui.py:87-105 | a posted ask without a valid reply is open through its reply window and expired by the first poll behind it |
| AskReplies.PollCounts | app/eval/reconcilers/ask_reply.py:100-147 | each count is the number of open asks it names; an invalid reply counts twice |
| AskReplies.PollKeepsCounts | app/eval/reconcilers/ask_reply.py:106-147 | a poll leaves the ask count of every window as it was |
| BatchDisagreements.SelectBatch | scripts/batch_disagreements.py:101-150 | the loops return a round-robin deal of the capped eligible rows |
| BatchDisagreements.Deal | scripts/batch_disagreements.py:141-150 | the nested loops terminate with min(cap, available) rows, none dealt twice, dealt in rounds |
| BatchDisagreements.DealtIsPrefix | scripts/batch_disagreements.py:141-150 | at every point of the deal a bucket's dealt rows are its first ones |
| BatchDisagreements.CapSendersKeepsFirstTwo | scripts/batch_disagreements.py:133-138 | capping keeps exactly the first two rows of every sender |
| BatchDisagreements.CappedBySender | scripts/batch_disagreements.py:133-138 | the capped rows are the first sender's, then the capped rows of the others |
| BatchDisagreements.SelectedIsEarly | scripts/batch_disagreements.py:131-150 | a selected row has at most one earlier eligible row of its sender |
| BatchDisagreements.TwoOfAnAddress | scripts/batch_disagreements.py:133-138 | at most two rows of a batch have addresses that differ in nothing but capitals |
| BatchDisagreements.EligibleIff | scripts/batch_disagreements.py:111-131 | which rows are eligible, in the row's own fields |
| BatchDisagreements.DomainIsLastPart | scripts/batch_disagreements.py:117-119 | the domain is what follows the last at-sign, or everything |
| BatchDisagreements.BatchBounds | scripts/batch_disagreements.py:131-150 | exact size, rows of the queue each once, all eligible, at most two of a sender |
| BatchDisagreements.BatchIsFair | scripts/batch_disagreements.py:141-150 | two buckets differ by more than one row only if the smaller was taken in full |
| BatchDisagreements.EarlierBucketFirst | scripts/batch_disagreements.py:139-150 | a bucket seen earlier trails a later one only when all its rows were taken |
| BatchDisagreements.DisagreementQueue.MarkSurfaced | scripts/batch_disagreements.py:192-207 | exactly the unsurfaced rows with a selected id get the batch id |
| BatchDisagreements.DisagreementQueue.RunBatch | scripts/batch_disagreements.py:53-87 | below the threshold nothing happens, otherwise an allowed batch is selected and marked |
| BatchDisagreements.NoRowInTwoBatches | scripts/batch_disagreements.py:55-85 | over the queue's history, with rows that leave it, no id of a batch that is no dry run is in a later batch |
| BatchDisagreements.DryRunsRepeat | scripts/batch_disagreements.py:83-87 | after a dry run the very same batch is allowed again |
| EvalDatasets.EvalDataset.Append | app/eval/dataset_base.py:161-203 | the cases after an append, and the archive's unless its callback fails |
| EvalDatasets.EvalDataset.AppendArchived | app/eval/datasets.py:354-363 | the archive appends the evicted case by its own rule |
| EvalDatasets.WorkingIsNewest | app/eval/dataset_base.py:179-203 | the working set is the newest accepted cases in order, with unique ids |
| EvalDatasets.IdsAreConserved | app/eval/dataset_base.py:188-203 | working, archived and lost ids are exactly those there were and were offered |
| EvalDatasets.FromEmpty | app/eval/dataset_base.py:161-203 | from empty: the last min(n, cap) accepted cases, and with a working archive no id is lost |
| EvalDatasets.SplitInOrder | app/eval/dataset_base.py:179-203 | with a working archive and no case taken twice, archive and working set are the accepted cases in order, bodies included |
| Approvals.ApprovalService.RequestApproval | app/approvals/service.py:31-67 | a new pending request is stored and logged |
| Approvals.ApprovalService.Decide | app/approvals/service.py:69-103 | a decision updates and logs a known request, an unknown id changes nothing |
| Approvals.ApprovalService.Enforce | app/approvals/service.py:105-183 | store, trail and outcome of the gate |
| Approvals.FirstMatchDecides | app/shared/models.py:80-94 | the first matching rule gives the mode, or the default does |
| Approvals.StoreIsReplay | app/approvals/service.py:51-66 | in every run the stored requests are what replaying the audit trail gives |
| Approvals.EveryUseWasApproved | app/approvals/service.py:160-173 | every use of an approval has an approval as the latest earlier decision on that request |
| Approvals.GoesAheadIff | app/approvals/service.py:124-183 | after any run an action goes ahead exactly when allowed, or when approval is demanded and the latest decision on the named request approves it |
| Approvals.DemandLeavesRequest | app/approvals/service.py:175-183 | after any run, an action that needs approval leaves one new pending request for it, stored and logged |
| Approvals.NoDemandNoRequest | app/approvals/service.py:113-173 | otherwise the store stays, and the trail gains the check, the use, or two denials |
| Approvals.DemandThenGrant | app/approvals/service.py:105-183 | enforce, approve the request it leaves, enforce with it: granted |
| Approvals.UsedActionIff | app/approvals/service.py:160-173 | a use is of the action that was approved exactly when it is of the action the request was made for |
| Approvals.ApprovalServesAnyAction | app/approvals/service.py:160-173 | while a request stands approved any action goes through on it, and it is the approved one exactly when it is the request's |
| Approvals.OtherActionIsUsed | app/approvals/service.py:160-173 | after a request for one action is approved, another action is used with it |
| Cascade.CascadeRunner.RunCascade | app/cascade/runner.py:277-352 | the loop returns the walk's result and stages its proposal |
| Cascade.CascadeRunner.RegisterRulesHandler | app/cascade/runner.py:92-105 | registering again replaces |
| Cascade.Composition | app/cascade/runner.py:295-342 | running A then B is A alone if A stops, else B from A's accumulated state with the logs concatenated |
| Cascade.TailIsDead | app/cascade/runner.py:321-339 | tiers behind a terminal step never affect the result |
| Cascade.AuditShape | app/cascade/runner.py:313-352 | one entry per tier reached, all before the last are continue, the final verdict never is |
| Cascade.OneProposal | app/cascade/runner.py:214-262 | a proposal is staged exactly when the run ends at a human tier, once, with all that accumulated |
| Cascade.FailsClosed | app/cascade/runner.py:117-211 | a run passes a tier only if it has a handler, and a second-opinion tier only if its gate allows or none is wired; at a tier without a handler it escalates and stages nothing |
| Cascade.GateRules | app/cascade/runner.py:155-211 | a run that reaches a second-opinion tier goes on exactly when the gate, asked about what accumulated, allows, and escalates otherwise |
| Cascade.NoGateGoesOn | app/cascade/runner.py:161-168 | without a gate it goes on and adds nothing |
| Cascade.HandlerRules | app/cascade/runner.py:117-147 | a run that reaches a tier with a handler goes on with the handler's metadata over what accumulated, or ends as the handler says |
| Cascade.MissingHandlerEnds | app/cascade/runner.py:297-311 | a run that reaches a tier without its handler ends there with that reason and leaves everything as it was |
| Cascade.ReportsReachTheEnd | app/cascade/runner.py:341-342 | if no handler drops keys, all that continuing tiers reported is there at the end and in the proposal |
| AuditRotation.AuditLog.Rotate | scripts/rotate_audit_log.py:69-142 | report, live file and archives after a rotation or a skipped one |
| AuditRotation.AuditLog.SplitLines | scripts/rotate_audit_log.py:110-126 | every archive gains exactly its month's lines in order |
| AuditRotation.AuditLog.Prune | scripts/rotate_audit_log.py:145-166 | exactly the archives older than the retention go, one of several months by its last, none in a dry run |
| AuditRotation.SubtractMonths | scripts/rotate_audit_log.py:169-175 | the loop subtracts exactly that many months, or the calendar has no such month |
| AuditRotation.MonthTextOrder | scripts/rotate_audit_log.py:157-158 | archive names compare as their months do |
| AuditRotation.EveryLineIsAccountedFor | scripts/rotate_audit_log.py:96-166 | over any history of writes, rotations and prunings each line is stored as often as written, less the times it was reported unparseable or pruned |
| AuditRotation.ReadableLinesSurvive | scripts/rotate_audit_log.py:96-166 | a parseable line is stored exactly as often as it was written, unless its month was pruned |
| AuditRotation.RotationKeepsOrderIff | scripts/rotate_audit_log.py:126-132 | a rotation keeps the current month's order exactly when nothing of it was written meanwhile or nothing of it was there before |
| AuditRotation.NoOldMonthLeft | scripts/rotate_audit_log.py:74-126 | after any rotation the file holds no line of another month but those written meanwhile |
| AuditRotation.OldMonthsArchived | scripts/rotate_audit_log.py:110-126 | and each readable line of another month is in its month's archive |
| AuditRotation.MonthInOrderIff | scripts/rotate_audit_log.py:126-132 | over any history of distinct lines a month is stored in writing order exactly when no rotation of that month is overtaken |
| AuditRotation.MonthsStayInOrder | scripts/rotate_audit_log.py:126-132 | without overtaking the month's lines stay in writing order even when lines repeat |
| StateMigration.InjectiveIffClear | scripts/migrate_runtime_state.py:105-121 | destinations are distinct for all files exactly when no two targets share a path |
| StateMigration.TableIsWellNamed | scripts/migrate_runtime_state.py:57-76 | the move table meets the naming that result needs |
| StateMigration.TableSays | scripts/migrate_runtime_state.py:57-121 | the destination of every relative path: tokens, five directories, seven files, and nothing else |
| StateMigration.ApartRootsAreClear | scripts/migrate_runtime_state.py:57-76 | roots that do not lie in each other give distinct destinations |
| StateMigration.Migration.BuildPlan | scripts/migrate_runtime_state.py:133-149 | the loop plans every collected file with a destination and lists the rest |
| StateMigration.Migration.Execute | scripts/migrate_runtime_state.py:185-236 | files, statuses and counts after the actions one after the other, errors and shared destinations included |
| StateMigration.OrderlyStatuses | scripts/migrate_runtime_state.py:185-236 | for an orderly plan the files before the run tell every status |
| StateMigration.NoErrorIffUnchanged | scripts/migrate_runtime_state.py:223-234 | no error is reported exactly when every moved file is as it was when planned |
| StateMigration.BuiltPlanIsSane | scripts/migrate_runtime_state.py:133-149 | a fresh plan moves nothing twice and nothing onto anything else |
| StateMigration.NothingIsLost | scripts/migrate_runtime_state.py:187-235 | each planned file's bytes are at its destination or, if that held others, still at its source |
| StateMigration.StatusTells | scripts/migrate_runtime_state.py:185-236 | moved and skipped files are only at their destination, a backup is at both places with different bytes |
| StateMigration.WhatMoves | scripts/migrate_runtime_state.py:124-149 | a run takes exactly the listed files that have a destination and are not to be skipped; all others of the tree stay |
| StateMigration.NothingElseChanges | scripts/migrate_runtime_state.py:208-219 | a file that is not a planned source keeps its bytes |
| StateMigration.SecondRunMovesNothing | scripts/migrate_runtime_state.py:185-236 | a rebuilt plan only keeps backups and changes no file |
| PendingIntents.PendingIntent.Append | app/eval/pending_intents.py:113-125 | the history gains one entry and is cut, the activity time moves |
| PendingIntents.PendingIntentStore.OpenIntent | app/eval/pending_intents.py:164-185 | an intent opens with the operator's message as its first entry |
| PendingIntents.PendingIntentStore.AppendEvent | app/eval/pending_intents.py:212-223 | a known intent gains the entry, an unknown one changes nothing |
| PendingIntents.PendingIntentStore.Close | app/eval/pending_intents.py:234-252 | an open intent is closed with its reason, a closed one is left alone |
| PendingIntents.PendingIntentStore.SweepIdle | app/eval/pending_intents.py:269-286 | exactly the open idle intents expire |
| PendingIntents.HistoryIsWindow | app/eval/pending_intents.py:116-124 | a history is the last entries of the full trace for a positive bound, all for zero, none for a negative one |
| PendingIntents.HistoryIsBounded | app/eval/pending_intents.py:121-124 | after any run a history is as long as its trace or the bound, and a bound of zero bounds nothing |
| PendingIntents.ActivityIsLastEntry | app/eval/pending_intents.py:113-125 | the activity time is that of the last thing that happened, whatever the bound cuts |
| PendingIntents.SweepSparesActive | app/eval/pending_intents.py:269-286 | a sweep expires an open intent exactly when the last thing that happened to it is older than the maximal age |
| PendingIntents.LastEntry | app/eval/pending_intents.py:113-125 | an event or a closure leaves its kind, its time and the first 1000 characters of its text at the end of the history |
| PendingIntents.OpensWithMessage | app/eval/pending_intents.py:164-185 | a new intent is open with the operator's message as its only entry |
| PendingIntents.FirstClosureStands | app/eval/pending_intents.py:234-252 | status and reason of the first closure never change, and only the intent's own later events touch it |
| PendingIntents.ClosedIffClosing | app/eval/pending_intents.py:225-286 | after any run an intent is closed exactly when an operation closed it, which is the only one, with that operation's status and reason |
| ScheduleGate.Gate.SelectDueSlot | app/control_plane/schedule_gate.py:18-40 | the loop returns the first ready slot of the sorted list |
| ScheduleGate.Gate.MarkSlotCompleted | app/control_plane/schedule_gate.py:43-49 | the key is added and marks older than seven days go |
| ScheduleGate.Gate.Drain | app/control_plane/schedule_gate.py:18-49 | selecting and marking at one instant yields exactly the ready slots in ascending order and ends |
| ScheduleGate.TextOrderIsTimeOrder | app/control_plane/schedule_gate.py:92-94 | zero-padded slots compare as text as they do in time |
| ScheduleGate.NormalParses | app/control_plane/schedule_gate.py:92-108 | a normalized slot parses back to its time |
| ScheduleGate.AnyDigitsParse | app/control_plane/schedule_gate.py:92-108 | hours and minutes parse with any number of digits, in their ranges |
| ScheduleGate.SignsAndUnderscores | app/control_plane/schedule_gate.py:101-103 | one sign is read, a single underscore between digits is not |
| ScheduleGate.BlanksIgnored | app/control_plane/schedule_gate.py:97-108 | blanks around a slot do not matter |
| ScheduleGate.AcceptedIffAllParse | app/control_plane/schedule_gate.py:22-26 | a list of slots is accepted exactly when each parses |
| ScheduleGate.SelectIsEarliestInTime | app/control_plane/schedule_gate.py:28-40 | no ready slot is earlier in time than the one returned |
| ScheduleGate.RememberedIff | app/control_plane/schedule_gate.py:43-79 | a key is remembered exactly when some mark of it was followed by none made more than seven days past its date |
| ScheduleGate.OfferedIff | app/control_plane/schedule_gate.py:18-79 | after any history a slot is offered, again or not, exactly when it is listed and open and no earlier one is |
| ScheduleGate.NeverOfferedAgain | app/control_plane/schedule_gate.py:43-79 | a marked slot is not offered again while no later mark is more than seven days past its date |
| ScheduleGate.GoingBackReopens | app/control_plane/schedule_gate.py:67-73 | once a mark was made more than a week ahead, every slot of the earlier day whose time has come is open |
| SheetColumns.ColLetterToIndex | app/connectors/google_sheet.py:83-90 | the loop computes the column's bijective base 26 value, or there is no such column |
| SheetColumns.IndexToColLetter | app/connectors/google_sheet.py:93-99 | the divmod loop ends with the letters of the number |
| SheetColumns.IndexRoundTrip | app/connectors/google_sheet.py:83-99 | index to letters and back is the identity |
| SheetColumns.LetterRoundTrip | app/connectors/google_sheet.py:83-99 | letters to index and back is the trimmed letters in capitals |
| SheetColumns.BlanksAndCaseIgnored | app/connectors/google_sheet.py:83-86 | surrounding blanks and small letters do not matter |
| SheetColumns.OrderIsShortlex | app/connectors/google_sheet.py:93-99 | numeric order is shortlex order of the letters |
| SheetColumns.Worksheet.AppendColumns | app/connectors/google_sheet.py:113-146 | the matrix lands right of the existing header and the range decodes to where it landed |
| SheetColumns.AppendedRight | app/connectors/google_sheet.py:136-145 | exactly the cells of the new headers and data are overwritten, none in a column with a header; the range runs backward exactly when there are no headers |
| ThreadMessages.LatestMessagePerThread | app/control_plane/runner.py:903-915 | the loop returns the fold of the messages |
| ThreadMessages.FoldIsNewest | app/control_plane/runner.py:903-915 | one message per thread in first-seen order, the last among those of maximal time |
| ThreadMessages.OneOfEachThread | app/control_plane/runner.py:903-915 | in the messages' own fields: one message of every thread, none of it later, and none without a time before one with a time |
| ThreadMessages.TwoStageMerge | app/control_plane/runner.py:402-404 | reducing the inbox before merging the refreshed threads changes nothing |
| ThreadMessages.FilterUnprocessedMessages | app/control_plane/runner.py:887-900 | exactly the messages that are not their item's last processed one |
| ThreadMessages.ProcessedOnce | app/control_plane/runner.py:301-302 | after all were processed a poll of the same inbox offers nothing |
| ThreadMessages.OfferedIffNew | app/control_plane/runner.py:887-900 | later a thread is offered exactly when its newest message is not the processed one |
| CanonicalIndex.KeyIndex.Build | app/canonical/index.py:75-94 | every key's list is the items naming it, in order |
| CanonicalIndex.KeyIndex.Lookup | app/canonical/index.py:43-46 | in a built index exactly the items that name the key are found |
| CanonicalIndex.KeyIndex.LookupAny | app/canonical/index.py:48-60 | the loops return the first occurrences over all keys |
| CanonicalIndex.KeyIndex.Size | app/canonical/index.py:65-72 | the number of distinct items under any key |
| CanonicalIndex.FoundIffNamed | app/canonical/index.py:43-46 | an item is found under a key exactly when it names the key |
| CanonicalIndex.AnyIsUnion | app/canonical/index.py:48-60 | looking up several keys finds each item naming one of them, once |
| CanonicalIndex.DedupInOrder | app/canonical/index.py:48-60 | the result keeps first-seen order |
| CanonicalIndex.SizeCountsItems | app/canonical/index.py:65-72 | the size counts the items that name at least one key |

## Left out

- Files and JSON: a file is a sequence or a map and a save is an assignment; unreadable files, partial writes and Pydantic validation are not modelled. A store object stands for one task's file.
- Interleaving inside one orchestrator, reconciler or poll run: the logs have no lock, and a whole run is one step.
- Clocks, ids and hashes: time is an integer passed in, new ids are counters or assumed new, and the hash is a function, injective where a result says so.
- Scores use reals: floating-point rounding is not modelled.
- The task runner: its cascade and escalation policies are not modelled, only the record it appends and the ask its human tier posts; asks posted for a run that then fails are left out.
- Approvals.StoreIsReplay: the metadata and time stamps of a request are not in the audit trail and not in the model.
- Cascade: a handler may change what has accumulated, as in the code, but not the inputs or the injected dependencies; the gate's purpose and criteria are read from the tier's configuration only.
- ScheduleGate.Gate.MarkSlotCompleted: a completed key is a date with a slot or a text without a date, so the parsing of its date, and spaces before it, are not modelled. Digits and spaces are ASCII.
- SheetColumns.ColLetterToIndex: letters are ASCII; Python's `isalpha` and `upper` also take others.
- BatchDisagreements: lower-casing is ASCII.
- AuditRotation.AuditLog.Prune: years have four digits; the histories of the log start without archives of several months.
- StateMigration.Migration.Execute: an operating-system error while reading or moving a file, and a source deleted after planning. The launchd calls, the manifest file and the removal of empty directories.
- PendingIntents: the file name derived from an intent id, and the text built for the agent from a history.
- EvalDataset.run and its report, keys of the index, the column reader and charts of the sheet connector: easy members.
- Gmail, Calendar, Slack, LangGraph, OAuth and the rest of the control-plane runner: network clients and wiring.
