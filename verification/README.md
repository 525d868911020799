# PriEvoAgent: durable runtime, evolution loop and their algorithms

PriEvoAgent evolves heuristics. A run proposes candidates generation by generation, evaluates
them through durable evaluation jobs, keeps the best and finally selects and optimises one
heuristic. This project models the parts of it that must stay right under concurrency,
crashes and adversarial input, and proves what they promise.

* **The durable store** (`StoreModel`, `StoreInvariants`, `StoreSafety`, `StoreGuarantees`,
  `StoreOutcomes`).
  Every store method is one transaction on the tables of runs, jobs, results, agent tasks and
  checkpoints; a history is any interleaving of transactions of any number of workers,
  runtimes and operators, each of which may crash or stall between two of its transactions.
  The budget ledger, exactly-once settlement, the run state machine and the draining of
  cancelled runs hold in every reachable state; what each transaction leaves in the rows is
  stated column by column.
* **Whole histories** (`StoreHistory`, `AgentTaskHistory`, `RunTenure`). Bounded claims and
  waiting, fencing of superseded workers, spent claim tokens, one block of writes per runtime
  tenure, and the checkpoint a runtime resumes from.
* **The store as it is carried out** (`RuntimeStore`), row by row with affected-row counts,
  late checks and rollbacks, proved to commit exactly the modelled transactions; the lifecycle
  service and its commands over stale snapshots (`RunLifecycle`); the evaluation worker and the
  inline driver as programs over it, with termination (`EvaluationDriver`).
* **The generation loop** (`GenerationLoop`, `RunExecution`, `Selection`, `SelectionRules`,
  `SelectionDetermined`, `Elitism`). Crash and resume equivalence for any number of runtimes,
  carried out on the store with its leases, checkpoints and cursor; the tiered early and the
  late selection, the rules of their choices and their one outcome; elitism of whole runs.
* **Funding** (`Funding`, `FundedState`, `FundedRun`). The budget chosen at creation always
  suffices: a whole run over the store, with everybody else acting at every point, is never
  refused a submission, with the one exception named below.
* **Algorithms around it**: rolling history summaries (`HistoryCompaction`), the evaluation
  trace, its data and their distances, and its validator (`EvaluationTrace`, `DatasetLoading`,
  `DistanceLaws`), literal tuning (`LiteralTuning`), missing agent
  work and its dispatch (`MissingWork`, `AgentDispatch`), final selection with an adversarial
  model (`FinalSelection`) and overlapping chunks (`PaperChunks`).

Conventions: identifiers and digests are natural numbers and digests are injective; times are
integer microseconds; NULL and the empty string of an owner, worker, token or cursor column are
`None`; objectives are real numbers. `dafny verify dfyconfig.toml` checks everything.

Where the code differs from what its surroundings suggest, the model follows the code:

* `start_run` accepts any expected status. Terminal states are absorbing only because callers
  check the status they read (`StartObeysIff`, `CompletedRunRestarts`, `RunLifecycle`).
* Job fencing compares the literal worker id, so it needs distinct ids among live workers
  (`FenceNeedsDistinctIds`); agent tasks draw a fresh token for every claim.
* MySQL reports changed rows: renewals read the fence back, while `claim_run_lease`,
  `update_runtime_cursor`, `start_run`, `update_run_progress` and `request_run_pause` refuse a
  matching but unchanged row. For the last three, whether the row already carries the time and
  reason of the call is an argument, `sameStamp`.
* A configuration repeated with another objective can have two scores
  (`DuplicateRowsDisagree`), and a recent window wider than before returns covered facts again
  (`WiderWindowRepeats`).
* A delta of zero and rounding leave floating-point literals as they were, and a delta that
  makes one negative changes the structure of the program as it is read back
  (`TuningAccepted`).
* A prior seed is rejected on any runtime error, also when the inline driver gives up on its
  job because another worker evaluates it or an evaluation outlives its lease. The job keeps
  its slot, which the chosen total does not provide for (`StuckSeedIsRefused`). The budget
  suffices as long as no seed gets stuck, and with external workers or a sole inline worker
  none does (`RunWithin`).

## Model

| member | source | states |
|---|---|---|
| StoreSafety.StepKeepsInv | src/prievo_agent/infrastructure/mysql_store.py:948-1742 | Every store transaction, issued by anyone at any time, keeps the ledger balanced, jobs and results paired, references intact, finished runs empty and agent-task rows in shape. |
| StoreSafety.ReachableInv | src/prievo_agent/infrastructure/mysql_store.py:948-1742 | That invariant holds after every history of transactions of any number of workers, runtimes and operators. |
| StoreSafety.EnqueueKeepsInv | src/prievo_agent/infrastructure/mysql_store.py:1443-1521 | Accepting a job reserves its budget within the total and keeps one job per candidate and per idempotency key. |
| StoreSafety.StopReleasesReservation | src/prievo_agent/infrastructure/mysql_store.py:987-1086 | The budgets of the live jobs of a run add up to exactly its reservation, which stopping them gives back. |
| StoreGuarantees.ReservationCovers | src/prievo_agent/infrastructure/mysql_store.py:1577-1742 | A live job's budget is always covered by the reservation of its run, so no settlement or recovery can miss the guard. |
| StoreGuarantees.OpenJobHasNoResult | src/prievo_agent/infrastructure/mysql_store.py:1577-1616 | While a job has not succeeded its candidate has no result. |
| StoreGuarantees.SuccessIff | src/prievo_agent/infrastructure/mysql_store.py:1577-1650 | A success settles exactly when the worker holds an unexpired lease on a job of an active run and reports a matching, affordable, new result; the ledger guard and the second-result guard never decide. |
| StoreGuarantees.FailureIff | src/prievo_agent/infrastructure/mysql_store.py:1652-1696 | A failure settles exactly when the worker holds the lease on a job of an active run. |
| StoreGuarantees.CompleteIff | src/prievo_agent/infrastructure/mysql_store.py:987-1020 | Completion depends on the runtime lease and the control flags only; its reservation check always holds. |
| StoreGuarantees.FailRunIff | src/prievo_agent/infrastructure/mysql_store.py:1022-1058 | Failing a run is refused only for the fence, a cancellation or a status that is not PENDING or RUNNING, never for the ledger. |
| StoreGuarantees.CancelIff | src/prievo_agent/infrastructure/mysql_store.py:1121-1179 | Cancelling succeeds for exactly the existing runs that are not finished; its ledger check never refuses. |
| StoreGuarantees.ExactlyOnce | src/prievo_agent/infrastructure/mysql_store.py:1443-1521 | In every reachable state a candidate has at most one job and one result, and its job is SUCCESS if and only if the result exists. |
| StoreGuarantees.OthersKeepStatus | src/prievo_agent/infrastructure/mysql_store.py:948-1248 | No transaction but start, pause, complete, fail and cancel changes the status of a run. |
| StoreGuarantees.StatusFollowsMachine | src/prievo_agent/runtime/state_machine.py:11-31 | Whoever starts runs only from PENDING, PAUSED or RUNNING moves them only along the transition table of the state machine. |
| StoreGuarantees.StartObeysIff | src/prievo_agent/infrastructure/mysql_store.py:948-967 | The store accepts any expected status, so a start that succeeds follows the table if and only if its caller expected a startable status. |
| StoreGuarantees.CompletedRunRestarts | src/prievo_agent/infrastructure/mysql_store.py:948-967 | The failing case: a completed run goes back to RUNNING for a caller that expects COMPLETED. |
| StoreGuarantees.FinishedForever | src/prievo_agent/runtime/state_machine.py:11-23 | COMPLETED, FAILED and CANCELLED last through every continuation whose starts are proper. |
| StoreGuarantees.RunKeepsTask | src/prievo_agent/infrastructure/mysql_store.py:875-907 | A run is created once, for one task with one total budget, and no transaction ever changes that. |
| StoreGuarantees.MoveEffect | src/prievo_agent/infrastructure/mysql_store.py:1523-1742 | What any transaction may do to any one job: claim, renew, succeed, fail, recover, stop or nothing. What each leaves in the row is stated by the lemmas of `StoreOutcomes`. |
| StoreGuarantees.MoveKeepsIdentity | src/prievo_agent/infrastructure/mysql_store.py:1523-1742 | No transaction changes what a job evaluates, for whom, or at what cost. |
| StoreGuarantees.SettledJobStays | src/prievo_agent/infrastructure/mysql_store.py:1577-1742 | SUCCESS, DEAD and CANCELLED job rows never change again. |
| StoreGuarantees.CancelledStep | src/prievo_agent/infrastructure/mysql_store.py:1121-1179 | After a cancellation no transaction brings a job of the run into PENDING, RETRY_WAIT, RUNNING or SUCCESS, or adds one. |
| StoreGuarantees.CancelledReservation | src/prievo_agent/infrastructure/mysql_store.py:1121-1179 | The reservation of a cancelled run is exactly the budgets of its still running jobs. |
| StoreGuarantees.CancelledReservationShrinks | src/prievo_agent/infrastructure/mysql_store.py:1121-1179 | No transaction raises the reservation of a cancelled run. |
| StoreGuarantees.CancelDrains | src/prievo_agent/infrastructure/mysql_store.py:1121-1179 | Over every continuation a cancelled run stays cancelled, its reservation never grows and its jobs only leave RUNNING for CANCELLED. |
| StoreGuarantees.OneRecoverySettlesCancelled | src/prievo_agent/infrastructure/mysql_store.py:1698-1742 | One stale recovery after all leases have expired leaves a cancelled run without reservation and without live jobs. |
| StoreGuarantees.FinishedRunsAreEmpty | src/prievo_agent/infrastructure/mysql_store.py:1060-1086 | COMPLETED and FAILED runs reserve nothing and hold neither a live job nor a claimed agent task. |
| StoreOutcomes.EnqueueOutcome | src/prievo_agent/infrastructure/mysql_store.py:1443-1521 | A new job waits without attempts under exactly the submitted terms, within the total, and its run reserves its budget. |
| StoreOutcomes.ClaimOutcome | src/prievo_agent/infrastructure/mysql_store.py:1523-1548 | The job taken is due, unlocked and has been available longest, the least id among equals; it runs under the worker's lease with one attempt more, nothing else changes, and there is no work exactly if no due job is unlocked. |
| StoreOutcomes.SuccessOutcome | src/prievo_agent/infrastructure/mysql_store.py:1577-1650 | The job refers to its result and nobody holds it; its run gives back the reservation and consumes what was used. |
| StoreOutcomes.FailureOutcome | src/prievo_agent/infrastructure/mysql_store.py:1652-1696 | Retryable with an attempt left the job waits until the given time and stays paid for; otherwise it is DEAD and its reservation is given back. |
| StoreOutcomes.RecoveryOutcome | src/prievo_agent/infrastructure/mysql_store.py:1698-1742 | A job whose lease has ended loses worker and lease and keeps its attempts; it becomes CANCELLED exactly if its run is cancelled, DEAD exactly if it is not and no attempt is left, and PENDING and due at once otherwise. Every other job stays. |
| StoreOutcomes.RecoveredJobIsDue | src/prievo_agent/infrastructure/mysql_store.py:1732-1736 | A stale job with an attempt left is due again at once where its run goes on, and the reservation of its run still covers it. |
| StoreOutcomes.RecoveryRefunds | src/prievo_agent/infrastructure/mysql_store.py:1710-1731 | Recovery gives every run back exactly the budgets of its jobs that became DEAD or CANCELLED. |
| StoreOutcomes.CancelOutcome | src/prievo_agent/infrastructure/mysql_store.py:1121-1179 | Cancelling ends the open jobs and agent tasks of the run, leaves its running jobs to their workers and frees its lease. |
| StoreOutcomes.CompleteOutcome | src/prievo_agent/infrastructure/mysql_store.py:987-1020 | Completing also ends the running jobs; nothing is reserved or owned afterwards, and generation and best candidate are recorded. |
| StoreOutcomes.FailOutcome | src/prievo_agent/infrastructure/mysql_store.py:1022-1058 | Failing likewise ends every live job and agent task of the run and nothing of another. |
| StoreOutcomes.ClaimTaskOutcome | src/prievo_agent/infrastructure/mysql_store.py:501-533 | A task is claimed exactly while it is PENDING with an attempt left in a run that takes agents; it then carries the fresh token. |
| StoreOutcomes.TaskRecoveryOutcome | src/prievo_agent/infrastructure/mysql_store.py:654-699 | A task is orphaned when its lease has ended, or when it has none and was not touched for too long; it becomes CANCELLED exactly if its run is over, FAILED exactly if it is not and no attempt is left, and PENDING otherwise. Every other task stays. |
| StoreHistory.ClaimsBounded | src/prievo_agent/infrastructure/mysql_store.py:1523-1548 | Although a claim never reads the attempt counter, no history claims a job more than `max_attempts` times, and a claimable job always has an attempt left. |
| StoreHistory.HistoryAgrees | src/prievo_agent/infrastructure/mysql_store.py:1523-1650 | In every history the attempts, the holder and the settlement of a job row agree with the log of what was done to it. |
| StoreHistory.JobKeepsIdentity | src/prievo_agent/infrastructure/mysql_store.py:1443-1521 | What a job evaluates never changes, and its row never goes away. |
| StoreHistory.SettledOnce | src/prievo_agent/infrastructure/mysql_store.py:1577-1650 | Over every history a job succeeds at most once, exactly when its candidate has a result, and is charged at most its budget once. |
| StoreHistory.SupersededIsFencedOut | src/prievo_agent/evaluation/queue.py:249-346 | A worker that is not the latest claimer of a job can neither renew its lease nor settle it. |
| StoreHistory.FenceNeedsDistinctIds | src/prievo_agent/infrastructure/mysql_store.py:1577-1596 | After another claim an otherwise valid settlement by the earlier claimer goes through if and only if both used the same worker id. |
| StoreHistory.SubmitIsIdempotent | src/prievo_agent/evaluation/queue.py:79-133 | Submitting a logical evaluation again, at any later time while its run is active, finds the first job and reserves nothing. |
| StoreHistory.AnotherEnqueue | src/prievo_agent/infrastructure/mysql_store.py:1472-1487 | For a candidate that has a job an enqueue either repeats that job's identity and returns it, or is an identity conflict. |
| StoreHistory.BackoffBounded | src/prievo_agent/evaluation/queue.py:348-360 | With the worker's exponential delays all waiting a job is ever sent into sums to at most 2^(max_attempts - 1) - 1 seconds. |
| StoreHistory.BackoffDoubles | src/prievo_agent/evaluation/queue.py:348-360 | The first delay is one second and every further one is twice the one before. |
| AgentTaskHistory.FinishedTaskStays | src/prievo_agent/infrastructure/mysql_store.py:577-699 | COMPLETED, FAILED and CANCELLED agent tasks keep their row through every continuation. |
| AgentTaskHistory.TaskMoveEffect | src/prievo_agent/infrastructure/mysql_store.py:501-699 | What any transaction may do to any one agent task. |
| AgentTaskHistory.TaskHistoryAgrees | src/prievo_agent/infrastructure/mysql_store.py:501-699 | In every history the attempts, the token and the completion of an agent-task row agree with the log of what was done to it. |
| AgentTaskHistory.TaskClaimsBounded | src/prievo_agent/infrastructure/mysql_store.py:501-533 | Over every history an agent task is claimed at most `max_attempts` times and completed at most once, and a pending one has an attempt left. |
| AgentTaskHistory.OnlyLatestTokenActs | src/prievo_agent/infrastructure/mysql_store.py:535-652 | Whoever renews, completes or fails an agent task does so with the token of its latest claim. |
| AgentTaskHistory.SpentToken | src/prievo_agent/infrastructure/mysql_store.py:501-533 | With a fresh token per claim, a token that a task does not hold any more is never held by it again. |
| AgentTaskHistory.SpentTokenIsFenced | src/prievo_agent/infrastructure/mysql_store.py:535-652 | Such a token never again renews, completes or fails that agent task. |
| AgentTaskHistory.ActingSpendsToken | src/prievo_agent/infrastructure/mysql_store.py:577-652 | Completing or failing an agent task spends its token for good. |
| RunTenure.TenureAgrees | src/prievo_agent/infrastructure/mysql_store.py:1181-1234 | In every history the run row names its latest lease claimer, with the end of its latest lease, or nobody. |
| RunTenure.WriterIsTenant | src/prievo_agent/infrastructure/mysql_store.py:948-1103 | A fenced write - owned start, progress, cursor, pause, completion, owned failure, renewal - lands only for the latest claimer and before its lease ends. |
| RunTenure.ContiguousBlocks | src/prievo_agent/infrastructure/mysql_store.py:948-1103 | Between fenced writes of two runtimes the second one claimed the run, so the writes of a run form one block per tenure. |
| RunTenure.TenureStartsWithClaim | src/prievo_agent/infrastructure/mysql_store.py:1181-1202 | A runtime becomes the tenant only by a granted claim of its own. |
| RunTenure.TakeoverWaits | src/prievo_agent/infrastructure/mysql_store.py:1181-1202 | A takeover succeeds only after the earlier tenant gave the run up or its lease ended, and then shuts every other owner out. |
| RunTenure.CursorIsTenants | src/prievo_agent/infrastructure/mysql_store.py:1236-1248 | A set cursor was put there by the last cursor write that landed, by the tenant of that time. |
| RunTenure.LatestExistsIff | src/prievo_agent/infrastructure/mysql_store.py:1413-1425 | `latest_checkpoint` finds a row exactly when the run has one. |
| RunTenure.LatestIsCursorIff | src/prievo_agent/infrastructure/mysql_store.py:1413-1425 | With a set cursor the row found is the cursor's exactly when such a row exists, however young other rows are. |
| RunTenure.LatestIsYoungest | src/prievo_agent/infrastructure/mysql_store.py:1413-1425 | Without a cursor the row found is the youngest of the run, the greatest id among equals. |
| RunTenure.ResumesAtCursor | src/prievo_agent/runtime/persistent_runtime.py:1096-1100 | If rows are saved before the cursor moves, a resuming runtime always gets the row named by the last landed cursor write, never one of a superseded owner. |
| RuntimeStore.Store.EnqueueJob | src/prievo_agent/infrastructure/mysql_store.py:1443-1521 | The method with its early refusals commits exactly the specified transaction and keeps the invariant. |
| RuntimeStore.Store.ClaimNextJob | src/prievo_agent/infrastructure/mysql_store.py:1523-1548 | The scan takes the due, unlocked job that has been available longest, the least id among equals, and commits exactly the specified transaction. |
| RuntimeStore.Store.RenewJobLease | src/prievo_agent/infrastructure/mysql_store.py:1550-1575 | Counting changed rows and reading the fence back grants exactly the renewals whose fence holds. |
| RuntimeStore.Store.CompleteJobSuccess | src/prievo_agent/infrastructure/mysql_store.py:1577-1650 | Writes, late ledger check and rollback together are the specified transaction. |
| RuntimeStore.Store.CompleteJobFailure | src/prievo_agent/infrastructure/mysql_store.py:1652-1696 | Retry or dead letter with its refund, as specified. |
| RuntimeStore.Store.RecoverStaleJobs | src/prievo_agent/infrastructure/mysql_store.py:1698-1742 | Every row is recovered as its run and attempts call for, stated row by row, and the loop, whose refund of cancelled runs is silently conditional, refunds every run exactly, in any order. |
| RuntimeStore.Store.RecoverRow | src/prievo_agent/infrastructure/mysql_store.py:1710-1739 | Moving one stale row leaves it PENDING, DEAD or CANCELLED by its run and attempts, keeps the invariant and refunds its run by exactly that row's share. |
| RuntimeStore.Store.SumToRelease | src/prievo_agent/infrastructure/mysql_store.py:990-998 | The summing query adds up the budgets of exactly the rows that will stop. |
| RuntimeStore.Store.CompleteRun | src/prievo_agent/infrastructure/mysql_store.py:987-1020 | Sum, compare-and-set and cancellation of the remaining work, as specified. |
| RuntimeStore.Store.FailRun | src/prievo_agent/infrastructure/mysql_store.py:1022-1058 | Sum, compare-and-set and cancellation of the remaining work, as specified. |
| RuntimeStore.Store.RequestRunCancel | src/prievo_agent/infrastructure/mysql_store.py:1121-1179 | Work is cancelled before the run row is checked; the whole, with its rollback, is the specified transaction. |
| RuntimeStore.Store.StartRun | src/prievo_agent/infrastructure/mysql_store.py:948-967 | Compare-and-set on status, cancellation and owner; a start that changes no column counts no row and is refused. |
| RuntimeStore.Store.RequestRunPause | src/prievo_agent/infrastructure/mysql_store.py:1103-1119 | Only the request flag of an active run; a repeated request with the same reason and time counts no row and is refused. |
| RuntimeStore.Store.CancelWork | src/prievo_agent/infrastructure/mysql_store.py:1060-1086 | Afterwards no job that should stop and no agent task of the run is open, every other row is as it was, and the live budget of the run has fallen by exactly the sum of the stopped rows while that of every other run is the same. |
| RuntimeStore.Store.ClaimRunLease | src/prievo_agent/infrastructure/mysql_store.py:1181-1202 | Granted exactly as specified, including the unchanged row that reports no affected row. |
| RuntimeStore.Store.RenewRunLease | src/prievo_agent/infrastructure/mysql_store.py:1204-1223 | Counting changed rows and reading the fence back grants exactly the renewals whose fence holds. |
| RuntimeStore.Store.UpdateRuntimeCursor | src/prievo_agent/infrastructure/mysql_store.py:1236-1248 | Fenced cursor move, as specified; a cursor that already has the value reports no affected row. |
| RuntimeStore.Store.AddAgentTask | src/prievo_agent/infrastructure/mysql_store.py:453-484 | The unique key over run and idempotency key decides between insert, found row and refusal. |
| RuntimeStore.Store.RenewAgentTask | src/prievo_agent/infrastructure/mysql_store.py:535-575 | Counting changed rows and reading the fence back grants exactly the renewals whose fence holds. |
| RuntimeStore.Store.RecoverOrphanAgentTasks | src/prievo_agent/infrastructure/mysql_store.py:654-699 | The loop over orphaned rows moves each to CANCELLED, FAILED or PENDING by its run and attempts, stated row by row, and leaves every other row. |
| RuntimeStore.Store.UpdateRunProgress | src/prievo_agent/infrastructure/mysql_store.py:1088-1101 | Fenced progress; writing the generation and time the row already has counts no row and is refused. |
| RuntimeStore.Store.CreateTaskRun | src/prievo_agent/infrastructure/mysql_store.py:875-907 | Task and run are inserted together or, after a rollback, not at all. |
| RuntimeStore.Store.Perform | src/prievo_agent/infrastructure/mysql_store.py:453-1742 | The methods together, whoever calls them in whatever order, are the modelled transition system, and every one keeps the invariant. |
| RunLifecycle.Lifecycle.Start | src/prievo_agent/runtime/lifecycle.py:15-27 | A start from any snapshot succeeds exactly if the row still has that status and the fence holds, and then writes the right event. |
| RunLifecycle.Lifecycle.RequestPause | src/prievo_agent/runtime/lifecycle.py:29-44 | A pause request needs RUNNING in the snapshot and in the row and changes only the request flag; it is refused as a repetition only with the same reason at the same time. |
| RunLifecycle.Lifecycle.Pause | src/prievo_agent/runtime/lifecycle.py:46-60 | A pause is confirmed exactly by the lease holder of an active run and gives the lease up. |
| RunLifecycle.Lifecycle.Complete | src/prievo_agent/runtime/lifecycle.py:62-70 | Completion succeeds exactly for the lease holder of an active run without a pause request and leaves no reservation. |
| RunLifecycle.Lifecycle.Fail | src/prievo_agent/runtime/lifecycle.py:72-79 | Failure succeeds exactly when fenced, not cancelled and PENDING or RUNNING, and leaves no reservation. |
| RunLifecycle.Lifecycle.Cancel | src/prievo_agent/runtime/lifecycle.py:81-102 | Cancellation needs the consent of the state machine for the snapshot and of the store for the row; the snapshot ends up with the row's ledger and no owner. |
| RunLifecycle.Resume | src/prievo_agent/application/orchestration/run_facade.py:190-203 | However stale the run it read, resuming moves every run along the state machine or not at all. |
| RunLifecycle.EnterExecution | src/prievo_agent/runtime/persistent_runtime.py:188-199 | However stale the run it read, the entry of an execution moves every run along the state machine or not at all. |
| EvaluationDriver.RunOnce | src/prievo_agent/evaluation/queue.py:249-380 | For any evaluator, one turn claims the first claimable job and leaves exactly the row and result its outcome calls for; it crashes only if a lease is lost. |
| EvaluationDriver.RowIsTurnRow | src/prievo_agent/evaluation/queue.py:249-380 | The row after a turn: a success refers to its result, a retryable failure with an attempt left waits, every other failure is dead. |
| EvaluationDriver.RefusalIff | src/prievo_agent/infrastructure/mysql_store.py:1598-1616 | A reported result is refused exactly if it is for another run or candidate, uses more than the budget or less than nothing, or reuses an id. |
| EvaluationDriver.TurnUsesClaim | src/prievo_agent/evaluation/queue.py:249-380 | Every turn uses up at least one of the claims the store can still grant. |
| EvaluationDriver.WaitDelay | src/prievo_agent/evaluation/driver.py:128-187 | A driver error arises exactly inline with a ready or running job; otherwise the wait is the time to the earliest end of a lease or retry among the awaited jobs, within its bounds. |
| EvaluationDriver.IdleMeansNotReady | src/prievo_agent/evaluation/driver.py:155-183 | If the worker found nothing to claim, no awaited job is ready. |
| EvaluationDriver.Drive | src/prievo_agent/evaluation/driver.py:77-126 | Inline driving terminates without a driver error, with every awaited job settled unless the control check stops it, after at most 2 * claims left + 1 probes, without touching a settled job or leaving one running. |
| Selection.FitnessTiers | src/prievo_agent/evolution/selection.py:26-29 | Candidates grouped by equal objective, best first, each tier in population order, none lost. |
| Selection.GroupByObjective | src/prievo_agent/evolution/selection.py:26-28 | The dictionary files every valid candidate under its objective, in population order. |
| Selection.RankTier | src/prievo_agent/evolution/selection.py:37-54 | Each tier is ranked by the one stable descending order of its diversity key; `SelectionRules` says what that means for the choice. |
| Selection.SelectEarly | src/prievo_agent/evolution/selection.py:18-71 | Exactly min(size, valid) distinct valid positions: the ranked tiers read column by column; the refill loop terminates and never stops short. What the ranking means is `EarlyFollowsRule`. |
| Selection.ExhaustedPicksAll | src/prievo_agent/evolution/selection.py:57-71 | A refill round that finds nothing would have picked every valid candidate already. |
| Selection.FillCount | src/prievo_agent/evolution/selection.py:57-71 | How many of every tier are picked, as a function of completed rounds. |
| Selection.WaterLevel | src/prievo_agent/evolution/selection.py:57-71 | Of two tiers the better is filled at least as far as the other and at most one further, as long as their members last. |
| Selection.BestTiersFirst | src/prievo_agent/evolution/selection.py:34-55 | The first picks are one candidate of each of the best min(size, tiers) tiers. |
| Selection.SelectLate | src/prievo_agent/evolution/selection.py:74-87 | The first `size` of the stable order by objective, then number of operators. |
| Selection.EarlyKeepsBest | src/prievo_agent/evolution/selection.py:18-71 | Early selection keeps a candidate of least objective. |
| Selection.LateKeepsBest | src/prievo_agent/evolution/selection.py:74-87 | Late selection keeps a candidate of least objective. |
| SelectionRules.EarlyFollowsRule | src/prievo_agent/evolution/selection.py:34-55 | Said of the population and the choices alone: the first min(size, tiers) choices are one candidate per objective, best first; each adds more to the operators of those before it than any other candidate of its objective, the earlier one among equals; and the later members of its objective follow in the same order of gain. |
| SelectionRules.FewerIsPrefix | src/prievo_agent/evolution/selection.py:57-71 | What is selected up to a size is selected first up to any larger size, so that the water level holds after every single choice. |
| SelectionRules.RetainEarly | src/prievo_agent/evolution/selection.py:18-71 | The early selection obeys that rule, keeps a candidate of least objective and returns min(size, valid) positions, all of them in population order if there are no more. |
| SelectionRules.LateFollowsRule | src/prievo_agent/evolution/selection.py:74-87 | The choices in the order lower objective, more operators, earlier position, and every candidate passed over behind all of them. |
| SelectionRules.RetainLate | src/prievo_agent/evolution/selection.py:74-87 | The late selection obeys that rule, keeps a candidate of least objective and returns min(size, valid) positions. |
| SelectionDetermined.TiersUnique | src/prievo_agent/evolution/selection.py:26-29 | A population has exactly one list of fitness tiers. |
| SelectionDetermined.EarlySelectionUnique | src/prievo_agent/evolution/selection.py:18-71 | Early selection has exactly one outcome, in content and order. |
| SelectionDetermined.LateSortUnique | src/prievo_agent/evolution/selection.py:74-87 | Late selection has exactly one outcome, in content and order. |
| SelectionDetermined.SelectTwice | src/prievo_agent/runtime/persistent_runtime.py:407-415 | Selecting again from the same merged population, as a resumed run does, retains the same candidates in the same order. |
| Elitism.Retain | src/prievo_agent/runtime/persistent_runtime.py:407-415 | Either selection keeps the least objective of parents and offspring and chooses by its rule. |
| Elitism.Evolve | src/prievo_agent/runtime/persistent_runtime.py:299-483 | Over any number of generations and any offspring every generation is selected early exactly in the first half, or as the first one, by the rule of its selection; the retained least objective is the least ever merged, and the best candidate of a run without final selection is the first of that objective. |
| GenerationLoop.EarlyIsPrefix | src/prievo_agent/evolution/schedule.py:10-24 | Early generations are a non-empty prefix; i1 belongs to them and m2 to the others only. |
| GenerationLoop.EarlyIsFirstHalf | src/prievo_agent/evolution/schedule.py:6-24 | Generation g of `total` is early, with i1, e1, e2, m1, if and only if g = 1 or 2g is at most `total`; otherwise its operators are exactly e1, e2, m1, m2. |
| GenerationLoop.UninterruptedWrittenOut | src/prievo_agent/runtime/persistent_runtime.py:299-477 | The uninterrupted run is the loop written out: four batches per generation, i1, e1, e2, m1 and early selection in the first half, e1, e2, m1, m2 and late selection after it, and the first candidate of least objective at its end. |
| GenerationLoop.BestIsFirst | src/prievo_agent/runtime/persistent_runtime.py:482-483 | The best candidate is the first of least objective in the final population. |
| GenerationLoop.NextOnTrack | src/prievo_agent/runtime/persistent_runtime.py:337-415 | Neither a batch nor the selection is lost or repeated by resuming at any boundary. |
| RunExecution.Latest | src/prievo_agent/infrastructure/mysql_store.py:1413-1425 | The query finds the one row that comes first in its order, or nothing exactly if the run has no row. |
| RunExecution.EndStep | src/prievo_agent/runtime/persistent_runtime.py:1008-1112 | Progress, lease check, row, cursor and control point over the store, with others acting and death possible in between: a step that is survived leaves a store from which exactly its snapshot is restored next; a stop leaves a resumable one. |
| RunExecution.SavingIsHonest | src/prievo_agent/runtime/persistent_runtime.py:1008-1112 | The rows a runtime saves are of the kind that every other runtime relies on. |
| RunExecution.SafePoint | src/prievo_agent/runtime/persistent_runtime.py:901-912 | A cancelled run ends, a requested pause is confirmed, and otherwise the lease is renewed without touching rows or cursor. |
| RunExecution.Conclude | src/prievo_agent/runtime/persistent_runtime.py:478-543 | The run is completed with the best candidate, or the runtime died, was stopped or lost its lease. |
| RunExecution.ExecuteOwned | src/prievo_agent/runtime/persistent_runtime.py:188-543 | One execution over the store with its loops and the completion of the run, started or restored, interrupted anywhere, with any transactions of others between its steps: if it finishes it has the answer of the loop written out, with the switch after the first half, and the run is COMPLETED with its best candidate, and with steps shorter than a lease and nobody interfering it finishes. |
| RunExecution.Enter | src/prievo_agent/runtime/persistent_runtime.py:142-209 | Claim, start of a pending run, renewal and recovery of stale jobs: a run that is free and unasked to stop is entered with a full lease, its rows and cursor untouched. |
| RunExecution.Execute | src/prievo_agent/runtime/persistent_runtime.py:142-186 | The same for an attempt that claims the run first and, unless it dies, releases it. |
| RunExecution.ExecuteUntilDone | src/prievo_agent/devtools/harness/checkpoint.py:49-66 | Attempts of any number of runtimes, one after another, with anything happening in between: the first that finishes ends with the core state, ordered population and best candidate of the loop written out. |
| GenerationLoop.EveryAnswerAgrees | src/prievo_agent/runtime/persistent_runtime.py:299-477 | The same for every interleaving of any number of runtimes, rows, cursor moves and crashes, even resuming from rows no cursor names. |
| Funding.TotalBySlots | src/prievo_agent/application/orchestration/run_facade.py:125-133 | The total chosen at creation pays for all evolution slots and all final trials. |
| Funding.SpentBySlots | src/prievo_agent/infrastructure/mysql_store.py:1502-1518 | In every reachable state consumed plus reserved is at most the price of the jobs that are SUCCESS or live. |
| Funding.NeverExhausted | src/prievo_agent/infrastructure/mysql_store.py:1502-1505 | With the chosen total an enqueue is never refused for budget while a slot of its price is free; `FundedRun` shows that a run always finds one. |
| Funding.PreflightPasses | src/prievo_agent/evaluation/final_optimization.py:539-552 | The final-optimization check passes while the evolution slots are not overrun; `FundedRun` shows that a run never overruns them. |
| Funding.PreflightIff | src/prievo_agent/evaluation/final_optimization.py:539-552 | The total is exact: after n fully used evaluations with k jobs still live the final trials can be afforded if and only if n + k is at most the number of evolution slots. |
| Funding.StuckSeedIsRefused | src/prievo_agent/runtime/persistent_runtime.py:222-244 | The failing case: one member, one generation, two final seeds, and one prior seed that was rejected while its job was live leave too little for the final trials. |
| FundedState.ElsewhereKeepsWithin | src/prievo_agent/infrastructure/mysql_store.py:453-1742 | Nothing that workers, other runs and operators do while a run goes on lets its jobs occupy another slot, or changes a settled job. |
| FundedState.WorkKeepsWithin | src/prievo_agent/evaluation/driver.py:77-126 | Nor does the work of the inline driver. |
| FundedState.OnlyBudgetDecides | src/prievo_agent/infrastructure/mysql_store.py:1443-1521 | For a candidate of the running run all guards of an enqueue pass except, possibly, the one on the budget; a repeated submission finds the first job. |
| FundedState.EnqueueAccepted | src/prievo_agent/infrastructure/mysql_store.py:1443-1521 | A submission that finds a slot free is accepted. |
| FundedState.EnqueueTakesSlot | src/prievo_agent/infrastructure/mysql_store.py:1502-1518 | An accepted submission occupies the slot of its own job and no other. |
| FundedRun.EvaluateNew | src/prievo_agent/runtime/persistent_runtime.py:653-788 | Evaluating candidates on the store, with dead jobs, repair chains of any length and others acting at every point, is never refused a job where there is room and leaves no slot occupied but those of the candidates it returns - and, if it gives up waiting for a candidate evaluated alone, at most one more. It never gives up with external workers or a sole inline worker. |
| FundedRun.WaitFor | src/prievo_agent/evaluation/driver.py:77-126 | A driver whose worker is the only one and whose evaluations are shorter than a lease settles every job of the batch. |
| FundedRun.Collect | src/prievo_agent/runtime/persistent_runtime.py:710-785 | Collecting results in order and repairing dead jobs one after another fits the slots that the dead jobs left. |
| FundedRun.TrySeeds | src/prievo_agent/runtime/persistent_runtime.py:222-244 | Every prior seed ends in the population or is rejected, also when the driver gave up on its live job; members and stuck seeds together occupy at most one slot each and none is refused. |
| FundedRun.Initialise | src/prievo_agent/runtime/persistent_runtime.py:217-280 | The initial population, at once or from prior seeds and i1 attempts, occupies at most one slot per member and per stuck seed, however many of them fail. |
| FundedRun.EvaluateGeneration | src/prievo_agent/runtime/persistent_runtime.py:337-368 | The four batches of a generation fit the slots of that generation, beside those of stuck seeds. |
| FundedRun.FinalTrials | src/prievo_agent/evaluation/final_optimization.py:353-392 | While the evolution slots are not overrun the budget check for the missing final trials passes and every one of them is submitted. |
| FundedRun.RunWithin | src/prievo_agent/runtime/persistent_runtime.py:217-415 | An uninterrupted run on the store submits everything, from its first candidate to its last final trial, whatever others do meanwhile, unless a prior seed was rejected with its job live. That does not happen with external workers or a sole inline worker with evaluations shorter than a lease; where it does, at most the last generation or the final trials are refused. |
| FundedRun.CreateAndRun | src/prievo_agent/application/orchestration/run_facade.py:125-160 | The same from the creation of the run with the chosen total. |
| HistoryCompaction.Compactor.ContextRecords | src/prievo_agent/application/memory/history_compactor.py:45-132 | At or below the threshold nothing is stored and the last max(2, window) records are returned, or all if there are fewer; above it the window is returned as it is; and the service with its loops does exactly what the specification says. |
| HistoryCompaction.BelowThreshold | src/prievo_agent/application/memory/history_compactor.py:57-67 | With at most `threshold` facts the memory stays and its last max(2, window) records come back in order, or all if there are fewer. |
| HistoryCompaction.LastFactsReturned | src/prievo_agent/application/memory/history_compactor.py:57-132 | Above the threshold, and below it without a summary, every one of the last max(2, window) facts is returned. |
| HistoryCompaction.RefreshIff | src/prievo_agent/application/memory/history_compactor.py:83-132 | Above the threshold a summary is stored if and only if the model answers and the uncovered facts outside the window are at least a batch, or at least one if it is the first; it covers exactly the next batch of them. |
| HistoryCompaction.Compose | src/prievo_agent/application/memory/history_compactor.py:65-132 | Window, uncovered facts, batch and summary, exactly as specified above the threshold. |
| HistoryCompaction.Compactor.LatestSummary | src/prievo_agent/application/memory/history_compactor.py:134-139 | The backward scan finds the latest summary. |
| HistoryCompaction.Uncovered | src/prievo_agent/application/memory/history_compactor.py:83-85 | The covered ids take away exactly a prefix of the eligible facts. |
| HistoryCompaction.Extend | src/prievo_agent/application/memory/history_compactor.py:157-170 | The covered ids of a new summary are the old ones and the batch, each once, in order. |
| HistoryCompaction.NothingLost | src/prievo_agent/application/memory/history_compactor.py:57-132 | Above the threshold every fact is covered by the returned summary or returned as it is, in order, also when summarising fails. |
| HistoryCompaction.CoveredTwiceIff | src/prievo_agent/application/memory/history_compactor.py:65-132 | A fact is both covered and returned if and only if it lies in the recent window and was covered before the call. |
| HistoryCompaction.WindowStaysUncovered | src/prievo_agent/application/memory/history_compactor.py:65-66 | With a window that does not widen the recent window is not covered by the next call. |
| HistoryCompaction.Session | src/prievo_agent/application/memory/history_compactor.py:45-132 | Over any sequence of facts and calls whose windows never widen no fact is ever both covered and returned, and above the threshold none is lost. |
| HistoryCompaction.WiderWindowRepeats | src/prievo_agent/application/memory/history_compactor.py:65-66 | The failing case: after five facts and a call with window 2, a call with window 3 returns a covered fact once more. |
| HistoryCompaction.ContextKeepsSound | src/prievo_agent/application/memory/history_compactor.py:157-170 | Covered ids only grow, and they stay a prefix of the facts. |
| HistoryCompaction.CoverageGrows | src/prievo_agent/application/memory/history_compactor.py:87-94 | After k summaries at least (k - 1) * batch + 1 facts are covered. |
| EvaluationTrace.Nearest | src/prievo_agent/security/heuristic_worker.py:196-217 | An exact configuration maps to itself with its last objective, any other to the first one of least distance; failure exactly for malformed or infinitely distant requests. |
| EvaluationTrace.DistanceOf | src/prievo_agent/security/heuristic_worker.py:219-239 | The loop computes the normalised distance and is infinite exactly off the numbers; what that distance measures is stated by `DistanceLaws`. |
| EvaluationTrace.PlainIff | src/prievo_agent/security/heuristic_worker.py:374-399 | A request is understood exactly if it is a sequence of the right length of plain values, and taken as it is. |
| DatasetLoading.Load | src/prievo_agent/security/heuristic_worker.py:168-194 | A data set is refused exactly if it has no row, or objectives or rows of the wrong length; a parameter is numeric exactly if all its values are numbers, and its range is their least and greatest. |
| DatasetLoading.LoadedOnce | src/prievo_agent/security/heuristic_worker.py:168-194 | The rows determine the loaded data set. |
| DatasetLoading.RowsAreWithinOne | src/prievo_agent/security/heuristic_worker.py:229-236 | Between known rows no parameter contributes more than one, and some two rows differ by exactly one in it, unless the column is constant. |
| DatasetLoading.LoadedInOtherUnits | src/prievo_agent/security/heuristic_worker.py:359-371 | Loading rows with a numeric column rescaled by any a * x + b, a not zero, gives the data set in those units. |
| DatasetLoading.ScoreIgnoresUnits | src/prievo_agent/security/heuristic_worker.py:168-239 | So whoever loads the data in other units maps a request in those units to the same row, with the same score. |
| DistanceLaws.RangeIsOne | src/prievo_agent/security/heuristic_worker.py:229-236 | The two ends of a range are exactly one apart; a constant column contributes nothing. |
| DistanceLaws.ShareOfRange | src/prievo_agent/security/heuristic_worker.py:229-236 | A difference of any share of the range contributes the square of that share. |
| DistanceLaws.GapsAdd | src/prievo_agent/security/heuristic_worker.py:219-239 | Squared gaps add up: setting one number right takes exactly its own share away. |
| DistanceLaws.MismatchesCount | src/prievo_agent/security/heuristic_worker.py:237-238 | Every categorical difference counts once. |
| DistanceLaws.FarIff | src/prievo_agent/security/heuristic_worker.py:225-231 | A request is infinitely far exactly if it has no number where one belongs. |
| DistanceLaws.OneDifference | src/prievo_agent/security/heuristic_worker.py:219-239 | The distance of two configurations that differ in one parameter only. |
| DistanceLaws.FirstClosestIgnoresUnits | src/prievo_agent/security/heuristic_worker.py:202-208 | Rescaling a numeric parameter, its range and its column by any a * x + b, a not zero, does not change which row is the first closest one. |
| DistanceLaws.NearestIgnoresUnits | src/prievo_agent/security/heuristic_worker.py:196-217 | Nor the row and score a request is mapped to, exact or not. |
| EvaluationTrace.ScoreIsFunctionIff | src/prievo_agent/security/heuristic_worker.py:180-217 | The score is a function of the mapped configuration if and only if every row that some request outside the data set is mapped to has the objective of the last row of its configuration. |
| EvaluationTrace.EndsAgreeSuffices | src/prievo_agent/security/heuristic_worker.py:180-217 | So it is for every data set in which the first and the last row of each configuration have the same objective, distinct configurations in particular. |
| EvaluationTrace.DuplicateRowsDisagree | src/prievo_agent/security/heuristic_worker.py:180-181 | The failing case: a configuration repeated with another objective has two scores. |
| EvaluationTrace.Trace.Evaluate | src/prievo_agent/security/heuristic_worker.py:254-316 | Whatever the candidate passes, used budget, history and trajectory stay equally long and within the budget, the trajectory is the running minimum, and a violation changes nothing and arises only from malformed arguments, a request that is not understood, or a new configuration without budget. |
| EvaluationTrace.Trace.CheckedResult | src/prievo_agent/security/heuristic_worker.py:318-356 | Something is reported exactly if the trace is not empty and the returned value is close to its best, and then it is the trace. |
| EvaluationTrace.TraceIsAccepted | src/prievo_agent/evaluation/executor.py:244-287 | An honestly reported running minimum passes every check of the parent. |
| EvaluationTrace.AcceptedIff | src/prievo_agent/evaluation/executor.py:244-287 | The parent accepts exactly the reports of positive use within the budget whose lists have that length and the right dimension, whose objective is close to the returned value and to the least of the trajectory, and whose trajectory does not rise. |
| EvaluationTrace.RunningFacts | src/prievo_agent/security/heuristic_worker.py:278-294 | A running minimum ends with the least score and never rises. |
| EvaluationTrace.RunCandidate | src/prievo_agent/security/heuristic_worker.py:242-356 | For every candidate, any calls and any returned value, something is reported if and only if there was an evaluation and the returned value is close to the best; it is accepted by the parent and shows between one and `budget` distinct evaluations. |
| LiteralTuning.Transformer.Transform | src/prievo_agent/infrastructure/local/fake_llm.py:328-398 | The visitor with its mutable flag is the specified depth-first traversal. |
| LiteralTuning.TunesFirst | src/prievo_agent/infrastructure/local/fake_llm.py:328-380 | A change is reported exactly if a tunable literal exists; then the first one outside protected assignments and comparisons is tuned and nothing else changes. |
| LiteralTuning.ProtectsIff | src/prievo_agent/infrastructure/local/fake_llm.py:329-361 | A branch is left alone exactly if one of its guarded children is a bookkeeping name. |
| LiteralTuning.LiteralSignature | src/prievo_agent/agents/nodes/heuristic_generation.py:567-578 | The queue walk yields the literals of the tree breadth first. |
| LiteralTuning.SignatureDetermines | src/prievo_agent/agents/nodes/heuristic_generation.py:540-578 | Normalised structure and literal signature together determine a program. |
| LiteralTuning.ReplaceKeepsStructure | src/prievo_agent/agents/nodes/heuristic_generation.py:540-564 | Replacing a literal by one of its class keeps the normalised structure, and changes the program exactly if the literal differs. |
| LiteralTuning.TuningAccepted | src/prievo_agent/agents/nodes/heuristic_generation.py:459-473 | However the printed result is read again and however sums are rounded, tuning a literal passes the structure and literal checks if and only if it is not a floating-point literal that the sum leaves unchanged or makes negative; an accepted program is a parsed one again. |
| LiteralTuning.NegativeIsRejected | src/prievo_agent/infrastructure/local/fake_llm.py:362-380 | The failing case: 0.01 tuned by -5 is printed as a negative literal and read as a minus sign and a number. |
| LiteralTuning.AbsorbedIsRejected | src/prievo_agent/infrastructure/local/fake_llm.py:362-380 | The failing case: a literal so large that adding a hundredth of the delta does not change it. |
| LiteralTuning.SomeReading | src/prievo_agent/agents/nodes/heuristic_generation.py:556-564 | Every printed tree can be read again, and what is read has no negative literal. |
| LiteralTuning.TuneFirstNumber | src/prievo_agent/infrastructure/local/fake_llm.py:400-413 | Numbers first, then infinities; there is a result exactly if something is tunable, it is judged as stated above, and with sums that do not fall it is accepted exactly if it differs from the tree, as it does for every delta of at least one without rounding. |
| MissingWork.HasCorrespondingOutput | src/prievo_agent/application/orchestration/durable_agent_coordinator.py:166-189 | The loops find an output exactly when some accepted group of kinds is complete for that input. |
| MissingWork.SatisfiedIff | src/prievo_agent/application/orchestration/durable_agent_coordinator.py:166-189 | There is an output exactly if every kind of some accepted group has an artifact of the run that answers this input. |
| MissingWork.ContainsIff | src/prievo_agent/application/orchestration/durable_agent_coordinator.py:203-208 | A value is found exactly if the structure mentions it at some depth. |
| MissingWork.Reconcile | src/prievo_agent/application/orchestration/durable_agent_coordinator.py:74-139 | Afterwards every input artifact has its task or its output, exactly the missing tasks were created, once each, and no other row changed - also with an outdated list of known keys. |
| MissingWork.ReconcileTwice | src/prievo_agent/application/orchestration/durable_agent_coordinator.py:74-139 | A second reconciliation, reading the tasks afresh with those the first one created, creates nothing, whatever others did to the store in between. |
| MissingWork.ExactlyOneTask | src/prievo_agent/infrastructure/mysql_store.py:453-484 | Among any number of concurrent coordinators, from the first answer on there is exactly one task of a run and key. |
| AgentDispatch.Dispatch | src/prievo_agent/application/orchestration/agent_dispatcher.py:63-154 | Whatever others do between its steps, a handler runs only on an attempt of its own, a finished dispatch leaves its outputs, and only an outcome at the model boundary is retryable; undisturbed, such a failure leaves the row its attempts call for. |
| AgentDispatch.Settle | src/prievo_agent/application/orchestration/agent_dispatcher.py:120-136 | After the handler the task is completed with its artifacts, or the attempt is given back; without lease nothing is written. |
| AgentDispatch.Claim | src/prievo_agent/application/orchestration/agent_dispatcher.py:63-90 | A granted claim is one more attempt of the dispatcher itself; a refused one says that the row is not PENDING any more or may be tried again; undisturbed, a registered and claimable task is always claimed. |
| AgentDispatch.DispatchWithRetries | src/prievo_agent/application/orchestration/agent_dispatcher.py:156-188 | With others acting between all steps the handler runs at most max_attempts - attempts times; undisturbed and failing at the model boundary every time it runs exactly that often and the row ends up FAILED. |
| FinalSelection.CountEffectiveLines | src/prievo_agent/agents/nodes/final_selection.py:439-444 | The count of lines with something before a comment. |
| FinalSelection.Qualify | src/prievo_agent/agents/nodes/final_selection.py:121-159 | Exactly the qualified candidates, each as often as it came, in population order in reference mode and by id otherwise. |
| FinalSelection.QualifiesIff | src/prievo_agent/agents/nodes/final_selection.py:121-159 | A candidate qualifies exactly with at least 50 effective lines, a finite objective and, by mode, a complete trajectory. |
| FinalSelection.FirstFinite | src/prievo_agent/agents/nodes/final_selection.py:178-195 | The stable fallback is the finite candidate of least objective and then least id. |
| FinalSelection.TieOf | src/prievo_agent/agents/nodes/final_selection.py:196-217 | The tie list without loss or repetition, in population order in reference mode and by id otherwise. |
| FinalSelection.Resolve | src/prievo_agent/agents/nodes/final_selection.py:161-217 | The tie holds exactly the qualified candidates of exactly the least objective; every refusal and fallback with its exact condition. |
| FinalSelection.Select | src/prievo_agent/agents/nodes/final_selection.py:288-436 | For any answer or exception of the model the chosen id lies in the bounded tied list and its objective is the exact minimum; an unacceptable answer falls back to the first. |
| FinalSelection.AskTwice | src/prievo_agent/agents/nodes/final_selection.py:378-413 | Two different answers of the model can only choose between equal, minimal objectives. |
| PaperChunks.Split | scripts/ingest_papers.py:194-215 | The loop terminates; no chunk is empty or too long, neighbours share exactly the overlap, and the chunks rebuild the units. |
| PaperChunks.PageSpan | scripts/ingest_papers.py:207-208 | The first and last page of a chunk. |
| PaperChunks.ChunkSection | scripts/ingest_papers.py:183-223 | The chunks with their numbers, page spans and mutual links. |
| PaperChunks.ChunkCount | scripts/ingest_papers.py:194-215 | The number of chunks is determined by the length, the chunk size and the overlap. |

## Left out

- SQL text, migrations, connections, HTTP, CLI, Redis, LLM transport, prompts, subprocess isolation: plumbing around the modelled behaviour.
- Candidate status and objective columns: `add_candidate` overwrites them; properties speak of jobs and results instead. `enqueue_job` and `complete_job_success` also count the changed candidate row and refuse when its columns already hold the new values; that refusal is left out with them.
- `add_result`: writes a result past the ledger and is not used by workers, so it is not a transaction of the model.
- Error codes, error messages, events other than those of the lifecycle service, `claimed_by`: they guard nothing. Of the time and reason columns of a run only their part in changed-row counts is modelled (`sameStamp`).
- RuntimeStore.Store.UpdateRuntimeCursor: does not model the form without an owner, because every caller passes one.
- RuntimeStore.Store.AddAgentTask: inserts a PENDING task without attempts, because its only caller, the coordinator, proposes exactly that.
- StoreModel.EnqueueJob takes a job as `submit` builds it (PENDING, no attempts), because no other caller exists.
- EvaluationDriver.Drive: does not model the lease renewals and pauses that a control check performs, because they touch no job row; the control check is an arbitrary sequence of answers, and an evaluation takes less than a lease. External mode, which waits for other processes, has no termination to prove.
- EvaluationDriver.WaitDelay: does not model the removal of repeated job ids before driving, because reading a row twice changes nothing.
- RunExecution.ExecuteOwned: generation and evaluation of a batch are one deterministic function of core state, base population, generation and operator, because stored drafts and results are reused; selection is one of the merged ids (SelectionDetermined). What else a step writes, such as jobs and candidates, and final optimization before the completion are among the transactions of others.
- FundedRun.RunWithin: does not model resumed runs, whose reconciliation may evaluate orphaned candidates, because the chosen total is only promised to suffice for an uninterrupted run. Job ids and keys are injective digests of what is evaluated. A batch of several candidates, or an i1 attempt, whose driver gives up ends the run, as its error does in the code.
- Selection.SelectEarly: takes operator names as the set of distinct non-blank names, because only that set enters the result; parent selection draws from a random generator and is left out.
- HistoryCompaction.NothingLost: does not model summaries of the first schema, which had no covered ids, nor the text of summaries and the bounded prompt, because no summary of today's code lacks them.
- EvaluationTrace.Nearest: does not model Python's equality of True and 1, nor floating-point rounding; the square root is an arbitrary function.
- LiteralTuning.TuneFirstNumber: works on syntax trees, which printing and parsing reproduce as long as no number is negative; the fixed draft used when nothing is tunable is left out, and integers are exact.
- MissingWork.Reconcile: `sweep` only repeats it per run; artifacts are read once at its beginning.
- AgentDispatch.DispatchWithRetries: does not model custom retry predicates, because with one that accepts routing errors the loop need not end.
- FinalSelection.Select: prompts, contexts and the prose of decisions are left out; the model's answer is arbitrary.
- PaperChunks.ChunkSection: headings, slugs and text extraction are left out.
- `_reconcile_durable_evaluations`, Blackboard, registry, metrics, planner feedback: easy members or projections of tables.
