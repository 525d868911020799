/**
 * The store's transactions as they are carried out: row by row, with early refusals,
 * affected-row counts and rollbacks. Every method is proved to commit exactly what the
 * corresponding function of StoreModel says, and to keep the invariant.
 */
module RuntimeStore {
  import opened Common
  import opened StoreModel
  import opened StoreInvariants
  import opened StoreSafety
  import StoreGuarantees
  import StoreOutcomes

  // ---------------------------------------------------------------- sums over rows

  function StopWeight(j: Job, r: Id, running: bool): int {
    if Stops(j, r, running) then j.budget else 0
  }

  function StopWeights(jobs: map<Id, Job>, r: Id, running: bool): map<Id, int> {
    map id | id in jobs :: StopWeight(jobs[id], r, running)
  }

  /** The weights of the rows a summing loop has already left behind. */
  function WeightsOutside(jobs: map<Id, Job>, todo: set<Id>, r: Id, running: bool): map<Id, int> {
    map id | id in jobs && id !in todo :: StopWeight(jobs[id], r, running)
  }

  lemma NothingSummed(jobs: map<Id, Job>, r: Id, running: bool)
    ensures Total(WeightsOutside(jobs, jobs.Keys, r, running)) == 0
  {
    TotalZero(WeightsOutside(jobs, jobs.Keys, r, running));
  }

  lemma NextSummed(jobs: map<Id, Job>, todo: set<Id>, id: Id, r: Id, running: bool)
    requires id in todo && id in jobs
    ensures Total(WeightsOutside(jobs, todo - {id}, r, running)) ==
            Total(WeightsOutside(jobs, todo, r, running)) + StopWeight(jobs[id], r, running)
  {
    var w := WeightsOutside(jobs, todo, r, running);
    assert WeightsOutside(jobs, todo - {id}, r, running) == w[id := StopWeight(jobs[id], r, running)];
    TotalUpdate(w, id, StopWeight(jobs[id], r, running));
  }

  /** The budgets of the rows a statement stops are the refund of stopping them. */
  lemma StopSumIsRefund(db: Db, r: Id, running: bool)
    ensures Total(StopWeights(db.jobs, r, running)) == Refunded(r, db.jobs, StoppedJobs(db, r, running))
  {
    assert StopWeights(db.jobs, r, running) == RefundColumn(r, db.jobs, StoppedJobs(db, r, running));
  }

  /** The rows that stop are cancelled, the others untouched, and none is added or removed. */
  ghost predicate WorkStopped(before: map<Id, Job>, after: map<Id, Job>, r: Id, running: bool) {
    after.Keys == before.Keys &&
    forall id {:trigger after[id]} :: id in before ==>
      if Stops(before[id], r, running)
      then after[id].status.Cancelled? && after[id] == Released(before[id], after[id].status)
      else after[id] == before[id]
  }

  /** The open agent tasks are cancelled and lose their claim, the others are untouched. */
  ghost predicate TasksClosed(before: map<Id, AgentTask>, after: map<Id, AgentTask>, r: Id, now: int) {
    after.Keys == before.Keys &&
    forall id {:trigger after[id]} :: id in before ==>
      if Open(before[id], r) then
        && after[id].status.Cancelled? && after[id].token.None? && after[id].lease.None?
        && after[id] == before[id].(status := after[id].status, token := None, lease := None, updatedAt := now)
      else after[id] == before[id]
  }

  /** There is only one way to stop the work of a run. */
  lemma StoppedUniquely(db: Db, d: Db, r: Id, running: bool, now: int)
    requires WorkStopped(db.jobs, d.jobs, r, running) && TasksClosed(db.agentTasks, d.agentTasks, r, now)
    ensures d.jobs == StoppedJobs(db, r, running) && d.agentTasks == StoppedTasks(db, r, now)
  {
    forall id | id in db.jobs ensures d.jobs[id] == StoppedJobs(db, r, running)[id] {}
    forall id | id in db.agentTasks ensures d.agentTasks[id] == StoppedTasks(db, r, now)[id] {}
  }

  lemma StoppingReleases(before: map<Id, Job>, after: map<Id, Job>, r: Id, running: bool, o: Id)
    requires WorkStopped(before, after, r, running)
    ensures LiveBudget(after, o) == LiveBudget(before, o) - if o == r then Total(StopWeights(before, r, running)) else 0
  {
    hide Total;
    if o == r {
      forall id | id in before ensures LiveWeight(r, before[id]) == LiveWeight(r, after[id]) + StopWeight(before[id], r, running) {
        assert after[id].runId == before[id].runId;
      }
      TotalAdds(LiveWeights(before, r), LiveWeights(after, r), StopWeights(before, r, running));
    } else {
      forall id | id in before ensures LiveWeight(o, before[id]) == LiveWeight(o, after[id]) {
        assert after[id].runId == before[id].runId;
      }
      assert LiveWeights(after, o) == LiveWeights(before, o);
    }
  }

  /** What stops depends on the job and agent-task rows alone. */
  lemma StopsAlike(db: Db, d: Db, r: Id, running: bool, now: int)
    requires d.jobs == db.jobs && d.agentTasks == db.agentTasks
    ensures StoppedJobs(d, r, running) == StoppedJobs(db, r, running)
    ensures StoppedTasks(d, r, now) == StoppedTasks(db, r, now)
  {
  }

  lemma AllSummed(jobs: map<Id, Job>, r: Id, running: bool)
    ensures Total(WeightsOutside(jobs, {}, r, running)) == Total(StopWeights(jobs, r, running))
  {
    assert WeightsOutside(jobs, {}, r, running) == StopWeights(jobs, r, running);
  }

  /** Moving one more row refunds its run by that row's share. */
  lemma RefundNext(before: map<Id, Job>, jobs: map<Id, Job>, id: Id, k: Job, r: Id)
    requires before.Keys == jobs.Keys && id in jobs && jobs[id] == before[id]
    ensures Refunded(r, before, jobs[id := k]) == Refunded(r, before, jobs) + Refund(r, before[id], k)
  {
    var d := RefundColumn(r, before, jobs);
    assert RefundColumn(r, before, jobs[id := k]) == d[id := Refund(r, before[id], k)];
    TotalUpdate(d, id, Refund(r, before[id], k));
  }

  lemma NothingRefunded(jobs: map<Id, Job>, r: Id)
    ensures Refunded(r, jobs, jobs) == 0
  {
    TotalZero(RefundColumn(r, jobs, jobs));
  }

  /** The rows that stale recovery selects. */
  function StaleRows(db: Db, now: int, only: Option<Id>): set<Id> {
    set id | id in db.jobs && Stale(db.jobs[id], now, only)
  }

  function RowAfterRecovery(before: Db, id: Id, now: int): Job
    requires id in before.jobs
  {
    RecoveredRow(before.jobs[id], RunCancelled(before, before.jobs[id].runId), now)
  }

  /** Stale recovery has moved the rows of `rows` outside `todo`, and no others. */
  ghost predicate PartlyRecovered(before: Db, jobs: map<Id, Job>, rows: set<Id>, todo: set<Id>, now: int) {
    jobs.Keys == before.jobs.Keys &&
    forall id {:trigger jobs[id]} :: id in jobs ==>
      jobs[id] == if id in rows && id !in todo then RowAfterRecovery(before, id, now) else before.jobs[id]
  }

  ghost predicate PartlyRefunded(before: Db, runs: map<Id, Run>, jobs: map<Id, Job>)
    requires before.jobs.Keys == jobs.Keys
  {
    runs.Keys == before.runs.Keys &&
    forall r {:trigger runs[r]} :: r in runs ==>
      runs[r] == before.runs[r].(reserved := before.runs[r].reserved - Refunded(r, before.jobs, jobs))
  }

  lemma RefundedStep(before: Db, runs: map<Id, Run>, jobs: map<Id, Job>, id: Id, k: Job, run: Run)
    requires before.jobs.Keys == jobs.Keys && PartlyRefunded(before, runs, jobs)
    requires id in jobs && jobs[id] == before.jobs[id] && k.runId == jobs[id].runId && k.runId in runs
    requires run == runs[k.runId].(reserved := runs[k.runId].reserved - Refund(k.runId, jobs[id], k))
    ensures PartlyRefunded(before, runs[k.runId := run], jobs[id := k])
  {
    hide Refunded;
    var runs' := runs[k.runId := run];
    forall r | r in runs'
      ensures runs'[r] == before.runs[r].(reserved := before.runs[r].reserved - Refunded(r, before.jobs, jobs[id := k]))
    {
      RefundNext(before.jobs, jobs, id, k, r);
      assert runs[r] == before.runs[r].(reserved := before.runs[r].reserved - Refunded(r, before.jobs, jobs));
    }
  }

  lemma RecoveryDone(before: Db, db: Db, now: int, only: Option<Id>)
    requires Recovering(before, db, StaleRows(before, now, only), {}, now)
    ensures Inv(db) && RecoverStaleJobs(before, now, only) == Tx(db, Done)
  {
    hide Refunded;
    hide Inv;
    assert db.jobs == RecoveredJobs(before, now, only);
    AllRefunded(before, db.runs, db.jobs);
  }

  lemma AllRefunded(before: Db, runs: map<Id, Run>, jobs: map<Id, Job>)
    requires before.jobs.Keys == jobs.Keys && PartlyRefunded(before, runs, jobs)
    ensures runs == map r | r in before.runs ::
              before.runs[r].(reserved := before.runs[r].reserved - Refunded(r, before.jobs, jobs))
  {
    hide Refunded;
  }

  /** Orphan recovery has moved the rows of `rows` outside `todo`, and no others. */
  ghost predicate TasksPartlyRecovered(
    before: Db, tasks: map<Id, AgentTask>, rows: set<Id>, todo: set<Id>, now: int)
  {
    tasks.Keys == before.agentTasks.Keys &&
    forall id {:trigger tasks[id]} :: id in tasks ==>
      tasks[id] == if id in rows && id !in todo then TaskAfterRecovery(before, id, now) else before.agentTasks[id]
  }

  function TaskAfterRecovery(before: Db, id: Id, now: int): AgentTask
    requires id in before.agentTasks
  {
    var t := before.agentTasks[id];
    var over := t.runId in before.runs &&
                (before.runs[t.runId].cancelRequested || Terminal(before.runs[t.runId].status));
    RecoveredTask(t, over, now)
  }

  function OrphanRows(db: Db, now: int, orphanSeconds: int): set<Id> {
    set id | id in db.agentTasks && db.agentTasks[id].runId in db.runs && OrphanTask(db.agentTasks[id], now, orphanSeconds)
  }

  lemma TaskRecoveryStarts(before: Db, rows: set<Id>, now: int)
    ensures TasksPartlyRecovered(before, before.agentTasks, rows, rows, now)
  {
  }

  lemma TaskToRecover(before: Db, tasks: map<Id, AgentTask>, todo: set<Id>, id: Id, now: int, orphanSeconds: int)
    requires TasksPartlyRecovered(before, tasks, OrphanRows(before, now, orphanSeconds), todo, now)
    requires id in todo && todo <= OrphanRows(before, now, orphanSeconds)
    ensures id in tasks && id in before.agentTasks && tasks[id] == before.agentTasks[id] && tasks[id].runId in before.runs
  {
  }

  lemma TaskRecovered(before: Db, tasks: map<Id, AgentTask>, rows: set<Id>, todo: set<Id>, id: Id, now: int)
    requires TasksPartlyRecovered(before, tasks, rows, todo, now) && id in todo && todo <= rows && id in before.agentTasks
    ensures TasksPartlyRecovered(before, tasks[id := TaskAfterRecovery(before, id, now)], rows, todo - {id}, now)
  {
  }

  lemma TaskRecoveryDone(before: Db, tasks: map<Id, AgentTask>, now: int, orphanSeconds: int)
    requires TasksPartlyRecovered(before, tasks, OrphanRows(before, now, orphanSeconds), {}, now)
    ensures RecoverOrphanAgentTasks(before, now, orphanSeconds) == Tx(before.(agentTasks := tasks), Done)
  {
    assert tasks == RecoverOrphanAgentTasks(before, now, orphanSeconds).db.agentTasks;
  }

  /** The state of a recovery loop that still has the rows `todo` of `rows` before it. */
  ghost predicate Recovering(before: Db, db: Db, rows: set<Id>, todo: set<Id>, now: int) {
    && Inv(db) && db == before.(jobs := db.jobs, runs := db.runs)
    && PartlyRecovered(before, db.jobs, rows, todo, now)
    && PartlyRefunded(before, db.runs, db.jobs)
  }

  lemma RecoveryStarts(before: Db, now: int, only: Option<Id>)
    requires Inv(before)
    ensures Recovering(before, before, StaleRows(before, now, only), StaleRows(before, now, only), now)
  {
    forall r | r in before.runs ensures Refunded(r, before.jobs, before.jobs) == 0 {
      NothingRefunded(before.jobs, r);
    }
  }

  /** The row a recovery is about to move: still as it was, and its run as controlled as before. */
  lemma RowToRecover(before: Db, db: Db, todo: set<Id>, id: Id, now: int, only: Option<Id>)
    requires Recovering(before, db, StaleRows(before, now, only), todo, now) && id in todo && todo <= StaleRows(before, now, only)
    ensures id in db.jobs && id in before.jobs && db.jobs[id] == before.jobs[id] && db.jobs[id].status.Running?
    ensures db.jobs[id].runId in db.runs && db.jobs.Keys == before.jobs.Keys
    ensures RunCancelled(before, db.jobs[id].runId) == RunCancelled(db, db.jobs[id].runId)
  {
    hide Refunded;
    assert JobRefs(db.runs, db.candidates, db.jobs[id]);
    var r := db.jobs[id].runId;
    assert db.runs[r].status == before.runs[r].status;
  }

  lemma RecoveringParts(before: Db, db: Db, rows: set<Id>, todo: set<Id>, now: int)
    requires Recovering(before, db, rows, todo, now)
    ensures Inv(db) && db == before.(jobs := db.jobs, runs := db.runs) && before.jobs.Keys == db.jobs.Keys
    ensures PartlyRefunded(before, db.runs, db.jobs)
  {
  }

  /** The row is released, and cancelled, dead or pending again at once, as run and attempts demand. */
  predicate RowOutcome(before: Db, k: Job, id: Id, now: int)
    requires id in before.jobs
  {
    var j, over := before.jobs[id], StoreOutcomes.RunWasCancelled(before, before.jobs[id].runId);
    && k.worker.None? && k.lease.None? && k.attempts == j.attempts && k.budget == j.budget
    && (k.status == JobStatus.Cancelled <==> over)
    && (k.status == JobStatus.Dead <==> !over && j.maxAttempts <= j.attempts)
    && (k.status == JobStatus.Pending <==> !over && j.attempts < j.maxAttempts)
    && (k.status == JobStatus.Pending ==> k.availableAt == now)
  }

  lemma RowOutcomeHolds(before: Db, j: Job, k: Job, id: Id, now: int)
    requires id in before.jobs && before.jobs[id] == j && k == RecoveredRow(j, RunCancelled(before, j.runId), now)
    ensures RowOutcome(before, k, id, now)
  {
  }

  lemma RecoveredRowKeeps(j: Job, cancelled: bool, now: int)
    ensures RecoveredRow(j, cancelled, now).runId == j.runId
  {
  }

  lemma RowRecovered(before: Db, db: Db, d: Db, rows: set<Id>, todo: set<Id>, id: Id, now: int)
    requires Recovering(before, db, rows, todo, now) && id in todo && todo <= rows && id in before.jobs
    requires d.jobs == db.jobs[id := RowAfterRecovery(before, id, now)] && d == db.(jobs := d.jobs, runs := d.runs)
    requires Inv(d) && PartlyRefunded(before, d.runs, d.jobs)
    ensures Recovering(before, d, rows, todo - {id}, now)
  {
    hide Inv;
    hide PartlyRefunded;
  }

  /** Recovering one row keeps the invariant, and its reservation covers the refund. */
  lemma RecoverRowStep(db: Db, id: Id, now: int)
    requires Inv(db) && id in db.jobs && db.jobs[id].status.Running? && db.jobs[id].runId in db.runs
    ensures db.runs[db.jobs[id].runId].reserved >= db.jobs[id].budget
    ensures var j := db.jobs[id];
            var run, k := db.runs[j.runId], RecoveredRow(j, RunCancelled(db, j.runId), now);
            Inv(db.(jobs := db.jobs[id := k],
                    runs := db.runs[j.runId := run.(reserved := run.reserved - Refund(j.runId, j, k))]))
  {
    var j := db.jobs[id];
    var run := db.runs[j.runId];
    StoreGuarantees.ReservationCovers(db, id);
    assert JobRowOk(j) && MayHold(run.status, j.status);
    RecoveredRowOk(j, RunCancelled(db, j.runId), now, run.status);
    var k := RecoveredRow(j, RunCancelled(db, j.runId), now);
    JobRowStep(db, id, k, run.(reserved := run.reserved - Refund(j.runId, j, k)));
  }

  // ---------------------------------------------------------------- the store

  class Store {
    var totals: map<Id, int>
    var runs: map<Id, Run>
    var candidates: map<Id, Id>
    var jobs: map<Id, Job>
    var results: map<Id, Result>
    var agentTasks: map<Id, AgentTask>
    var checkpoints: map<Id, Checkpoint>

    function Content(): Db
      reads this
    {
      Db(totals, runs, candidates, jobs, results, agentTasks, checkpoints)
    }

    ghost predicate Valid()
      reads this
    {
      Inv(Content())
    }

    constructor ()
      ensures Valid() && Content() == EMPTY_DB
    {
      totals, runs, candidates, jobs, results, agentTasks, checkpoints :=
        map[], map[], map[], map[], map[], map[], map[];
    }

    /** ROLLBACK: the tables are again what they were at BEGIN. */
    method RollbackTo(begin: Db)
      modifies this
      ensures Content() == begin
    {
      totals, runs, candidates, jobs := begin.totals, begin.runs, begin.candidates, begin.jobs;
      results, agentTasks, checkpoints := begin.results, begin.agentTasks, begin.checkpoints;
    }

    // -------------------------------------------------------------- creation

    method CreateTaskRun(taskId: Id, total: int, runId: Id) returns (reply: Reply)
      requires Valid()
      modifies this
      ensures Valid() && Tx(Content(), reply) == StoreModel.CreateTaskRun(old(Content()), taskId, total, runId)
    {
      hide Inv;
      StepKeepsInv(Content(), DoCreateTaskRun(taskId, total, runId));
      if total <= 0 { return Rejected(BadArgument); }
      var begin := Content();
      if taskId in totals { return Rejected(DuplicateKey); }
      totals := totals[taskId := total];
      if runId in runs {
        RollbackTo(begin);
        return Rejected(DuplicateKey);
      }
      runs := runs[runId := Run(taskId, RunStatus.Pending, 0, 0, 0, None, false, false, None, None, None)];
      reply := Done;
    }

    method AddCandidate(id: Id, runId: Id) returns (reply: Reply)
      requires Valid()
      modifies this
      ensures Valid() && Tx(Content(), reply) == StoreModel.AddCandidate(old(Content()), id, runId)
    {
      hide Inv;
      StepKeepsInv(Content(), DoAddCandidate(id, runId));
      if runId !in runs { return Rejected(NotFound); }
      if id !in candidates { candidates := candidates[id := runId]; }
      reply := Done;
    }

    method AddCheckpoint(id: Id, c: Checkpoint) returns (reply: Reply)
      requires Valid()
      modifies this
      ensures Valid() && Tx(Content(), reply) == StoreModel.AddCheckpoint(old(Content()), id, c)
    {
      hide Inv;
      StepKeepsInv(Content(), DoAddCheckpoint(id, c));
      if id !in checkpoints { checkpoints := checkpoints[id := c]; }
      reply := Done;
    }

    // -------------------------------------------------------------- evaluation jobs

    method EnqueueJob(n: NewJob) returns (reply: Reply)
      requires Valid()
      modifies this
      ensures Valid() && Tx(Content(), reply) == StoreModel.EnqueueJob(old(Content()), n)
    {
      hide Inv;
      EnqueueKeepsInv(Content(), n);
      if n.runId !in runs || n.taskId !in totals || n.candidateId !in candidates {
        return Rejected(NotFound);
      }
      var run := runs[n.runId];
      if run.taskId != n.taskId { return Rejected(IdentityConflict); }
      if candidates[n.candidateId] != n.runId { return Rejected(IdentityConflict); }
      if run.cancelRequested || !run.status.Running? { return Rejected(RunNotActive); }
      var siblings := JobsOfCandidate(Content(), n.candidateId);
      if siblings != {} {
        var id :| id in siblings;
        if siblings == {id} && SameIdentity(jobs[id], n) {
          assert forall o :: siblings == {o} ==> o in siblings;
          return Duplicate(id);
        }
        NotTheOnly(siblings, id);
        return Rejected(IdentityConflict);
      }
      if KeyTaken(Content(), n.key) { return Rejected(IdentityConflict); }
      if CandidateHasResult(Content(), n.candidateId) { return Rejected(IdentityConflict); }
      if n.budget <= 0 || n.maxAttempts <= 0 { return Rejected(BadArgument); }
      var available := totals[n.taskId] - run.consumed - run.reserved;
      if n.budget > available { return Rejected(BudgetExhausted); }
      if n.id in jobs { return Rejected(DuplicateKey); }
      jobs := jobs[n.id := FreshJob(n)];
      runs := runs[n.runId := run.(reserved := run.reserved + n.budget)];
      reply := Done;
    }

    /** The first claimable row by `available_at`, then `id`, that no other transaction locks. */
    method ClaimNextJob(worker: Id, now: int, seconds: int, locked: set<Id>) returns (reply: Reply)
      requires Valid()
      modifies this
      ensures Valid() && Tx(Content(), reply) == StoreModel.ClaimNextJob(old(Content()), worker, now, seconds, locked)
      ensures StoreOutcomes.ClaimedRight(old(Content()), Content(), reply, worker, now, seconds, locked)
    {
      hide Inv;
      hide StoreOutcomes.ClaimedRight;
      StoreOutcomes.ClaimOutcome(Content(), worker, now, seconds, locked);
      ClaimKeepsInv(Content(), worker, now, seconds, locked);
      var db := Content();
      var rows := set id | id in jobs && Claimable(db, id, now) && id !in locked;
      if rows == {} {
        NoRowToClaim(db, now, locked, rows);
        return NoWork;
      }
      var first :| first in rows;
      var todo := rows - {first};
      while todo != {}
        invariant first in rows && todo <= rows
        invariant forall o :: o in rows && o !in todo ==> ComesFirst(db, first, o)
        decreases todo
      {
        var o :| o in todo;
        if !ComesFirst(db, first, o) { first := o; }
        todo := todo - {o};
      }
      FirstRowIsNext(db, first, now, locked, rows);
      var row := jobs[first];
      jobs := jobs[first := row.(status := JobStatus.Running, attempts := row.attempts + 1,
                                 lease := Some(now + seconds), worker := Some(worker))];
      reply := ClaimedJob(first);
    }

    /** An UPDATE that changes nothing reports no row, so the fence is then read back. */
    method RenewJobLease(id: Id, worker: Id, now: int, seconds: int) returns (reply: Reply)
      requires Valid()
      modifies this
      ensures Valid() && Tx(Content(), reply) == StoreModel.RenewJobLease(old(Content()), id, worker, now, seconds)
    {
      hide Inv;
      RenewKeepsInv(Content(), id, worker, now, seconds);
      if seconds <= 0 { return Rejected(BadArgument); }
      var renewed := false;
      if HoldsJob(Content(), id, worker, now) {
        var row := jobs[id];
        jobs := jobs[id := row.(lease := Some(now + seconds))];
        renewed := jobs[id] != row;
      }
      if !renewed {
        renewed := HoldsJob(Content(), id, worker, now) && now + seconds <= jobs[id].lease.value;
      }
      reply := Granted(renewed);
    }

    method CompleteJobSuccess(id: Id, worker: Id, resultId: Id, res: Result, now: int) returns (reply: Reply)
      requires Valid()
      modifies this
      ensures Valid() && Tx(Content(), reply) == StoreModel.CompleteJobSuccess(old(Content()), id, worker, resultId, res, now)
    {
      hide Inv;
      SuccessKeepsInv(Content(), id, worker, resultId, res, now);
      var begin := Content();
      if id !in jobs { return Rejected(NotFound); }
      var job := jobs[id];
      if !job.status.Running? || job.worker != Some(worker) || !Before(now, job.lease) {
        return Rejected(LeaseLost);
      }
      if job.runId !in runs || !Active(runs[job.runId]) { return Rejected(RunNotActive); }
      if res.runId != job.runId || res.candidateId != job.candidateId { return Rejected(ResultMismatch); }
      if res.usedBudget < 0 || res.usedBudget > job.budget { return Rejected(BadArgument); }
      if job.candidateId !in candidates || candidates[job.candidateId] != job.runId {
        return Rejected(IdentityConflict);
      }
      if CandidateHasResult(Content(), res.candidateId) || resultId in results {
        return Rejected(IdentityConflict);
      }
      jobs := jobs[id := job.(status := JobStatus.Success, resultId := Some(resultId), lease := None, worker := None)];
      results := results[resultId := res];
      var run := runs[job.runId];
      if run.reserved < job.budget {
        RollbackTo(begin);
        return Rejected(LedgerMismatch);
      }
      runs := runs[job.runId := run.(reserved := run.reserved - job.budget, consumed := run.consumed + res.usedBudget)];
      reply := Done;
    }

    method CompleteJobFailure(id: Id, worker: Id, retryable: bool, availableAt: int, now: int) returns (reply: Reply)
      requires Valid()
      modifies this
      ensures Valid() && Tx(Content(), reply) == StoreModel.CompleteJobFailure(old(Content()), id, worker, retryable, availableAt, now)
    {
      hide Inv;
      FailureKeepsInv(Content(), id, worker, retryable, availableAt, now);
      var begin := Content();
      if id !in jobs { return Rejected(NotFound); }
      var job := jobs[id];
      if !job.status.Running? || job.worker != Some(worker) || !Before(now, job.lease) {
        return Rejected(LeaseLost);
      }
      if job.runId !in runs || !Active(runs[job.runId]) { return Rejected(RunNotActive); }
      var retry := retryable && job.attempts < job.maxAttempts;
      var status := if retry then JobStatus.RetryWait else JobStatus.Dead;
      jobs := jobs[id := job.(status := status, availableAt := availableAt, lease := None, worker := None)];
      if status.Dead? {
        var run := runs[job.runId];
        if run.reserved < job.budget {
          RollbackTo(begin);
          return Rejected(LedgerMismatch);
        }
        runs := runs[job.runId := run.(reserved := run.reserved - job.budget)];
      }
      reply := Done;
    }

    /**
     * Row by row, in any order. The reservation of a cancelled run is reduced only where it
     * covers the job and the miss is not reported; the invariant shows it always covers it.
     */
    method RecoverStaleJobs(now: int, only: Option<Id>) returns (reply: Reply)
      requires Valid()
      modifies this
      ensures Valid() && Tx(Content(), reply) == StoreModel.RecoverStaleJobs(old(Content()), now, only)
      ensures StoreOutcomes.JobsRecovered(old(Content()), Content(), now, only)
    {
      hide Inv;
      hide StoreOutcomes.JobsRecovered;
      StoreOutcomes.RecoveryOutcome(Content(), now, only);
      RecoverKeepsInv(Content(), now, only);
      hide Recovering;
      ghost var before := Content();
      var rows := StaleRows(Content(), now, only);
      var todo := rows;
      RecoveryStarts(before, now, only);
      while todo != {}
        invariant todo <= rows && Recovering(before, Content(), rows, todo, now)
        decreases todo
      {
        var id :| id in todo;
        RowToRecover(before, Content(), todo, id, now, only);
        RecoverRow(id, now, before, rows, todo);
        todo := todo - {id};
      }
      RecoveryDone(before, Content(), now, only);
      reply := Done;
    }

    method RecoverRow(id: Id, now: int, ghost before: Db, ghost rows: set<Id>, ghost todo: set<Id>)
      requires Recovering(before, Content(), rows, todo, now) && id in todo && todo <= rows
      requires id in jobs && jobs[id].status.Running? && id in before.jobs && jobs[id] == before.jobs[id]
      requires jobs[id].runId in runs && jobs.Keys == before.jobs.Keys
      requires RunCancelled(before, jobs[id].runId) == RunCancelled(Content(), jobs[id].runId)
      modifies this`jobs, this`runs
      ensures Recovering(before, Content(), rows, todo - {id}, now)
      ensures id in jobs && RowOutcome(before, jobs[id], id, now)
    {
      hide Inv;
      hide Recovering;
      hide PartlyRefunded;
      hide Refunded;
      hide RecoveredRow;
      hide RowOutcome;
      RecoveringParts(before, Content(), rows, todo, now);
      ghost var begin := Content();
      ghost var j := jobs[id];
      ghost var k := RecoveredRow(j, RunCancelled(begin, j.runId), now);
      ghost var run := runs[j.runId].(reserved := runs[j.runId].reserved - Refund(j.runId, j, k));
      RecoverRowStep(begin, id, now);
      RecoveredRowKeeps(j, RunCancelled(begin, j.runId), now);
      RefundedStep(before, runs, jobs, id, k, run);
      MoveStaleRow(id, now);
      RowRecovered(before, begin, Content(), rows, todo, id, now);
      RowOutcomeHolds(before, j, k, id, now);
    }

    /** One stale row, and the refund of its run, which its reservation covers. */
    method MoveStaleRow(id: Id, now: int)
      requires id in jobs && jobs[id].status.Running? && jobs[id].runId in runs
      requires jobs[id].budget <= runs[jobs[id].runId].reserved
      modifies this`jobs, this`runs
      ensures var j, run := old(jobs)[id], old(runs)[old(jobs)[id].runId];
              var k := RecoveredRow(j, RunCancelled(old(Content()), j.runId), now);
              && jobs == old(jobs)[id := k]
              && runs == old(runs)[j.runId := run.(reserved := run.reserved - Refund(j.runId, j, k))]
    {
      var job := jobs[id];
      var run := runs[job.runId];
      assert runs[job.runId := run] == runs;
      if run.cancelRequested || run.status.Cancelled? {
        jobs := jobs[id := job.(status := JobStatus.Cancelled, worker := None, lease := None)];
        if run.reserved >= job.budget {
          runs := runs[job.runId := run.(reserved := run.reserved - job.budget)];
        }
      } else if job.attempts >= job.maxAttempts {
        jobs := jobs[id := job.(status := JobStatus.Dead, worker := None, lease := None)];
        runs := runs[job.runId := run.(reserved := run.reserved - job.budget)];
      } else {
        jobs := jobs[id := job.(status := JobStatus.Pending, availableAt := now, worker := None, lease := None)];
      }
    }

    // -------------------------------------------------------------- finishing a run

    /** SELECT SUM(budget) over the rows that will stop. */
    method SumToRelease(r: Id, running: bool) returns (released: int)
      ensures released == Total(StopWeights(jobs, r, running))
    {
      hide Total;
      hide WeightsOutside;
      hide StopWeights;
      released := 0;
      var todo := jobs.Keys;
      NothingSummed(jobs, r, running);
      while todo != {}
        invariant todo <= jobs.Keys && released == Total(WeightsOutside(jobs, todo, r, running))
        decreases todo
      {
        var id :| id in todo;
        NextSummed(jobs, todo, id, r, running);
        todo := todo - {id};
        if Stops(jobs[id], r, running) { released := released + jobs[id].budget; }
      }
      AllSummed(jobs, r, running);
    }

    /**
     * Within a transaction: no job or agent task of the run stays open, every other row stays
     * as it was, and the live budget of the run falls by exactly the sum of the stopped rows.
     */
    method CancelWork(r: Id, running: bool, now: int)
      modifies this`jobs, this`agentTasks
      ensures WorkStopped(old(jobs), jobs, r, running) && TasksClosed(old(agentTasks), agentTasks, r, now)
      ensures forall id :: id in jobs ==> !Stops(jobs[id], r, running)
      ensures forall id :: id in agentTasks ==> !Open(agentTasks[id], r)
      ensures forall o :: LiveBudget(jobs, o) ==
                LiveBudget(old(jobs), o) - if o == r then Total(StopWeights(old(jobs), r, running)) else 0
    {
      hide LiveBudget;
      hide Total;
      jobs := map id | id in jobs ::
        if Stops(jobs[id], r, running)
        then jobs[id].(status := JobStatus.Cancelled, worker := None, lease := None) else jobs[id];
      agentTasks := map id | id in agentTasks ::
        if Open(agentTasks[id], r)
        then agentTasks[id].(status := TaskStatus.Cancelled, token := None, lease := None, updatedAt := now)
        else agentTasks[id];
      forall o ensures LiveBudget(jobs, o) ==
        LiveBudget(old(jobs), o) - if o == r then Total(StopWeights(old(jobs), r, running)) else 0
      {
        StoppingReleases(old(jobs), jobs, r, running, o);
      }
    }

    method CompleteRun(r: Id, owner: Id, now: int, generation: nat, best: Id) returns (reply: Reply)
      requires Valid()
      modifies this
      ensures Valid() && Tx(Content(), reply) == StoreModel.CompleteRun(old(Content()), r, owner, now, generation, best)
    {
      hide Inv;
      hide Refunded;
      hide StoppedJobs;
      hide StoppedTasks;
      hide StopWeights;
      hide WorkStopped;
      hide TasksClosed;
      hide LiveBudget;
      ghost var begin := Content();
      CompleteKeepsInv(Content(), r, owner, now, generation, best);
      var released := SumToRelease(r, true);
      StopSumIsRefund(Content(), r, true);
      if !(OwnsRun(Content(), r, owner, now) && Active(runs[r]) && !runs[r].pauseRequested && runs[r].reserved == released) {
        return Rejected(CasFailed);
      }
      runs := runs[r := runs[r].(status := RunStatus.Completed, generation := generation, best := Some(best),
                                 reserved := 0, owner := None, lease := None)];
      StopsAlike(begin, Content(), r, true, now);
      ghost var open := Content();
      CancelWork(r, true, now);
      StoppedUniquely(open, Content(), r, true, now);
      reply := Done;
    }

    method FailRun(r: Id, now: int, owner: Option<Id>) returns (reply: Reply)
      requires Valid()
      modifies this
      ensures Valid() && Tx(Content(), reply) == StoreModel.FailRun(old(Content()), r, now, owner)
    {
      hide Inv;
      hide Refunded;
      hide StoppedJobs;
      hide StoppedTasks;
      hide StopWeights;
      hide WorkStopped;
      hide TasksClosed;
      hide LiveBudget;
      ghost var begin := Content();
      FailRunKeepsInv(Content(), r, now, owner);
      var released := SumToRelease(r, true);
      StopSumIsRefund(Content(), r, true);
      if !(FencedBy(Content(), r, owner, now) && !runs[r].cancelRequested &&
           (runs[r].status.Pending? || runs[r].status.Running?) && runs[r].reserved == released)
      {
        return Rejected(CasFailed);
      }
      runs := runs[r := runs[r].(status := RunStatus.Failed, reserved := 0, owner := None, lease := None)];
      StopsAlike(begin, Content(), r, true, now);
      ghost var open := Content();
      CancelWork(r, true, now);
      StoppedUniquely(open, Content(), r, true, now);
      reply := Done;
    }

    /** The work is stopped first; the run row comes last and can still undo everything. */
    method RequestRunCancel(r: Id, now: int) returns (reply: Reply)
      requires Valid()
      modifies this
      ensures Valid() && Tx(Content(), reply) == StoreModel.RequestRunCancel(old(Content()), r, now)
    {
      hide Inv;
      hide Refunded;
      hide StoppedJobs;
      hide StoppedTasks;
      hide StopWeights;
      hide WorkStopped;
      hide TasksClosed;
      hide LiveBudget;
      CancelKeepsInv(Content(), r, now);
      var begin := Content();
      if r !in runs { return Rejected(NotFound); }
      if Terminal(runs[r].status) { return Rejected(RunNotActive); }
      var released := SumToRelease(r, false);
      StopSumIsRefund(Content(), r, false);
      CancelWork(r, false, now);
      StoppedUniquely(begin, Content(), r, false, now);
      if runs[r].reserved < released {
        RollbackTo(begin);
        return Rejected(LedgerMismatch);
      }
      runs := runs[r := runs[r].(status := RunStatus.Cancelled, cancelRequested := true, pauseRequested := false,
                                 reserved := runs[r].reserved - released, owner := None, lease := None)];
      reply := Done;
    }

    // -------------------------------------------------------------- run control

    /** Writes a run row and counts it, if any column changes. */
    method UpdateRun(r: Id, run: Run, sameStamp: bool) returns (affected: nat)
      requires r in runs
      modifies this`runs
      ensures runs == old(runs)[r := run]
      ensures affected == if run == old(runs)[r] && sameStamp then 0 else 1
      ensures affected == 0 ==> runs == old(runs)
    {
      affected := if runs[r] == run && sameStamp then 0 else 1;
      assert runs[r] == run ==> runs[r := run] == runs;
      runs := runs[r := run];
    }

    method StartRun(r: Id, expected: RunStatus, now: int, owner: Option<Id>, sameStamp: bool) returns (reply: Reply)
      requires Valid()
      modifies this
      ensures Valid() && Tx(Content(), reply) == StoreModel.StartRun(old(Content()), r, expected, now, owner, sameStamp)
    {
      hide Inv;
      StepKeepsInv(Content(), DoStart(r, expected, now, owner, sameStamp));
      var affected := 0;
      if FencedBy(Content(), r, owner, now) && runs[r].status == expected && !runs[r].cancelRequested {
        affected := UpdateRun(r, runs[r].(status := RunStatus.Running, pauseRequested := false), sameStamp);
      }
      if affected != 1 { return Rejected(CasFailed); }
      reply := Done;
    }

    method PauseRun(r: Id, owner: Id, now: int) returns (reply: Reply)
      requires Valid()
      modifies this
      ensures Valid() && Tx(Content(), reply) == StoreModel.PauseRun(old(Content()), r, owner, now)
    {
      hide Inv;
      StepKeepsInv(Content(), DoPause(r, owner, now));
      var affected := 0;
      if OwnsRun(Content(), r, owner, now) && Active(runs[r]) {
        runs := runs[r := runs[r].(status := RunStatus.Paused, pauseRequested := false, owner := None, lease := None)];
        affected := 1;
      }
      if affected != 1 { return Rejected(CasFailed); }
      reply := Done;
    }

    method RequestRunPause(r: Id, sameStamp: bool) returns (reply: Reply)
      requires Valid()
      modifies this
      ensures Valid() && Tx(Content(), reply) == StoreModel.RequestRunPause(old(Content()), r, sameStamp)
    {
      hide Inv;
      StepKeepsInv(Content(), DoRequestPause(r, sameStamp));
      if r !in runs || !Active(runs[r]) { return Rejected(CasFailed); }
      var affected := UpdateRun(r, runs[r].(pauseRequested := true), sameStamp);
      if affected != 1 { return Rejected(CasFailed); }
      reply := Done;
    }

    method UpdateRunProgress(r: Id, owner: Id, now: int, generation: nat, sameStamp: bool) returns (reply: Reply)
      requires Valid()
      modifies this
      ensures Valid() &&
              Tx(Content(), reply) == StoreModel.UpdateRunProgress(old(Content()), r, owner, now, generation, sameStamp)
    {
      hide Inv;
      StepKeepsInv(Content(), DoProgress(r, owner, now, generation, sameStamp));
      if !(OwnsRun(Content(), r, owner, now) && Active(runs[r])) { return Rejected(CasFailed); }
      var affected := UpdateRun(r, runs[r].(generation := generation), sameStamp);
      if affected != 1 { return Rejected(CasFailed); }
      reply := Done;
    }

    // -------------------------------------------------------------- the runtime lease

    method ClaimRunLease(r: Id, owner: Id, now: int, seconds: int) returns (reply: Reply)
      requires Valid()
      modifies this
      ensures Valid() && Tx(Content(), reply) == StoreModel.ClaimRunLease(old(Content()), r, owner, now, seconds)
    {
      hide Inv;
      StepKeepsInv(Content(), DoClaimRun(r, owner, now, seconds));
      if seconds <= 0 { return Rejected(BadArgument); }
      var affected := 0;
      if r in runs && (runs[r].status.Pending? || runs[r].status.Running?) && !runs[r].cancelRequested &&
         (runs[r].owner.None? || runs[r].owner == Some(owner) || runs[r].lease.None? || runs[r].lease.value <= now)
      {
        var row := runs[r];
        runs := runs[r := row.(owner := Some(owner), lease := Some(now + seconds))];
        if runs[r] != row { affected := 1; }
      }
      reply := Granted(affected == 1);
    }

    method RenewRunLease(r: Id, owner: Id, now: int, seconds: int) returns (reply: Reply)
      requires Valid()
      modifies this
      ensures Valid() && Tx(Content(), reply) == StoreModel.RenewRunLease(old(Content()), r, owner, now, seconds)
    {
      hide Inv;
      StepKeepsInv(Content(), DoRenewRun(r, owner, now, seconds));
      var renewed := false;
      var fenced := OwnsRun(Content(), r, owner, now) && Active(runs[r]);
      if fenced {
        var row := runs[r];
        runs := runs[r := row.(lease := Some(now + seconds))];
        renewed := runs[r] != row;
      }
      if !renewed {
        renewed := fenced && now + seconds <= runs[r].lease.value;
      }
      reply := Granted(renewed);
    }

    method ReleaseRunLease(r: Id, owner: Id) returns (reply: Reply)
      requires Valid()
      modifies this
      ensures Valid() && Tx(Content(), reply) == StoreModel.ReleaseRunLease(old(Content()), r, owner)
    {
      hide Inv;
      StepKeepsInv(Content(), DoReleaseRun(r, owner));
      if r !in runs || runs[r].owner != Some(owner) { return Granted(false); }
      runs := runs[r := runs[r].(owner := None, lease := None)];
      reply := Granted(true);
    }

    method RecoverOrphanRuns(now: int) returns (reply: Reply)
      requires Valid()
      modifies this
      ensures Valid() && Tx(Content(), reply) == StoreModel.RecoverOrphanRuns(old(Content()), now)
    {
      hide Inv;
      StepKeepsInv(Content(), DoRecoverRuns(now));
      runs := map r | r in runs ::
        if Orphaned(runs[r], now) then runs[r].(owner := None, lease := None) else runs[r];
      reply := Done;
    }

    method UpdateRuntimeCursor(r: Id, artifact: Id, owner: Id, now: int) returns (reply: Reply)
      requires Valid()
      modifies this
      ensures Valid() && Tx(Content(), reply) == StoreModel.UpdateRuntimeCursor(old(Content()), r, artifact, owner, now)
    {
      hide Inv;
      StepKeepsInv(Content(), DoCursor(r, artifact, owner, now));
      var affected := 0;
      if OwnsRun(Content(), r, owner, now) && Active(runs[r]) {
        var row := runs[r];
        runs := runs[r := row.(cursor := Some(artifact))];
        if runs[r] != row { affected := 1; }
      }
      reply := Granted(affected == 1);
    }

    // -------------------------------------------------------------- agent tasks

    /** The unique key over run and idempotency key decides; a second insert finds the first row. */
    method AddAgentTask(id: Id, runId: Id, key: Id, max: int, now: int) returns (reply: Reply)
      requires Valid()
      modifies this
      ensures Valid() && Tx(Content(), reply) == StoreModel.AddAgentTask(old(Content()), id, runId, key, max, now)
    {
      AddTaskKeepsInv(Content(), id, runId, key, max, now);
      if runId !in runs { return Rejected(NotFound); }
      if exists o :: o in agentTasks && agentTasks[o].runId == runId && agentTasks[o].key == key {
        var o :| o in agentTasks && agentTasks[o].runId == runId && agentTasks[o].key == key;
        return Duplicate(o);
      }
      if id in agentTasks { return Rejected(DuplicateKey); }
      agentTasks := agentTasks[id := AgentTask(runId, key, TaskStatus.Pending, 0, max, None, None, now, [])];
      reply := Done;
    }

    method RenewAgentTask(id: Id, token: Id, now: int, seconds: int) returns (reply: Reply)
      requires Valid()
      modifies this
      ensures Valid() && Tx(Content(), reply) == StoreModel.RenewAgentTask(old(Content()), id, token, now, seconds)
    {
      hide Inv;
      StepKeepsInv(Content(), DoRenewTask(id, token, now, seconds));
      if seconds <= 0 { return Rejected(BadArgument); }
      var fenced := HoldsTask(Content(), id, token, now);
      var renewed := false;
      if fenced {
        var row := agentTasks[id];
        agentTasks := agentTasks[id := row.(lease := Some(now + seconds), updatedAt := now)];
        renewed := agentTasks[id] != row;
      }
      if !renewed {
        renewed := fenced && now + seconds <= agentTasks[id].lease.value;
      }
      reply := Granted(renewed);
    }

    method CompleteAgentTask(id: Id, token: Id, outputs: seq<Id>, now: int) returns (reply: Reply)
      requires Valid()
      modifies this
      ensures Valid() && Tx(Content(), reply) == StoreModel.CompleteAgentTask(old(Content()), id, token, outputs, now)
    {
      hide Inv;
      StepKeepsInv(Content(), DoCompleteTask(id, token, outputs, now));
      var affected := 0;
      if HoldsTask(Content(), id, token, now) {
        agentTasks := agentTasks[id := agentTasks[id].(status := TaskStatus.Completed, token := None, lease := None,
                                                       updatedAt := now, outputs := outputs)];
        affected := 1;
      }
      if affected != 1 { return Rejected(CasFailed); }
      reply := Done;
    }

    method ClaimAgentTask(id: Id, now: int, seconds: int, token: Id) returns (reply: Reply)
      requires Valid()
      modifies this
      ensures Valid() && Tx(Content(), reply) == StoreModel.ClaimAgentTask(old(Content()), id, now, seconds, token)
    {
      hide Inv;
      StepKeepsInv(Content(), DoClaimTask(id, now, seconds, token));
      if seconds <= 0 { return Rejected(BadArgument); }
      var affected := 0;
      if id in agentTasks && agentTasks[id].status.Pending? &&
         agentTasks[id].attempts < agentTasks[id].maxAttempts && AgentRunActive(Content(), agentTasks[id].runId)
      {
        var row := agentTasks[id];
        agentTasks := agentTasks[id := row.(status := TaskStatus.Claimed, token := Some(token),
                                            lease := Some(now + seconds), attempts := row.attempts + 1,
                                            updatedAt := now)];
        affected := 1;
      }
      if affected != 1 { return Rejected(CasFailed); }
      reply := Done;
    }

    method FailAgentTask(id: Id, token: Id, now: int) returns (reply: Reply)
      requires Valid()
      modifies this
      ensures Valid() && Tx(Content(), reply) == StoreModel.FailAgentTask(old(Content()), id, token, now)
    {
      hide Inv;
      StepKeepsInv(Content(), DoFailTask(id, token, now));
      if id !in agentTasks { return Rejected(NotFound); }
      var row := agentTasks[id];
      var status := if row.attempts < row.maxAttempts then TaskStatus.Pending else TaskStatus.Failed;
      var affected := 0;
      if HoldsTask(Content(), id, token, now) {
        agentTasks := agentTasks[id := row.(status := status, token := None, lease := None, updatedAt := now)];
        affected := 1;
      }
      if affected != 1 { return Rejected(CasFailed); }
      reply := Done;
    }

    method RecoverOrphanAgentTasks(now: int, orphanSeconds: int) returns (reply: Reply)
      requires Valid()
      modifies this
      ensures Valid() && Tx(Content(), reply) == StoreModel.RecoverOrphanAgentTasks(old(Content()), now, orphanSeconds)
      ensures StoreOutcomes.TasksRecovered(old(Content()), Content(), now, orphanSeconds)
    {
      hide Inv;
      hide StoreOutcomes.TasksRecovered;
      hide StoreModel.RecoverOrphanAgentTasks;
      hide OrphanRows;
      StoreOutcomes.TaskRecoveryOutcome(Content(), now, orphanSeconds);
      hide TasksPartlyRecovered;
      StepKeepsInv(Content(), DoRecoverTasks(now, orphanSeconds));
      ghost var before := Content();
      var rows := OrphanRows(Content(), now, orphanSeconds);
      var todo := rows;
      TaskRecoveryStarts(before, rows, now);
      while todo != {}
        invariant todo <= rows && Content() == before.(agentTasks := agentTasks)
        invariant TasksPartlyRecovered(before, agentTasks, rows, todo, now)
        decreases todo
      {
        var id :| id in todo;
        TaskToRecover(before, agentTasks, todo, id, now, orphanSeconds);
        var row := agentTasks[id];
        var target := TaskStatus.Pending;
        if runs[row.runId].cancelRequested || Terminal(runs[row.runId].status) {
          target := TaskStatus.Cancelled;
        } else if row.attempts >= row.maxAttempts {
          target := TaskStatus.Failed;
        }
        TaskRecovered(before, agentTasks, rows, todo, id, now);
        agentTasks := agentTasks[id := row.(status := target, token := None, lease := None, updatedAt := now)];
        todo := todo - {id};
      }
      TaskRecoveryDone(before, agentTasks, now, orphanSeconds);
      reply := Done;
    }

    // -------------------------------------------------------------- any transaction

    method PerformOnJobs(a: Action) returns (reply: Reply)
      requires Valid() && JobAction(a)
      modifies this
      ensures Valid() && Tx(Content(), reply) == Apply(old(Content()), a)
    {
      hide Inv;
      hide StoreModel.EnqueueJob;
      hide StoreModel.ClaimNextJob;
      hide StoreModel.RenewJobLease;
      hide StoreModel.CompleteJobSuccess;
      hide StoreModel.CompleteJobFailure;
      hide StoreModel.RecoverStaleJobs;
      match a {
        case DoEnqueue(n) => reply := EnqueueJob(n);
        case DoClaim(w, now, s, locked) => reply := ClaimNextJob(w, now, s, locked);
        case DoRenew(id, w, now, s) => reply := RenewJobLease(id, w, now, s);
        case DoSucceed(id, w, rid, res, now) => reply := CompleteJobSuccess(id, w, rid, res, now);
        case DoFail(id, w, retryable, at, now) => reply := CompleteJobFailure(id, w, retryable, at, now);
        case DoRecover(now, only) => reply := RecoverStaleJobs(now, only);
      }
    }

    method PerformOnStatus(a: Action) returns (reply: Reply)
      requires Valid() && (StoreGuarantees.StatusChanging(a) || a.DoProgress? || a.DoRequestPause?)
      modifies this
      ensures Valid() && Tx(Content(), reply) == Apply(old(Content()), a)
    {
      hide Inv;
      hide StoreModel.StartRun;
      hide StoreModel.PauseRun;
      hide StoreModel.CompleteRun;
      hide StoreModel.FailRun;
      hide StoreModel.UpdateRunProgress;
      hide StoreModel.RequestRunPause;
      hide StoreModel.RequestRunCancel;
      match a {
        case DoStart(r, expected, now, o, same) => reply := StartRun(r, expected, now, o, same);
        case DoPause(r, o, now) => reply := PauseRun(r, o, now);
        case DoComplete(r, o, now, g, b) => reply := CompleteRun(r, o, now, g, b);
        case DoFailRun(r, now, o) => reply := FailRun(r, now, o);
        case DoProgress(r, o, now, g, same) => reply := UpdateRunProgress(r, o, now, g, same);
        case DoRequestPause(r, same) => reply := RequestRunPause(r, same);
        case DoRequestCancel(r, now) => reply := RequestRunCancel(r, now);
      }
    }

    method PerformOnTasks(a: Action) returns (reply: Reply)
      requires Valid() && (OneTask(a) || a.DoAddTask? || a.DoRecoverTasks?)
      modifies this
      ensures Valid() && Tx(Content(), reply) == Apply(old(Content()), a)
    {
      hide Inv;
      hide StoreModel.AddAgentTask;
      hide StoreModel.ClaimAgentTask;
      hide StoreModel.RenewAgentTask;
      hide StoreModel.CompleteAgentTask;
      hide StoreModel.FailAgentTask;
      hide StoreModel.RecoverOrphanAgentTasks;
      match a {
        case DoAddTask(id, r, key, max, now) => reply := AddAgentTask(id, r, key, max, now);
        case DoClaimTask(id, now, s, token) => reply := ClaimAgentTask(id, now, s, token);
        case DoRenewTask(id, token, now, s) => reply := RenewAgentTask(id, token, now, s);
        case DoCompleteTask(id, token, outs, now) => reply := CompleteAgentTask(id, token, outs, now);
        case DoFailTask(id, token, now) => reply := FailAgentTask(id, token, now);
        case DoRecoverTasks(now, s) => reply := RecoverOrphanAgentTasks(now, s);
      }
    }

    method PerformOnRuns(a: Action) returns (reply: Reply)
      requires Valid() && RowAction(a)
      modifies this
      ensures Valid() && Tx(Content(), reply) == Apply(old(Content()), a)
    {
      hide Inv;
      hide StoreModel.CreateTaskRun;
      hide StoreModel.AddCandidate;
      hide StoreModel.ClaimRunLease;
      hide StoreModel.RenewRunLease;
      hide StoreModel.ReleaseRunLease;
      hide StoreModel.RecoverOrphanRuns;
      hide StoreModel.UpdateRuntimeCursor;
      hide StoreModel.AddCheckpoint;
      match a {
        case DoCreateTaskRun(t, total, r) => reply := CreateTaskRun(t, total, r);
        case DoAddCandidate(c, r) => reply := AddCandidate(c, r);
        case DoClaimRun(r, o, now, s) => reply := ClaimRunLease(r, o, now, s);
        case DoRenewRun(r, o, now, s) => reply := RenewRunLease(r, o, now, s);
        case DoReleaseRun(r, o) => reply := ReleaseRunLease(r, o);
        case DoRecoverRuns(now) => reply := RecoverOrphanRuns(now);
        case DoCursor(r, artifact, o, now) => reply := UpdateRuntimeCursor(r, artifact, o, now);
        case DoAddCheckpoint(id, c) => reply := AddCheckpoint(id, c);
      }
    }

    /** Whatever anyone asks of the store: the methods together are the transition system. */
    method Perform(a: Action) returns (reply: Reply)
      requires Valid()
      modifies this
      ensures Valid() && Tx(Content(), reply) == Apply(old(Content()), a)
    {
      hide Inv;
      hide Apply;
      if JobAction(a) {
        reply := PerformOnJobs(a);
      } else if StoreGuarantees.StatusChanging(a) || a.DoProgress? || a.DoRequestPause? {
        reply := PerformOnStatus(a);
      } else if RowAction(a) {
        reply := PerformOnRuns(a);
      } else {
        reply := PerformOnTasks(a);
      }
    }
  }

  /** Creation, leases, cursors and checkpoints. */
  predicate RowAction(a: Action) {
    a.DoCreateTaskRun? || a.DoAddCandidate? || a.DoClaimRun? || a.DoRenewRun? || a.DoReleaseRun? ||
    a.DoRecoverRuns? || a.DoCursor? || a.DoAddCheckpoint?
  }

  lemma NotTheOnly(siblings: set<Id>, id: Id)
    requires id in siblings
    ensures forall o :: siblings == {o} ==> o == id
  {
    forall o | siblings == {o} ensures o == id { assert id in {o}; }
  }

  lemma NoRowToClaim(db: Db, now: int, locked: set<Id>, rows: set<Id>)
    requires rows == (set id | id in db.jobs && Claimable(db, id, now) && id !in locked) && rows == {}
    ensures !exists id :: IsNext(db, id, now, locked)
  {
    forall id ensures !IsNext(db, id, now, locked) {
      assert id !in rows;
    }
  }

  lemma FirstRowIsNext(db: Db, first: Id, now: int, locked: set<Id>, rows: set<Id>)
    requires rows == set id | id in db.jobs && Claimable(db, id, now) && id !in locked
    requires first in rows && forall o :: o in rows ==> ComesFirst(db, first, o)
    ensures IsNext(db, first, now, locked)
    ensures forall id :: IsNext(db, id, now, locked) ==> id == first
  {
    forall o | Claimable(db, o, now) && o !in locked ensures ComesFirst(db, first, o) { assert o in rows; }
    forall id | IsNext(db, id, now, locked) ensures id == first {
      assert ComesFirst(db, id, first) && ComesFirst(db, first, id);
    }
  }
}
