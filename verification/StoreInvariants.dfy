/**
 * What every committed state satisfies, whatever the workers, runtimes and operators do:
 * the budget ledger balances, jobs and results pair up, and finished runs hold no work.
 * Each predicate takes just the tables it speaks about, so a transaction owes a proof only
 * for the predicates whose tables it writes.
 */
module StoreInvariants {
  import opened Common
  import opened StoreModel

  // ---------------------------------------------------------------- the invariant

  predicate JobRowOk(j: Job) {
    && 0 < j.budget && 0 < j.maxAttempts && 0 <= j.attempts <= j.maxAttempts
    && (Unclaimed(j.status) ==> j.attempts < j.maxAttempts)
    && (j.status.Running? ==> 1 <= j.attempts && j.worker.Some? && j.lease.Some?)
    && (!j.status.Running? ==> j.worker.None? && j.lease.None?)
    && (j.status.Success? <==> j.resultId.Some?)
  }

  ghost predicate RowsOk(jobs: map<Id, Job>) {
    forall id {:trigger JobRowOk(jobs[id])} :: id in jobs ==> JobRowOk(jobs[id])
  }

  predicate JobRefs(runs: map<Id, Run>, candidates: map<Id, Id>, j: Job) {
    && j.runId in runs && runs[j.runId].taskId == j.taskId
    && j.candidateId in candidates && candidates[j.candidateId] == j.runId
  }

  ghost predicate RefsOk(runs: map<Id, Run>, candidates: map<Id, Id>, jobs: map<Id, Job>) {
    forall id {:trigger JobRefs(runs, candidates, jobs[id])} ::
      id in jobs ==> JobRefs(runs, candidates, jobs[id])
  }

  predicate Clash(a: Job, b: Job) {
    a.candidateId == b.candidateId || a.key == b.key
  }

  /** One job per candidate, one job per idempotency key. */
  ghost predicate OneJobEach(jobs: map<Id, Job>) {
    forall a, b {:trigger Clash(jobs[a], jobs[b])} ::
      a in jobs && b in jobs && Clash(jobs[a], jobs[b]) ==> a == b
  }

  /** Job `id` is the one that result `rid` settled. */
  predicate Settles(jobs: map<Id, Job>, results: map<Id, Result>, rid: Id, id: Id) {
    rid in results && id in jobs && jobs[id].resultId == Some(rid) &&
    jobs[id].runId == results[rid].runId && jobs[id].candidateId == results[rid].candidateId &&
    0 <= results[rid].usedBudget <= jobs[id].budget
  }

  ghost predicate Settled(jobs: map<Id, Job>, results: map<Id, Result>, rid: Id) {
    exists id :: Settles(jobs, results, rid, id)
  }

  /** SUCCESS jobs and result rows correspond one to one. */
  ghost predicate ResultsOk(jobs: map<Id, Job>, results: map<Id, Result>) {
    && (forall id {:trigger jobs[id].resultId.value} :: id in jobs && jobs[id].resultId.Some? ==>
          Settles(jobs, results, jobs[id].resultId.value, id))
    && (forall rid {:trigger Settled(jobs, results, rid)} :: rid in results ==>
          Settled(jobs, results, rid))
  }

  function LiveWeight(r: Id, j: Job): int {
    if j.runId == r && Live(j.status) then j.budget else 0
  }

  function UsedWeight(r: Id, res: Result): int {
    if res.runId == r then res.usedBudget else 0
  }

  function LiveWeights(jobs: map<Id, Job>, r: Id): map<Id, int> {
    map id | id in jobs :: LiveWeight(r, jobs[id])
  }

  function UsedWeights(results: map<Id, Result>, r: Id): map<Id, int> {
    map id | id in results :: UsedWeight(r, results[id])
  }

  /** The budgets of the PENDING, RETRY_WAIT and RUNNING jobs of a run. */
  ghost function LiveBudget(jobs: map<Id, Job>, r: Id): int {
    Total(LiveWeights(jobs, r))
  }

  /** The budget its settled evaluations really used. */
  ghost function UsedBudget(results: map<Id, Result>, r: Id): int {
    Total(UsedWeights(results, r))
  }

  ghost predicate Balanced(
    totals: map<Id, int>, run: Run, r: Id, jobs: map<Id, Job>, results: map<Id, Result>)
  {
    && run.reserved == LiveBudget(jobs, r)
    && run.consumed == UsedBudget(results, r)
    && run.taskId in totals && run.consumed + run.reserved <= totals[run.taskId]
  }

  ghost predicate LedgerOk(
    totals: map<Id, int>, runs: map<Id, Run>, jobs: map<Id, Job>, results: map<Id, Result>)
  {
    forall r {:trigger Balanced(totals, runs[r], r, jobs, results)} :: r in runs ==>
      Balanced(totals, runs[r], r, jobs, results)
  }

  ghost predicate CancelOk(runs: map<Id, Run>) {
    forall r :: r in runs ==> (runs[r].cancelRequested <==> runs[r].status.Cancelled?)
  }

  /** A finished run has no live job; a cancelled one has at most running ones. */
  predicate MayHold(s: RunStatus, j: JobStatus) {
    && (s.Completed? || s.Failed? ==> !Live(j))
    && (s.Cancelled? ==> !Unclaimed(j))
  }

  ghost predicate DrainOk(runs: map<Id, Run>, jobs: map<Id, Job>) {
    forall id :: id in jobs && jobs[id].runId in runs ==>
      MayHold(runs[jobs[id].runId].status, jobs[id].status)
  }

  predicate TaskRowOk(t: AgentTask) {
    && 0 <= t.attempts
    && (t.status.Claimed? ==> t.token.Some? && t.lease.Some? && 1 <= t.attempts <= t.maxAttempts)
    && (!t.status.Claimed? ==> t.token.None? && t.lease.None?)
    && (t.status.Pending? ==> t.attempts < t.maxAttempts || (t.attempts == 0 && t.maxAttempts <= 0))
  }

  /** No task of a finished run is claimed. */
  ghost predicate TasksOk(runs: map<Id, Run>, tasks: map<Id, AgentTask>) {
    forall id :: id in tasks ==>
      && TaskRowOk(tasks[id]) && tasks[id].runId in runs
      && (tasks[id].status.Claimed? ==> !Terminal(runs[tasks[id].runId].status))
  }

  ghost predicate OneTaskEach(tasks: map<Id, AgentTask>) {
    forall a, b ::
      (a in tasks && b in tasks && tasks[a].runId == tasks[b].runId && tasks[a].key == tasks[b].key)
      ==> a == b
  }

  ghost predicate Inv(db: Db) {
    && RowsOk(db.jobs)
    && RefsOk(db.runs, db.candidates, db.jobs)
    && OneJobEach(db.jobs)
    && ResultsOk(db.jobs, db.results)
    && LedgerOk(db.totals, db.runs, db.jobs, db.results)
    && CancelOk(db.runs)
    && DrainOk(db.runs, db.jobs)
    && TasksOk(db.runs, db.agentTasks)
    && OneTaskEach(db.agentTasks)
  }

  // ---------------------------------------------------------------- totals

  lemma LiveBudgetUpdate(jobs: map<Id, Job>, id: Id, j: Job, r: Id)
    ensures LiveBudget(jobs[id := j], r) ==
            LiveBudget(jobs, r) - (if id in jobs then LiveWeight(r, jobs[id]) else 0) + LiveWeight(r, j)
  {
    assert LiveWeights(jobs[id := j], r) == LiveWeights(jobs, r)[id := LiveWeight(r, j)];
    TotalUpdate(LiveWeights(jobs, r), id, LiveWeight(r, j));
  }

  lemma UsedBudgetInsert(results: map<Id, Result>, id: Id, res: Result, r: Id)
    requires id !in results
    ensures UsedBudget(results[id := res], r) == UsedBudget(results, r) + UsedWeight(r, res)
  {
    assert UsedWeights(results[id := res], r) == UsedWeights(results, r)[id := UsedWeight(r, res)];
    TotalUpdate(UsedWeights(results, r), id, UsedWeight(r, res));
  }

  /** Row `k` may replace row `j` when it only takes it out of the live states. */
  predicate Retires(j: Job, k: Job) {
    && k.runId == j.runId && k.taskId == j.taskId && k.candidateId == j.candidateId
    && k.budget == j.budget && k.key == j.key
    && k.resultId == j.resultId && (Live(k.status) ==> Live(j.status))
  }

  ghost predicate AllRetire(before: map<Id, Job>, after: map<Id, Job>) {
    before.Keys == after.Keys && forall id :: id in before ==> Retires(before[id], after[id])
  }

  lemma RefundBalances(before: map<Id, Job>, after: map<Id, Job>, r: Id)
    requires AllRetire(before, after)
    ensures LiveBudget(after, r) == LiveBudget(before, r) - Refunded(r, before, after)
  {
    var b, a, d := LiveWeights(before, r), LiveWeights(after, r), RefundColumn(r, before, after);
    forall id | id in b ensures b[id] == a[id] + d[id] {
      assert Retires(before[id], after[id]);
    }
    TotalAdds(b, a, d);
  }

  lemma RefundNonNegative(before: map<Id, Job>, after: map<Id, Job>, r: Id)
    requires RowsOk(before) && before.Keys == after.Keys
    ensures 0 <= Refunded(r, before, after)
  {
    var d := RefundColumn(r, before, after);
    forall id | id in d ensures 0 <= d[id] { assert JobRowOk(before[id]); }
    TotalNonNegative(d);
  }

  lemma LiveBudgetBounds(jobs: map<Id, Job>, r: Id)
    requires RowsOk(jobs)
    ensures 0 <= LiveBudget(jobs, r)
    ensures forall id :: id in jobs && jobs[id].runId == r && Live(jobs[id].status) ==>
              jobs[id].budget <= LiveBudget(jobs, r)
  {
    var w := LiveWeights(jobs, r);
    forall id | id in w ensures 0 <= w[id] { assert JobRowOk(jobs[id]); }
    TotalNonNegative(w);
    forall id | id in jobs && jobs[id].runId == r && Live(jobs[id].status)
      ensures jobs[id].budget <= LiveBudget(jobs, r)
    {
      assert w[id] <= Total(w);
    }
  }

  // ---------------------------------------------------------------- writes to run rows

  /** A write to a run row that leaves its ledger alone and does not finish it. */
  predicate PlainRunChange(before: Run, after: Run) {
    && after.taskId == before.taskId && after.reserved == before.reserved && after.consumed == before.consumed
    && after.cancelRequested == before.cancelRequested
    && (Terminal(after.status) ==> after.status == before.status)
    && (after.cancelRequested ==> after.status == before.status)
  }

  ghost predicate PlainRunChanges(before: map<Id, Run>, after: map<Id, Run>) {
    after.Keys == before.Keys && forall r :: r in before ==> PlainRunChange(before[r], after[r])
  }

  lemma RunChangesKeepLedger(
    totals: map<Id, int>, runs: map<Id, Run>, runs': map<Id, Run>, jobs: map<Id, Job>,
    results: map<Id, Result>)
    requires LedgerOk(totals, runs, jobs, results) && PlainRunChanges(runs, runs')
    ensures LedgerOk(totals, runs', jobs, results)
  {
    forall r | r in runs' ensures Balanced(totals, runs'[r], r, jobs, results) {
      assert Balanced(totals, runs[r], r, jobs, results) && PlainRunChange(runs[r], runs'[r]);
    }
  }

  lemma RunChangesKeepRefs(
    runs: map<Id, Run>, runs': map<Id, Run>, candidates: map<Id, Id>, jobs: map<Id, Job>)
    requires RefsOk(runs, candidates, jobs) && DrainOk(runs, jobs) && PlainRunChanges(runs, runs')
    ensures RefsOk(runs', candidates, jobs) && DrainOk(runs', jobs)
  {
    forall id | id in jobs
      ensures JobRefs(runs', candidates, jobs[id])
      ensures MayHold(runs'[jobs[id].runId].status, jobs[id].status)
    {
      assert JobRefs(runs, candidates, jobs[id]);
      assert PlainRunChange(runs[jobs[id].runId], runs'[jobs[id].runId]);
    }
  }

  lemma RunChangesKeepTasks(runs: map<Id, Run>, runs': map<Id, Run>, tasks: map<Id, AgentTask>)
    requires TasksOk(runs, tasks) && PlainRunChanges(runs, runs')
    ensures TasksOk(runs', tasks)
  {
    forall id | id in tasks
      ensures TaskRowOk(tasks[id]) && tasks[id].runId in runs'
      ensures tasks[id].status.Claimed? ==> !Terminal(runs'[tasks[id].runId].status)
    {
      assert PlainRunChange(runs[tasks[id].runId], runs'[tasks[id].runId]);
    }
  }

  lemma RunRowsStep(db: Db, runs: map<Id, Run>)
    requires Inv(db) && PlainRunChanges(db.runs, runs)
    ensures Inv(db.(runs := runs))
  {
    RunChangesKeepLedger(db.totals, db.runs, runs, db.jobs, db.results);
    RunChangesKeepRefs(db.runs, runs, db.candidates, db.jobs);
    RunChangesKeepTasks(db.runs, runs, db.agentTasks);
    assert CancelOk(runs) by {
      forall r | r in runs ensures runs[r].cancelRequested <==> runs[r].status.Cancelled? {
        assert PlainRunChange(db.runs[r], runs[r]);
      }
    }
  }

  // ---------------------------------------------------------------- writes to job rows

  /** Run rows that differ only in the reservation that retired jobs gave back. */
  ghost predicate Refunds(
    runs: map<Id, Run>, runs': map<Id, Run>, jobs: map<Id, Job>, jobs': map<Id, Job>)
    requires jobs.Keys <= jobs'.Keys
  {
    runs'.Keys == runs.Keys &&
    forall r :: r in runs ==>
      && runs'[r].taskId == runs[r].taskId && runs'[r].consumed == runs[r].consumed
      && runs'[r].reserved == runs[r].reserved - Refunded(r, jobs, jobs')
  }

  lemma RetireBalances(jobs: map<Id, Job>, jobs': map<Id, Job>, r: Id)
    requires RowsOk(jobs) && AllRetire(jobs, jobs')
    ensures LiveBudget(jobs', r) == LiveBudget(jobs, r) - Refunded(r, jobs, jobs') <= LiveBudget(jobs, r)
  {
    RefundBalances(jobs, jobs', r);
    RefundNonNegative(jobs, jobs', r);
  }

  lemma RetireKeepsLedger(
    totals: map<Id, int>, runs: map<Id, Run>, runs': map<Id, Run>, jobs: map<Id, Job>,
    jobs': map<Id, Job>, results: map<Id, Result>)
    requires RowsOk(jobs) && LedgerOk(totals, runs, jobs, results)
    requires AllRetire(jobs, jobs') && Refunds(runs, runs', jobs, jobs')
    ensures LedgerOk(totals, runs', jobs', results)
  {
    forall r | r in runs' ensures Balanced(totals, runs'[r], r, jobs', results) {
      assert Balanced(totals, runs[r], r, jobs, results);
      RetireBalances(jobs, jobs', r);
    }
  }

  lemma RetireKeepsIdentity(
    runs: map<Id, Run>, runs': map<Id, Run>, candidates: map<Id, Id>, jobs: map<Id, Job>,
    jobs': map<Id, Job>)
    requires RefsOk(runs, candidates, jobs) && OneJobEach(jobs)
    requires AllRetire(jobs, jobs') && Refunds(runs, runs', jobs, jobs')
    ensures RefsOk(runs', candidates, jobs') && OneJobEach(jobs')
  {
    forall id | id in jobs' ensures JobRefs(runs', candidates, jobs'[id]) {
      assert JobRefs(runs, candidates, jobs[id]) && Retires(jobs[id], jobs'[id]);
    }
    forall a, b | a in jobs' && b in jobs' && Clash(jobs'[a], jobs'[b]) ensures a == b {
      assert Retires(jobs[a], jobs'[a]) && Retires(jobs[b], jobs'[b]);
      assert Clash(jobs[a], jobs[b]);
    }
  }

  lemma RetireKeepsResults(jobs: map<Id, Job>, jobs': map<Id, Job>, results: map<Id, Result>)
    requires ResultsOk(jobs, results) && AllRetire(jobs, jobs')
    ensures ResultsOk(jobs', results)
  {
    forall id | id in jobs' && jobs'[id].resultId.Some?
      ensures Settles(jobs', results, jobs'[id].resultId.value, id)
    {
      assert Retires(jobs[id], jobs'[id]);
      assert Settles(jobs, results, jobs[id].resultId.value, id);
    }
    forall rid | rid in results ensures Settled(jobs', results, rid) {
      assert Settled(jobs, results, rid);
      var id :| Settles(jobs, results, rid, id);
      assert Retires(jobs[id], jobs'[id]);
      assert Settles(jobs', results, rid, id);
    }
  }

  /** A write that retires jobs, refunds their runs and leaves every row in shape. */
  lemma RetireStep(db: Db, d: Db)
    requires Inv(db)
    requires d.totals == db.totals && d.candidates == db.candidates && d.results == db.results
    requires AllRetire(db.jobs, d.jobs) && Refunds(db.runs, d.runs, db.jobs, d.jobs)
    requires RowsOk(d.jobs) && CancelOk(d.runs) && DrainOk(d.runs, d.jobs)
    requires TasksOk(d.runs, d.agentTasks) && OneTaskEach(d.agentTasks)
    ensures Inv(d)
  {
    RetireKeepsLedger(db.totals, db.runs, d.runs, db.jobs, d.jobs, db.results);
    RetireKeepsIdentity(db.runs, d.runs, db.candidates, db.jobs, d.jobs);
    RetireKeepsResults(db.jobs, d.jobs, db.results);
  }

  /** Only the row `id` changes, so only its run is refunded. */
  lemma RefundOne(jobs: map<Id, Job>, id: Id, k: Job, r: Id)
    requires id in jobs
    ensures Refunded(r, jobs, jobs[id := k]) == Refund(r, jobs[id], k)
  {
    var d := RefundColumn(r, jobs, jobs[id := k]);
    TotalRemove(d, id);
    TotalZero(d - {id});
  }

  lemma RetireRow(jobs: map<Id, Job>, id: Id, k: Job)
    requires id in jobs && Retires(jobs[id], k)
    ensures AllRetire(jobs, jobs[id := k])
  {
  }

  lemma RefundRow(runs: map<Id, Run>, jobs: map<Id, Job>, id: Id, k: Job, run: Run)
    requires id in jobs && k.runId == jobs[id].runId && k.runId in runs
    requires run == runs[k.runId].(reserved := runs[k.runId].reserved - Refund(k.runId, jobs[id], k))
    ensures Refunds(runs, runs[k.runId := run], jobs, jobs[id := k])
  {
    var runs' := runs[k.runId := run];
    forall r | r in runs
      ensures runs'[r].reserved == runs[r].reserved - Refunded(r, jobs, jobs[id := k])
    {
      RefundOne(jobs, id, k, r);
    }
  }

  lemma JobRowKeepsShape(
    runs: map<Id, Run>, runs': map<Id, Run>, jobs: map<Id, Job>, id: Id, k: Job)
    requires RowsOk(jobs) && DrainOk(runs, jobs) && id in jobs && JobRowOk(k)
    requires runs'.Keys == runs.Keys && forall r :: r in runs ==> runs'[r].status == runs[r].status
    requires k.runId in runs && MayHold(runs[k.runId].status, k.status)
    ensures RowsOk(jobs[id := k]) && DrainOk(runs', jobs[id := k])
  {
    var jobs' := jobs[id := k];
    forall i | i in jobs'
      ensures JobRowOk(jobs'[i])
      ensures jobs'[i].runId in runs' ==> MayHold(runs'[jobs'[i].runId].status, jobs'[i].status)
    {
    }
  }

  /** Run rows that agree in every column but the ledger's. */
  ghost predicate SameControl(runs: map<Id, Run>, runs': map<Id, Run>) {
    runs'.Keys == runs.Keys &&
    forall r :: r in runs ==>
      runs'[r].status == runs[r].status && runs'[r].cancelRequested == runs[r].cancelRequested
  }

  lemma SameControlKeeps(runs: map<Id, Run>, runs': map<Id, Run>, tasks: map<Id, AgentTask>)
    requires CancelOk(runs) && TasksOk(runs, tasks) && SameControl(runs, runs')
    ensures CancelOk(runs') && TasksOk(runs', tasks)
  {
  }

  lemma JobRowControl(db: Db, id: Id, k: Job, runs': map<Id, Run>)
    requires Inv(db) && id in db.jobs && JobRowOk(k) && SameControl(db.runs, runs')
    requires k.runId in db.runs && MayHold(db.runs[k.runId].status, k.status)
    ensures RowsOk(db.jobs[id := k]) && DrainOk(runs', db.jobs[id := k])
    ensures CancelOk(runs') && TasksOk(runs', db.agentTasks)
  {
    JobRowKeepsShape(db.runs, runs', db.jobs, id, k);
    SameControlKeeps(db.runs, runs', db.agentTasks);
  }

  lemma JobRowStep(db: Db, id: Id, k: Job, run: Run)
    requires Inv(db) && id in db.jobs && Retires(db.jobs[id], k) && JobRowOk(k)
    requires k.runId in db.runs &&
             run == db.runs[k.runId].(reserved := db.runs[k.runId].reserved - Refund(k.runId, db.jobs[id], k))
    requires MayHold(run.status, k.status)
    ensures Inv(db.(jobs := db.jobs[id := k], runs := db.runs[k.runId := run]))
  {
    var jobs', runs' := db.jobs[id := k], db.runs[k.runId := run];
    assert SameControl(db.runs, runs');
    JobRowControl(db, id, k, runs');
    RetireRow(db.jobs, id, k);
    RefundRow(db.runs, db.jobs, id, k, run);
    RetireStep(db, db.(jobs := jobs', runs := runs'));
  }
}
