/**
 * Every transaction keeps the invariant, so every history of any number of workers,
 * runtimes and operators does; and what follows for refusals, finished and cancelled runs.
 */
module StoreSafety {
  import opened Common
  import opened StoreModel
  import opened StoreInvariants

  // ---------------------------------------------------------------- creation

  lemma NewRunHasNoHistory(db: Db, r: Id)
    requires Inv(db) && r !in db.runs
    ensures LiveBudget(db.jobs, r) == 0 && UsedBudget(db.results, r) == 0
  {
    forall id | id in db.jobs ensures db.jobs[id].runId != r {
      assert JobRefs(db.runs, db.candidates, db.jobs[id]);
    }
    TotalZero(LiveWeights(db.jobs, r));
    forall rid | rid in db.results ensures db.results[rid].runId != r {
      assert Settled(db.jobs, db.results, rid);
      var id :| Settles(db.jobs, db.results, rid, id);
    }
    TotalZero(UsedWeights(db.results, r));
  }

  lemma CreationKeepsLedger(db: Db, t: Id, total: int, r: Id)
    requires Inv(db)
    ensures var d := CreateTaskRun(db, t, total, r).db; LedgerOk(d.totals, d.runs, d.jobs, d.results)
  {
    var d := CreateTaskRun(db, t, total, r).db;
    if d != db {
      NewRunHasNoHistory(db, r);
      forall o | o in d.runs ensures Balanced(d.totals, d.runs[o], o, d.jobs, d.results) {
        if o != r { assert Balanced(db.totals, db.runs[o], o, db.jobs, db.results); }
      }
    }
  }

  lemma NewRowsKeepRefs(db: Db, runs: map<Id, Run>, candidates: map<Id, Id>)
    requires Inv(db)
    requires forall r :: r in db.runs ==> r in runs && runs[r] == db.runs[r]
    requires forall c :: c in db.candidates ==> c in candidates && candidates[c] == db.candidates[c]
    ensures RefsOk(runs, candidates, db.jobs) && DrainOk(runs, db.jobs) && TasksOk(runs, db.agentTasks)
  {
    forall id | id in db.jobs
      ensures JobRefs(runs, candidates, db.jobs[id])
      ensures MayHold(runs[db.jobs[id].runId].status, db.jobs[id].status)
    {
      assert JobRefs(db.runs, db.candidates, db.jobs[id]);
    }
  }

  lemma CreationKeepsInv(db: Db, t: Id, total: int, r: Id)
    requires Inv(db)
    ensures Inv(CreateTaskRun(db, t, total, r).db)
  {
    var d := CreateTaskRun(db, t, total, r).db;
    if d != db {
      CreationKeepsLedger(db, t, total, r);
      NewRowsKeepRefs(db, d.runs, d.candidates);
      NewRunKeepsCancel(db.runs, r, d.runs[r]);
    }
  }

  lemma NewRunKeepsCancel(runs: map<Id, Run>, r: Id, run: Run)
    requires CancelOk(runs) && (run.cancelRequested <==> run.status.Cancelled?)
    ensures CancelOk(runs[r := run])
  {
  }

  lemma CandidateKeepsInv(db: Db, c: Id, r: Id)
    requires Inv(db)
    ensures Inv(AddCandidate(db, c, r).db)
  {
    var d := AddCandidate(db, c, r).db;
    NewRowsKeepRefs(db, d.runs, d.candidates);
  }

  // ---------------------------------------------------------------- enqueue

  lemma EnqueueIsNew(db: Db, n: NewJob)
    requires EnqueueJob(db, n).reply == Done
    ensures n.id !in db.jobs && JobRowOk(FreshJob(n)) && JobRefs(db.runs, db.candidates, FreshJob(n))
    ensures db.runs[n.runId].taskId in db.totals
    ensures Active(db.runs[n.runId]) && n.budget <= Available(db, n.runId)
    ensures forall id :: id in db.jobs ==> !Clash(db.jobs[id], FreshJob(n))
    ensures EnqueueJob(db, n).db ==
            db.(jobs := db.jobs[n.id := FreshJob(n)],
                runs := db.runs[n.runId := db.runs[n.runId].(reserved := db.runs[n.runId].reserved + n.budget)])
  {
    forall id | id in db.jobs ensures !Clash(db.jobs[id], FreshJob(n)) {
      assert id !in JobsOfCandidate(db, n.candidateId);
    }
  }

  lemma EnqueueKeepsLedger(
    totals: map<Id, int>, runs: map<Id, Run>, jobs: map<Id, Job>, results: map<Id, Result>,
    id: Id, k: Job, run: Run)
    requires LedgerOk(totals, runs, jobs, results) && id !in jobs && k.runId in runs
    requires k.status.Pending? && run == runs[k.runId].(reserved := runs[k.runId].reserved + k.budget)
    requires run.taskId in totals && run.consumed + run.reserved <= totals[run.taskId]
    ensures LedgerOk(totals, runs[k.runId := run], jobs[id := k], results)
  {
    var runs' := runs[k.runId := run];
    forall r | r in runs' ensures Balanced(totals, runs'[r], r, jobs[id := k], results) {
      assert Balanced(totals, runs[r], r, jobs, results);
      LiveBudgetUpdate(jobs, id, k, r);
    }
  }

  lemma EnqueueKeepsTables(db: Db, id: Id, k: Job, runs': map<Id, Run>)
    requires Inv(db) && SameControl(db.runs, runs') && id !in db.jobs && JobRowOk(k)
    requires forall r :: r in runs' ==> runs'[r].taskId == db.runs[r].taskId
    requires JobRefs(db.runs, db.candidates, k) && db.runs[k.runId].status.Running?
    requires forall i :: i in db.jobs ==> !Clash(db.jobs[i], k)
    ensures RowsOk(db.jobs[id := k]) && OneJobEach(db.jobs[id := k])
    ensures RefsOk(runs', db.candidates, db.jobs[id := k]) && DrainOk(runs', db.jobs[id := k])
  {
    var jobs' := db.jobs[id := k];
    forall i | i in jobs'
      ensures JobRowOk(jobs'[i]) && JobRefs(runs', db.candidates, jobs'[i])
      ensures MayHold(runs'[jobs'[i].runId].status, jobs'[i].status)
    {
      if i != id { assert JobRefs(db.runs, db.candidates, db.jobs[i]); }
    }
    forall a, b | a in jobs' && b in jobs' && Clash(jobs'[a], jobs'[b]) ensures a == b {
      if a != id && b != id {
        assert Clash(db.jobs[a], db.jobs[b]);
      }
    }
  }

  /** Adding a row without a result, or setting one: old pairs stay as they are. */
  lemma NewJobKeepsResults(jobs: map<Id, Job>, results: map<Id, Result>, id: Id, k: Job)
    requires ResultsOk(jobs, results) && id !in jobs && k.resultId.None?
    ensures ResultsOk(jobs[id := k], results)
  {
    forall rid | rid in results ensures Settled(jobs[id := k], results, rid) {
      assert Settled(jobs, results, rid);
      var i :| Settles(jobs, results, rid, i);
      assert Settles(jobs[id := k], results, rid, i);
    }
  }

  lemma EnqueueKeepsInv(db: Db, n: NewJob)
    requires Inv(db)
    ensures Inv(EnqueueJob(db, n).db)
  {
    var tx := EnqueueJob(db, n);
    if tx.reply == Done {
      EnqueueIsNew(db, n);
      EnqueueStep(db, n.id, FreshJob(n));
    } else {
      assert tx.db == db;
    }
  }

  lemma EnqueueStep(db: Db, id: Id, k: Job)
    requires Inv(db) && id !in db.jobs && JobRefs(db.runs, db.candidates, k)
    requires JobRowOk(k) && k.status.Pending? && db.runs[k.runId].status.Running?
    requires forall i :: i in db.jobs ==> !Clash(db.jobs[i], k)
    requires db.runs[k.runId].taskId in db.totals && k.budget <= Available(db, k.runId)
    ensures Inv(db.(jobs := db.jobs[id := k],
                    runs := db.runs[k.runId := db.runs[k.runId].(reserved := db.runs[k.runId].reserved + k.budget)]))
  {
    var run := db.runs[k.runId].(reserved := db.runs[k.runId].reserved + k.budget);
    var runs' := db.runs[k.runId := run];
    EnqueueKeepsLedger(db.totals, db.runs, db.jobs, db.results, id, k, run);
    EnqueueKeepsTables(db, id, k, runs');
    NewJobKeepsResults(db.jobs, db.results, id, k);
    SameControlKeeps(db.runs, runs', db.agentTasks);
  }

  // ---------------------------------------------------------------- one job

  lemma SameRunRow(db: Db, r: Id)
    requires r in db.runs
    ensures db.runs[r := db.runs[r]] == db.runs
    ensures db.runs[r].(reserved := db.runs[r].reserved - 0) == db.runs[r]
  {
  }

  /** A write to one job row that keeps its reservation. */
  lemma JobOnlyStep(db: Db, id: Id, k: Job)
    requires Inv(db) && id in db.jobs && Retires(db.jobs[id], k) && JobRowOk(k)
    requires Live(db.jobs[id].status) && Live(k.status)
    requires k.runId in db.runs && MayHold(db.runs[k.runId].status, k.status)
    ensures Inv(db.(jobs := db.jobs[id := k]))
  {
    SameRunRow(db, k.runId);
    JobRowStep(db, id, k, db.runs[k.runId]);
  }

  lemma ClaimEffect(db: Db, w: Id, now: int, s: int, locked: set<Id>) returns (id: Id)
    requires ClaimNextJob(db, w, now, s, locked).reply != NoWork
    ensures IsNext(db, id, now, locked)
    ensures ClaimNextJob(db, w, now, s, locked) ==
            Tx(db.(jobs := db.jobs[id := ClaimedRow(db.jobs[id], w, now + s)]), ClaimedJob(id))
  {
    var tx := ClaimNextJob(db, w, now, s, locked);
    id := tx.reply.id;
  }

  lemma ClaimKeepsInv(db: Db, w: Id, now: int, s: int, locked: set<Id>)
    requires Inv(db)
    ensures Inv(ClaimNextJob(db, w, now, s, locked).db)
  {
    var tx := ClaimNextJob(db, w, now, s, locked);
    if tx.reply != NoWork {
      var id := ClaimEffect(db, w, now, s, locked);
      assert JobRowOk(db.jobs[id]);
      JobOnlyStep(db, id, ClaimedRow(db.jobs[id], w, now + s));
    }
  }

  lemma RenewKeepsInv(db: Db, id: Id, w: Id, now: int, s: int)
    requires Inv(db)
    ensures Inv(RenewJobLease(db, id, w, now, s).db)
  {
    if s > 0 && HoldsJob(db, id, w, now) {
      assert JobRowOk(db.jobs[id]) && JobRefs(db.runs, db.candidates, db.jobs[id]);
      JobOnlyStep(db, id, db.jobs[id].(lease := Some(now + s)));
    }
  }

  lemma FailureKeepsInv(db: Db, id: Id, w: Id, retryable: bool, at: int, now: int)
    requires Inv(db)
    ensures Inv(CompleteJobFailure(db, id, w, retryable, at, now).db)
  {
    var tx := CompleteJobFailure(db, id, w, retryable, at, now);
    if tx.reply == Done {
      FailureEffect(db, id, w, retryable, at, now);
      assert JobRowOk(db.jobs[id]);
      FailedRow(db.jobs[id], retryable, at);
      var k := FailedJob(db.jobs[id], retryable, at);
      JobRowStep(db, id, k, RefundedRun(db.runs[k.runId], db.jobs[id], k));
    } else {
      assert tx.db == db;
    }
  }

  function RefundedRun(run: Run, j: Job, k: Job): Run {
    run.(reserved := run.reserved - Refund(j.runId, j, k))
  }

  /** What a failed settlement has checked, and all it writes. */
  lemma FailureEffect(db: Db, id: Id, w: Id, retryable: bool, at: int, now: int)
    requires CompleteJobFailure(db, id, w, retryable, at, now).reply == Done
    ensures HoldsJob(db, id, w, now)
    ensures db.jobs[id].runId in db.runs && Active(db.runs[db.jobs[id].runId])
    ensures var j, k := db.jobs[id], FailedJob(db.jobs[id], retryable, at);
            CompleteJobFailure(db, id, w, retryable, at, now).db ==
            db.(jobs := db.jobs[id := k], runs := db.runs[j.runId := RefundedRun(db.runs[j.runId], j, k)])
  {
    SameRunRow(db, db.jobs[id].runId);
  }

  /** The row a failed settlement leaves: waiting for another attempt, or dead. */
  function FailedJob(j: Job, retryable: bool, at: int): Job {
    var retry := retryable && j.attempts < j.maxAttempts;
    Released(j, if retry then JobStatus.RetryWait else JobStatus.Dead).(availableAt := at)
  }

  lemma FailedRow(j: Job, retryable: bool, at: int)
    requires JobRowOk(j) && j.status.Running?
    ensures Retires(j, FailedJob(j, retryable, at)) && JobRowOk(FailedJob(j, retryable, at))
  {
  }

  // ---------------------------------------------------------------- success

  lemma SuccessKeepsLedger(
    totals: map<Id, int>, runs: map<Id, Run>, jobs: map<Id, Job>, results: map<Id, Result>,
    id: Id, k: Job, rid: Id, res: Result, run: Run)
    requires LedgerOk(totals, runs, jobs, results) && id in jobs && rid !in results
    requires Live(jobs[id].status) && !Live(k.status) && k.runId == jobs[id].runId == res.runId
    requires k.budget == jobs[id].budget && res.usedBudget <= k.budget && k.runId in runs
    requires run == runs[k.runId].(reserved := runs[k.runId].reserved - k.budget,
                                   consumed := runs[k.runId].consumed + res.usedBudget)
    ensures LedgerOk(totals, runs[k.runId := run], jobs[id := k], results[rid := res])
  {
    var runs', jobs', results' := runs[k.runId := run], jobs[id := k], results[rid := res];
    forall r | r in runs' ensures Balanced(totals, runs'[r], r, jobs', results') {
      assert Balanced(totals, runs[r], r, jobs, results);
      LiveBudgetUpdate(jobs, id, k, r);
      UsedBudgetInsert(results, rid, res, r);
    }
  }

  lemma SuccessKeepsResults(
    jobs: map<Id, Job>, results: map<Id, Result>, id: Id, k: Job, rid: Id, res: Result)
    requires ResultsOk(jobs, results) && id in jobs && jobs[id].resultId.None? && rid !in results
    requires k.resultId == Some(rid) && k.runId == res.runId && k.candidateId == res.candidateId
    requires 0 <= res.usedBudget <= k.budget
    ensures ResultsOk(jobs[id := k], results[rid := res])
  {
    var jobs', results' := jobs[id := k], results[rid := res];
    forall o | o in results' ensures Settled(jobs', results', o) {
      if o == rid {
        assert Settles(jobs', results', rid, id);
      } else {
        assert Settled(jobs, results, o);
        var i :| Settles(jobs, results, o, i);
        assert Settles(jobs', results', o, i);
      }
    }
    forall i | i in jobs' && jobs'[i].resultId.Some?
      ensures Settles(jobs', results', jobs'[i].resultId.value, i)
    {
      if i != id { assert Settles(jobs, results, jobs[i].resultId.value, i); }
    }
  }

  lemma SameJobKeepsIdentity(
    runs: map<Id, Run>, runs': map<Id, Run>, candidates: map<Id, Id>, jobs: map<Id, Job>, id: Id, k: Job)
    requires RefsOk(runs, candidates, jobs) && OneJobEach(jobs) && id in jobs
    requires k.runId == jobs[id].runId && k.taskId == jobs[id].taskId
    requires k.candidateId == jobs[id].candidateId && k.key == jobs[id].key
    requires runs'.Keys == runs.Keys && forall r :: r in runs ==> runs'[r].taskId == runs[r].taskId
    ensures RefsOk(runs', candidates, jobs[id := k]) && OneJobEach(jobs[id := k])
  {
    var jobs' := jobs[id := k];
    forall i | i in jobs' ensures JobRefs(runs', candidates, jobs'[i]) {
      assert JobRefs(runs, candidates, jobs[i]);
    }
    forall a, b | a in jobs' && b in jobs' && Clash(jobs'[a], jobs'[b]) ensures a == b {
      assert Clash(jobs[a], jobs[b]);
    }
  }

  lemma SuccessKeepsInv(db: Db, id: Id, w: Id, rid: Id, res: Result, now: int)
    requires Inv(db)
    ensures Inv(CompleteJobSuccess(db, id, w, rid, res, now).db)
  {
    var tx := CompleteJobSuccess(db, id, w, rid, res, now);
    if tx.reply == Done {
      SuccessEffect(db, id, w, rid, res, now);
      SuccessStep(db, id, rid, res);
    } else {
      assert tx.db == db;
    }
  }

  lemma SuccessStep(db: Db, id: Id, rid: Id, res: Result)
    requires Inv(db) && id in db.jobs && db.jobs[id].status.Running? && rid !in db.results
    requires res.runId == db.jobs[id].runId && res.runId in db.runs
    requires res.candidateId == db.jobs[id].candidateId && 0 <= res.usedBudget <= db.jobs[id].budget
    ensures Inv(db.(jobs := db.jobs[id := SettledJob(db.jobs[id], rid)],
                    results := db.results[rid := res],
                    runs := db.runs[res.runId := ChargedRun(db.runs[res.runId], db.jobs[id].budget, res)]))
  {
    var k, run := SettledJob(db.jobs[id], rid), ChargedRun(db.runs[res.runId], db.jobs[id].budget, res);
    SettledRow(db.jobs, id, rid);
    SuccessKeepsLedger(db.totals, db.runs, db.jobs, db.results, id, k, rid, res, run);
    SuccessKeepsResults(db.jobs, db.results, id, k, rid, res);
    SuccessKeepsRest(db, id, k, run);
  }

  lemma SettledRow(jobs: map<Id, Job>, id: Id, rid: Id)
    requires RowsOk(jobs) && id in jobs && jobs[id].status.Running?
    ensures JobRowOk(SettledJob(jobs[id], rid)) && jobs[id].resultId.None?
  {
    assert JobRowOk(jobs[id]);
  }

  function SettledJob(j: Job, rid: Id): Job {
    Released(j, JobStatus.Success).(resultId := Some(rid))
  }

  function ChargedRun(run: Run, budget: int, res: Result): Run {
    run.(reserved := run.reserved - budget, consumed := run.consumed + res.usedBudget)
  }

  /** What a successful settlement has checked, and all it writes. */
  lemma SuccessEffect(db: Db, id: Id, w: Id, rid: Id, res: Result, now: int)
    requires CompleteJobSuccess(db, id, w, rid, res, now).reply == Done
    ensures HoldsJob(db, id, w, now) && rid !in db.results
    ensures res.runId == db.jobs[id].runId && res.runId in db.runs && Active(db.runs[res.runId])
    ensures res.candidateId == db.jobs[id].candidateId && 0 <= res.usedBudget <= db.jobs[id].budget
    ensures !CandidateHasResult(db, res.candidateId)
    ensures CompleteJobSuccess(db, id, w, rid, res, now).db ==
            db.(jobs := db.jobs[id := SettledJob(db.jobs[id], rid)], results := db.results[rid := res],
                runs := db.runs[res.runId := ChargedRun(db.runs[res.runId], db.jobs[id].budget, res)])
  {
  }

  lemma SuccessKeepsRest(db: Db, id: Id, k: Job, run: Run)
    requires RowsOk(db.jobs) && RefsOk(db.runs, db.candidates, db.jobs) && OneJobEach(db.jobs)
    requires CancelOk(db.runs) && DrainOk(db.runs, db.jobs) && TasksOk(db.runs, db.agentTasks)
    requires id in db.jobs && k.runId in db.runs && JobRowOk(k) && !Live(k.status)
    requires k.runId == db.jobs[id].runId && k.taskId == db.jobs[id].taskId
    requires k.candidateId == db.jobs[id].candidateId && k.key == db.jobs[id].key
    requires run.taskId == db.runs[k.runId].taskId && run.status == db.runs[k.runId].status
    requires run.cancelRequested == db.runs[k.runId].cancelRequested
    ensures var runs', jobs' := db.runs[k.runId := run], db.jobs[id := k];
            RowsOk(jobs') && RefsOk(runs', db.candidates, jobs') && OneJobEach(jobs') &&
            CancelOk(runs') && DrainOk(runs', jobs') && TasksOk(runs', db.agentTasks)
  {
    var runs' := db.runs[k.runId := run];
    SameJobKeepsIdentity(db.runs, runs', db.candidates, db.jobs, id, k);
    JobRowKeepsShape(db.runs, runs', db.jobs, id, k);
    SameControlKeeps(db.runs, runs', db.agentTasks);
  }

  // ---------------------------------------------------------------- recovery and stopping

  lemma RecoveredRowOk(j: Job, cancelled: bool, now: int, s: RunStatus)
    requires JobRowOk(j) && j.status.Running? && (cancelled <==> s.Cancelled?) && MayHold(s, j.status)
    ensures Retires(j, RecoveredRow(j, cancelled, now)) && JobRowOk(RecoveredRow(j, cancelled, now))
    ensures MayHold(s, RecoveredRow(j, cancelled, now).status)
  {
  }

  lemma RecoverKeepsRows(db: Db, now: int, only: Option<Id>)
    requires RowsOk(db.jobs) && DrainOk(db.runs, db.jobs) && CancelOk(db.runs)
    requires RefsOk(db.runs, db.candidates, db.jobs)
    ensures AllRetire(db.jobs, RecoveredJobs(db, now, only)) && RowsOk(RecoveredJobs(db, now, only))
    ensures DrainOk(db.runs, RecoveredJobs(db, now, only))
  {
    var after := RecoveredJobs(db, now, only);
    forall id | id in db.jobs
      ensures Retires(db.jobs[id], after[id]) && JobRowOk(after[id])
      ensures db.jobs[id].runId in db.runs && MayHold(db.runs[db.jobs[id].runId].status, after[id].status)
    {
      var j := db.jobs[id];
      assert JobRowOk(j) && JobRefs(db.runs, db.candidates, j);
      if Stale(j, now, only) {
        RecoveredRowOk(j, RunCancelled(db, j.runId), now, db.runs[j.runId].status);
      }
    }
  }

  lemma RecoverKeepsInv(db: Db, now: int, only: Option<Id>)
    requires Inv(db)
    ensures Inv(RecoverStaleJobs(db, now, only).db)
  {
    var d := RecoverStaleJobs(db, now, only).db;
    RecoverKeepsRows(db, now, only);
    assert SameControl(db.runs, d.runs);
    SameControlKeeps(db.runs, d.runs, db.agentTasks);
    assert DrainOk(d.runs, d.jobs);
    RetireStep(db, d);
  }

  lemma StopRefundsOnlyItsRun(db: Db, r: Id, running: bool, o: Id)
    requires o != r
    ensures Refunded(o, db.jobs, StoppedJobs(db, r, running)) == 0
  {
    TotalZero(RefundColumn(o, db.jobs, StoppedJobs(db, r, running)));
  }

  lemma StoppedRowOk(j: Job)
    requires JobRowOk(j) && Live(j.status)
    ensures Retires(j, Released(j, JobStatus.Cancelled)) && JobRowOk(Released(j, JobStatus.Cancelled))
  {
  }

  lemma StopRetires(db: Db, r: Id, running: bool)
    requires RowsOk(db.jobs)
    ensures AllRetire(db.jobs, StoppedJobs(db, r, running)) && RowsOk(StoppedJobs(db, r, running))
  {
    var after := StoppedJobs(db, r, running);
    forall id | id in db.jobs ensures Retires(db.jobs[id], after[id]) && JobRowOk(after[id]) {
      assert JobRowOk(db.jobs[id]);
      if Stops(db.jobs[id], r, running) { StoppedRowOk(db.jobs[id]); }
    }
  }

  lemma StopDrains(db: Db, r: Id, running: bool, runs': map<Id, Run>)
    requires DrainOk(db.runs, db.jobs) && r in db.runs && runs'.Keys == db.runs.Keys
    requires forall o :: o in runs' && o != r ==> runs'[o].status == db.runs[o].status
    requires Terminal(runs'[r].status) && (running || runs'[r].status.Cancelled?)
    ensures DrainOk(runs', StoppedJobs(db, r, running))
  {
    var after := StoppedJobs(db, r, running);
    forall id | id in after && after[id].runId in runs'
      ensures MayHold(runs'[after[id].runId].status, after[id].status)
    {
      assert MayHold(db.runs[db.jobs[id].runId].status, db.jobs[id].status);
    }
  }

  lemma StopClearsTasks(db: Db, r: Id, runs': map<Id, Run>, now: int)
    requires TasksOk(db.runs, db.agentTasks) && OneTaskEach(db.agentTasks)
    requires r in db.runs && runs'.Keys == db.runs.Keys
    requires forall o :: o in runs' && o != r ==> runs'[o].status == db.runs[o].status
    ensures TasksOk(runs', StoppedTasks(db, r, now)) && OneTaskEach(StoppedTasks(db, r, now))
  {
    var tasks' := StoppedTasks(db, r, now);
    forall id | id in tasks'
      ensures TaskRowOk(tasks'[id]) && tasks'[id].runId in runs'
      ensures tasks'[id].status.Claimed? ==> !Terminal(runs'[tasks'[id].runId].status)
    {
      assert TaskRowOk(db.agentTasks[id]);
    }
  }

  lemma StopKeepsInv(db: Db, r: Id, running: bool, run: Run, now: int)
    requires Inv(db) && r in db.runs
    requires run.taskId == db.runs[r].taskId && run.consumed == db.runs[r].consumed
    requires run.reserved == db.runs[r].reserved - Refunded(r, db.jobs, StoppedJobs(db, r, running))
    requires run.cancelRequested <==> run.status.Cancelled?
    requires Terminal(run.status) && (running || run.status.Cancelled?)
    ensures Inv(StopWork(db, r, running, run, now))
  {
    var d := StopWork(db, r, running, run, now);
    StopRetires(db, r, running);
    StopDrains(db, r, running, d.runs);
    StopClearsTasks(db, r, d.runs, now);
    forall o | o in db.runs && o != r ensures Refunded(o, db.jobs, d.jobs) == 0 {
      StopRefundsOnlyItsRun(db, r, running, o);
    }
    assert CancelOk(d.runs);
    RetireStep(db, d);
  }

  /** Stopping every live job of a run gives back exactly its reservation. */
  lemma StopReleasesReservation(db: Db, r: Id)
    requires Inv(db) && r in db.runs
    ensures Refunded(r, db.jobs, StoppedJobs(db, r, true)) == db.runs[r].reserved
  {
    assert Balanced(db.totals, db.runs[r], r, db.jobs, db.results);
    StopReleasesAll(db, r);
  }

  lemma StopReleasesAll(db: Db, r: Id)
    requires RowsOk(db.jobs)
    ensures Refunded(r, db.jobs, StoppedJobs(db, r, true)) == LiveBudget(db.jobs, r)
  {
    var after := StoppedJobs(db, r, true);
    StopRetires(db, r, true);
    RefundBalances(db.jobs, after, r);
    TotalZero(LiveWeights(after, r));
  }

  lemma CancelReleasesAtMost(db: Db, r: Id)
    requires Inv(db) && r in db.runs
    ensures Refunded(r, db.jobs, StoppedJobs(db, r, false)) <= db.runs[r].reserved
  {
    var after := StoppedJobs(db, r, false);
    StopRetires(db, r, false);
    RefundBalances(db.jobs, after, r);
    LiveBudgetBounds(after, r);
    assert Balanced(db.totals, db.runs[r], r, db.jobs, db.results);
  }

  lemma CompleteKeepsInv(db: Db, r: Id, o: Id, now: int, g: nat, best: Id)
    requires Inv(db)
    ensures Inv(CompleteRun(db, r, o, now, g, best).db)
  {
    var tx := CompleteRun(db, r, o, now, g, best);
    if tx.reply == Done { StopKeepsInv(db, r, true, tx.db.runs[r], now); }
  }

  lemma FailRunKeepsInv(db: Db, r: Id, now: int, o: Option<Id>)
    requires Inv(db)
    ensures Inv(FailRun(db, r, now, o).db)
  {
    var tx := FailRun(db, r, now, o);
    if tx.reply == Done { StopKeepsInv(db, r, true, tx.db.runs[r], now); }
  }

  lemma CancelKeepsInv(db: Db, r: Id, now: int)
    requires Inv(db)
    ensures Inv(RequestRunCancel(db, r, now).db)
  {
    var tx := RequestRunCancel(db, r, now);
    if tx.reply == Done { StopKeepsInv(db, r, false, tx.db.runs[r], now); }
  }

  // ---------------------------------------------------------------- runs and agent tasks

  predicate RunControl(a: Action) {
    a.DoStart? || a.DoPause? || a.DoProgress? || a.DoRequestPause? || a.DoClaimRun? ||
    a.DoRenewRun? || a.DoReleaseRun? || a.DoCursor?
  }

  lemma RunControlKeepsInv(db: Db, a: Action)
    requires Inv(db) && RunControl(a)
    ensures Inv(Apply(db, a).db)
  {
    hide Apply;
    var d := Apply(db, a).db;
    if d != db {
      RunControlRow(db, a);
      assert PlainRunChanges(db.runs, d.runs);
      RunRowsStep(db, d.runs);
    }
  }

  lemma RunControlRow(db: Db, a: Action)
    requires RunControl(a) && Apply(db, a).db != db
    requires a.runId in db.runs && db.runs[a.runId].cancelRequested ==> db.runs[a.runId].status.Cancelled?
    ensures a.runId in db.runs && a.runId in Apply(db, a).db.runs
    ensures var run := Apply(db, a).db.runs[a.runId];
            && PlainRunChange(db.runs[a.runId], run)
            && Apply(db, a).db == db.(runs := db.runs[a.runId := run])
  {
  }

  lemma RecoverRunsKeepsInv(db: Db, now: int)
    requires Inv(db)
    ensures Inv(RecoverOrphanRuns(db, now).db)
  {
    var runs := RecoverOrphanRuns(db, now).db.runs;
    assert PlainRunChanges(db.runs, runs);
    RunRowsStep(db, runs);
  }

  predicate OneTask(a: Action) {
    a.DoClaimTask? || a.DoRenewTask? || a.DoCompleteTask? || a.DoFailTask?
  }

  /** What a write to one agent task may change. */
  predicate TaskChange(t: AgentTask, u: AgentTask) {
    u.runId == t.runId && u.key == t.key && TaskRowOk(u)
  }

  lemma OneTaskRow(db: Db, a: Action)
    requires OneTask(a) && Apply(db, a).db != db
    requires a.taskId in db.agentTasks ==> TaskRowOk(db.agentTasks[a.taskId])
    ensures a.taskId in db.agentTasks && a.taskId in Apply(db, a).db.agentTasks
    ensures var u := Apply(db, a).db.agentTasks[a.taskId];
            && TaskChange(db.agentTasks[a.taskId], u)
            && AgentRunActive(db, u.runId)
            && Apply(db, a).db == db.(agentTasks := db.agentTasks[a.taskId := u])
  {
  }

  lemma TaskRowKeepsTasks(runs: map<Id, Run>, tasks: map<Id, AgentTask>, id: Id, u: AgentTask)
    requires TasksOk(runs, tasks) && OneTaskEach(tasks) && id in tasks && TaskChange(tasks[id], u)
    requires u.runId in runs && !Terminal(runs[u.runId].status)
    ensures TasksOk(runs, tasks[id := u]) && OneTaskEach(tasks[id := u])
  {
  }

  lemma OneTaskKeepsInv(db: Db, a: Action)
    requires Inv(db) && OneTask(a)
    ensures Inv(Apply(db, a).db)
  {
    hide Apply;
    hide RowsOk;
    hide RefsOk;
    hide OneJobEach;
    hide ResultsOk;
    hide LedgerOk;
    hide DrainOk;
    hide OneTaskEach;
    var d := Apply(db, a).db;
    if d != db {
      OneTaskRow(db, a);
      TaskRowKeepsTasks(db.runs, db.agentTasks, a.taskId, d.agentTasks[a.taskId]);
    }
  }

  lemma AddTaskKeepsInv(db: Db, id: Id, r: Id, key: Id, max: int, now: int)
    requires Inv(db)
    ensures Inv(AddAgentTask(db, id, r, key, max, now).db)
  {
    var d := AddAgentTask(db, id, r, key, max, now).db;
    if d != db {
      assert OneTaskEach(d.agentTasks);
      assert TasksOk(db.runs, d.agentTasks);
    }
  }

  lemma RecoverTasksKeepsInv(db: Db, now: int, s: int)
    requires Inv(db)
    ensures Inv(RecoverOrphanAgentTasks(db, now, s).db)
  {
    var tasks' := RecoverOrphanAgentTasks(db, now, s).db.agentTasks;
    forall id | id in tasks'
      ensures TaskRowOk(tasks'[id]) && tasks'[id].runId in db.runs
      ensures tasks'[id].status.Claimed? ==> !Terminal(db.runs[tasks'[id].runId].status)
    {
      assert TaskRowOk(db.agentTasks[id]);
    }
    assert OneTaskEach(tasks');
  }

  // ---------------------------------------------------------------- every history

  predicate JobAction(a: Action) {
    a.DoEnqueue? || a.DoClaim? || a.DoRenew? || a.DoSucceed? || a.DoFail? || a.DoRecover?
  }

  predicate FinishAction(a: Action) {
    a.DoComplete? || a.DoFailRun? || a.DoRequestCancel?
  }

  lemma JobActionKeepsInv(db: Db, a: Action)
    requires Inv(db) && JobAction(a)
    ensures Inv(Apply(db, a).db)
  {
    match a
    case DoEnqueue(n) => EnqueueKeepsInv(db, n);
    case DoClaim(w, now, s, locked) => ClaimKeepsInv(db, w, now, s, locked);
    case DoRenew(id, w, now, s) => RenewKeepsInv(db, id, w, now, s);
    case DoSucceed(id, w, rid, res, now) => SuccessKeepsInv(db, id, w, rid, res, now);
    case DoFail(id, w, retryable, at, now) => FailureKeepsInv(db, id, w, retryable, at, now);
    case DoRecover(now, only) => RecoverKeepsInv(db, now, only);
  }

  lemma FinishKeepsInv(db: Db, a: Action)
    requires Inv(db) && FinishAction(a)
    ensures Inv(Apply(db, a).db)
  {
    match a
    case DoComplete(r, o, now, g, b) => CompleteKeepsInv(db, r, o, now, g, b);
    case DoFailRun(r, now, o) => FailRunKeepsInv(db, r, now, o);
    case DoRequestCancel(r, now) => CancelKeepsInv(db, r, now);
  }

  lemma OthersKeepInv(db: Db, a: Action)
    requires Inv(db) && !JobAction(a) && !FinishAction(a) && !RunControl(a) && !OneTask(a)
    ensures Inv(Apply(db, a).db)
  {
    match a
    case DoCreateTaskRun(t, total, r) => CreationKeepsInv(db, t, total, r);
    case DoAddCandidate(c, r) => CandidateKeepsInv(db, c, r);
    case DoRecoverRuns(now) => RecoverRunsKeepsInv(db, now);
    case DoAddCheckpoint(id, c) =>
    case DoAddTask(id, r, key, max, now) => AddTaskKeepsInv(db, id, r, key, max, now);
    case DoRecoverTasks(now, s) => RecoverTasksKeepsInv(db, now, s);
  }

  /** Every transaction keeps the invariant, whoever issues it and whenever. */
  lemma StepKeepsInv(db: Db, a: Action)
    requires Inv(db)
    ensures Inv(Apply(db, a).db)
  {
    if JobAction(a) {
      JobActionKeepsInv(db, a);
    } else if FinishAction(a) {
      FinishKeepsInv(db, a);
    } else if RunControl(a) {
      RunControlKeepsInv(db, a);
    } else if OneTask(a) {
      OneTaskKeepsInv(db, a);
    } else {
      OthersKeepInv(db, a);
    }
  }

  /** A history is a shorter one and one more transaction. */
  lemma LastStep(h: seq<Entry>)
    requires History(h) && h != []
    ensures History(h[..|h| - 1])
    ensures Apply(Now(h[..|h| - 1]), h[|h| - 1].action) == Tx(Now(h), h[|h| - 1].reply)
  {
    hide Apply;
    var k := |h| - 1;
    forall i: nat | i < k ensures Follows(h[..k], i) {
      assert Follows(h, i);
      assert h[..k][..i] == h[..i];
    }
    assert Follows(h, k);
  }

  /** Every prefix of a history is one, continued by its next transaction. */
  lemma PrefixIsHistory(h: seq<Entry>, i: nat)
    requires History(h) && i <= |h|
    ensures History(h[..i])
    ensures i < |h| ==> Apply(Now(h[..i]), h[i].action) == Tx(h[i].after, h[i].reply)
  {
    hide Apply;
    forall m: nat | m < i ensures Follows(h[..i], m) {
      assert Follows(h, m);
      assert h[..i][..m] == h[..m];
    }
    if i < |h| { assert Follows(h, i); }
  }

  /** In every state of every interleaving the ledger balances and the tables agree. */
  lemma {:induction false} ReachableInv(h: seq<Entry>)
    requires History(h)
    ensures Inv(Now(h))
  {
    hide Apply;
    if h != [] {
      var k := |h| - 1;
      LastStep(h);
      ReachableInv(h[..k]);
      StepKeepsInv(Now(h[..k]), h[k].action);
    }
  }
}
