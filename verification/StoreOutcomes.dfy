/**
 * What the transactions on jobs, agent tasks and runs leave behind, row by row and column by
 * column: who gets a job, how a failure, a recovery or a stop ends it, and what happens to
 * the reservation.
 */
module StoreOutcomes {
  import opened Common
  import opened StoreModel
  import opened StoreInvariants
  import opened StoreSafety
  import StoreGuarantees

  // ---------------------------------------------------------------- creation and submission

  lemma CreateOutcome(db: Db, taskId: Id, total: int, r: Id)
    ensures var tx := CreateTaskRun(db, taskId, total, r);
            && (tx.reply == Done <==> 0 < total && taskId !in db.totals && r !in db.runs)
            && (tx.reply != Done ==> tx.db == db)
            && (tx.reply == Done ==>
                  && tx.db.totals == db.totals[taskId := total] && r in tx.db.runs && OthersSame(db.runs, tx.db.runs, r)
                  && tx.db.runs[r].taskId == taskId && tx.db.runs[r].status == RunStatus.Pending
                  && tx.db.runs[r].consumed == 0 && tx.db.runs[r].reserved == 0 && tx.db.runs[r].generation == 0
                  && !tx.db.runs[r].pauseRequested && !tx.db.runs[r].cancelRequested
                  && tx.db.runs[r].owner.None? && tx.db.runs[r].lease.None? && tx.db.runs[r].cursor.None?)
  {
  }

  /** A new job waits, unattempted, under exactly the terms it was submitted with, and is paid for. */
  lemma EnqueueOutcome(db: Db, n: NewJob)
    requires EnqueueJob(db, n).reply == Done
    ensures var d := EnqueueJob(db, n).db;
            && n.id !in db.jobs && n.id in d.jobs && OthersSame(db.jobs, d.jobs, n.id)
            && d.jobs[n.id].status == JobStatus.Pending && d.jobs[n.id].attempts == 0
            && d.jobs[n.id].maxAttempts == n.maxAttempts && d.jobs[n.id].availableAt == n.availableAt
            && d.jobs[n.id].runId == n.runId && d.jobs[n.id].taskId == n.taskId
            && d.jobs[n.id].candidateId == n.candidateId && d.jobs[n.id].seed == n.seed
            && d.jobs[n.id].budget == n.budget && d.jobs[n.id].key == n.key
            && d.jobs[n.id].worker.None? && d.jobs[n.id].lease.None? && d.jobs[n.id].resultId.None?
            && n.runId in db.runs && n.taskId in db.totals
            && n.budget + db.runs[n.runId].consumed + db.runs[n.runId].reserved <= db.totals[n.taskId]
            && d.runs == db.runs[n.runId := db.runs[n.runId].(reserved := db.runs[n.runId].reserved + n.budget)]
  {
    EnqueueIsNew(db, n);
  }

  // ---------------------------------------------------------------- jobs

  /** The rows of a table other than `id` are as before. */
  ghost predicate OthersSame<T(!new)>(before: map<Id, T>, after: map<Id, T>, id: Id) {
    forall o {:trigger after[o]} {:trigger o in after} :: o != id ==>
      (o in after <==> o in before) && (o in before ==> o in after && after[o] == before[o])
  }

  predicate RunGoesOn(db: Db, r: Id) {
    r in db.runs && db.runs[r].status == RunStatus.Running && !db.runs[r].cancelRequested
  }

  /** A job that may be claimed: pending or waiting for a retry, due, in a run that goes on. */
  predicate Due(db: Db, id: Id, now: int) {
    && id in db.jobs && (db.jobs[id].status == JobStatus.Pending || db.jobs[id].status == JobStatus.RetryWait)
    && db.jobs[id].availableAt <= now && RunGoesOn(db, db.jobs[id].runId)
  }

  /**
   * A claim takes the due and unlocked job that has been available longest, the least id among
   * equals, and there is work to claim exactly if there is such a job.
   */
  ghost predicate ClaimedRight(db: Db, d: Db, reply: Reply, worker: Id, now: int, seconds: int, locked: set<Id>) {
    if reply.ClaimedJob? then
      var id := reply.id;
      && Due(db, id, now) && id !in locked && id in d.jobs
      && (forall o :: Due(db, o, now) && o !in locked ==>
            db.jobs[id].availableAt < db.jobs[o].availableAt ||
            (db.jobs[id].availableAt == db.jobs[o].availableAt && id <= o))
      && d.jobs[id].status == JobStatus.Running && d.jobs[id].worker == Some(worker)
      && d.jobs[id].lease == Some(now + seconds) && d.jobs[id].attempts == db.jobs[id].attempts + 1
      && OthersSame(db.jobs, d.jobs, id) && d == db.(jobs := d.jobs)
    else reply == NoWork && d == db && forall o :: Due(db, o, now) ==> o in locked
  }

  lemma ClaimOutcome(db: Db, worker: Id, now: int, seconds: int, locked: set<Id>)
    ensures var tx := ClaimNextJob(db, worker, now, seconds, locked);
            ClaimedRight(db, tx.db, tx.reply, worker, now, seconds, locked)
  {
    if ClaimNextJob(db, worker, now, seconds, locked).reply != NoWork {
      var id := ClaimEffect(db, worker, now, seconds, locked);
    } else {
      forall o | Due(db, o, now) ensures o in locked {
        if o !in locked { DueIsTaken(db, o, now, locked); }
      }
    }
  }

  lemma DueIsTaken(db: Db, id: Id, now: int, locked: set<Id>)
    requires Due(db, id, now) && id !in locked
    ensures exists n :: IsNext(db, n, now, locked)
  {
    var s := set o | o in db.jobs && Claimable(db, o, now) && o !in locked;
    assert id in s;
    var m := LeastOf(db, s);
    forall o | Claimable(db, o, now) && o !in locked ensures ComesFirst(db, m, o) { assert o in s; }
    assert IsNext(db, m, now, locked);
  }

  lemma {:induction false} LeastOf(db: Db, s: set<Id>) returns (m: Id)
    requires s != {} && s <= db.jobs.Keys
    ensures m in s && forall o :: o in s ==> ComesFirst(db, m, o)
    decreases |s|
  {
    m :| m in s;
    var rest := s - {m};
    if rest != {} {
      var n := LeastOf(db, rest);
      var first := m;
      if !ComesFirst(db, m, n) { m := n; }
      forall o | o in s ensures ComesFirst(db, m, o) { assert o == first || o in rest; }
    } else {
      assert s == {m};
    }
  }

  /** A worker holds a job: it runs under this worker's name, and its lease has not ended. */
  predicate Holder(db: Db, id: Id, worker: Id, now: int) {
    && id in db.jobs && db.jobs[id].status == JobStatus.Running && db.jobs[id].worker == Some(worker)
    && db.jobs[id].lease.Some? && now < db.jobs[id].lease.value
  }

  lemma RenewOutcome(db: Db, id: Id, worker: Id, now: int, seconds: int)
    ensures var tx := RenewJobLease(db, id, worker, now, seconds);
            && (tx.reply == Granted(true) <==> 0 < seconds && Holder(db, id, worker, now))
            && (tx.reply == Granted(true) ==>
                  tx.db == db.(jobs := db.jobs[id := db.jobs[id].(lease := Some(now + seconds))]))
            && (tx.reply != Granted(true) ==> tx.db == db)
  {
  }

  /**
   * A settled success: the job refers to the result, nobody holds it, its reservation is
   * given back and what it used is consumed.
   */
  lemma SuccessOutcome(db: Db, id: Id, worker: Id, rid: Id, res: Result, now: int)
    requires CompleteJobSuccess(db, id, worker, rid, res, now).reply == Done
    ensures var d := CompleteJobSuccess(db, id, worker, rid, res, now).db;
            var r := db.jobs[id].runId;
            && Holder(db, id, worker, now) && RunGoesOn(db, r) && id in d.jobs && r in d.runs
            && d.jobs[id].status == JobStatus.Success && d.jobs[id].resultId == Some(rid)
            && d.jobs[id].worker.None? && d.jobs[id].lease.None? && d.jobs[id].attempts == db.jobs[id].attempts
            && rid !in db.results && d.results == db.results[rid := res]
            && d.runs[r].reserved == db.runs[r].reserved - db.jobs[id].budget
            && d.runs[r].consumed == db.runs[r].consumed + res.usedBudget
            && OthersSame(db.jobs, d.jobs, id) && OthersSame(db.runs, d.runs, r)
  {
  }

  /**
   * A settled failure: retryable with an attempt left it waits until the given time and stays
   * paid for; otherwise it is dead and its reservation is given back.
   */
  lemma FailureOutcome(db: Db, id: Id, worker: Id, retryable: bool, at: int, now: int)
    requires CompleteJobFailure(db, id, worker, retryable, at, now).reply == Done
    ensures var d := CompleteJobFailure(db, id, worker, retryable, at, now).db;
            var r := db.jobs[id].runId;
            && Holder(db, id, worker, now) && RunGoesOn(db, r) && id in d.jobs && r in d.runs
            && d.jobs[id].worker.None? && d.jobs[id].lease.None? && d.jobs[id].attempts == db.jobs[id].attempts
            && (if retryable && db.jobs[id].attempts < db.jobs[id].maxAttempts then
                  && d.jobs[id].status == JobStatus.RetryWait && d.jobs[id].availableAt == at && d.runs == db.runs
                else
                  && d.jobs[id].status == JobStatus.Dead
                  && d.runs[r].reserved == db.runs[r].reserved - db.jobs[id].budget
                  && d.runs[r].consumed == db.runs[r].consumed)
            && d.results == db.results && OthersSame(db.jobs, d.jobs, id) && OthersSame(db.runs, d.runs, r)
  {
  }

  // ---------------------------------------------------------------- stale recovery

  /** A running job whose lease has ended, within the scope of the recovery. */
  predicate Abandoned(j: Job, now: int, only: Option<Id>) {
    && j.status == JobStatus.Running && j.lease.Some? && j.lease.value <= now
    && (only.None? || only.value == j.runId)
  }

  predicate RunWasCancelled(db: Db, r: Id) {
    r in db.runs && (db.runs[r].cancelRequested || db.runs[r].status == RunStatus.Cancelled)
  }

  /** What recovery makes of a job row: nothing, unless it was abandoned. */
  predicate JobRecovered(j: Job, k: Job, cancelled: bool, now: int, only: Option<Id>) {
    if !Abandoned(j, now, only) then k == j
    else
      && k.worker.None? && k.lease.None? && k.attempts == j.attempts
      && (k.status == JobStatus.Cancelled <==> cancelled)
      && (k.status == JobStatus.Dead <==> !cancelled && j.maxAttempts <= j.attempts)
      && (k.status == JobStatus.Pending <==> !cancelled && j.attempts < j.maxAttempts)
      && (k.status == JobStatus.Pending ==> k.availableAt == now)
  }

  ghost predicate JobsRecovered(db: Db, d: Db, now: int, only: Option<Id>) {
    d.jobs.Keys == db.jobs.Keys &&
    forall id {:trigger d.jobs[id]} :: id in db.jobs ==>
      JobRecovered(db.jobs[id], d.jobs[id], RunWasCancelled(db, db.jobs[id].runId), now, only)
  }

  lemma RecoveryOutcome(db: Db, now: int, only: Option<Id>)
    ensures JobsRecovered(db, RecoverStaleJobs(db, now, only).db, now, only)
  {
    hide Refunded;
  }

  /**
   * So a job with an attempt left is due again at once where its run goes on, and stays paid
   * for: the reservation of its run still covers it.
   */
  lemma RecoveredJobIsDue(db: Db, now: int, only: Option<Id>, id: Id)
    requires Inv(db) && id in db.jobs && Abandoned(db.jobs[id], now, only)
    requires !RunWasCancelled(db, db.jobs[id].runId) && db.jobs[id].attempts < db.jobs[id].maxAttempts
    ensures var d, r := RecoverStaleJobs(db, now, only).db, db.jobs[id].runId;
            && id in d.jobs && d.jobs[id].status == JobStatus.Pending && d.jobs[id].budget == db.jobs[id].budget
            && r in d.runs && r in db.runs && d.jobs[id].budget <= d.runs[r].reserved
            && (RunGoesOn(db, r) ==> Due(d, id, now))
  {
    hide RecoverStaleJobs;
    var d := RecoverStaleJobs(db, now, only).db;
    RecoveryOutcome(db, now, only);
    assert JobRecovered(db.jobs[id], d.jobs[id], RunWasCancelled(db, db.jobs[id].runId), now, only);
    assert JobRefs(db.runs, db.candidates, db.jobs[id]);
    RecoverKeepsInv(db, now, only);
    hide Inv;
    StoreGuarantees.ReservationCovers(d, id);
    RecoveryKeepsRuns(db, now, only, db.jobs[id].runId);
    StoreGuarantees.MoveEffect(db, DoRecover(now, only), id);
    StoreGuarantees.MoveKeepsIdentity(db, DoRecover(now, only), Done, id, d.jobs[id]);
  }

  lemma RecoveryKeepsRuns(db: Db, now: int, only: Option<Id>, r: Id)
    ensures r in db.runs ==>
              var d := RecoverStaleJobs(db, now, only).db;
              r in d.runs && d.runs[r] == db.runs[r].(reserved := d.runs[r].reserved)
  {
    hide Refunded;
    hide RecoveredJobs;
  }

  /** A recovered run gives back exactly the budgets of its jobs that died or were cancelled. */
  lemma RecoveryRefunds(db: Db, now: int, only: Option<Id>, r: Id)
    requires Inv(db) && r in db.runs
    ensures var d := RecoverStaleJobs(db, now, only).db;
            r in d.runs && db.runs[r].reserved - d.runs[r].reserved == Total(LostWeights(db.jobs, d.jobs, r))
  {
    hide Inv;
    hide RecoverStaleJobs;
    hide Total;
    hide JobsRecovered;
    var d := RecoverStaleJobs(db, now, only).db;
    RecoverKeepsInv(db, now, only);
    RecoveryOutcome(db, now, only);
    RecoveryKeepsRuns(db, now, only, r);
    SameRows(db, d, now, only);
    ReservedIsLive(db, r);
    ReservedIsLive(d, r);
    forall id | id in db.jobs ensures LiveWeight(r, db.jobs[id]) == LiveWeight(r, d.jobs[id]) + LostWeight(db.jobs[id], d.jobs[id], r) {
      RecoveredWeight(db, now, only, r, id);
    }
    TotalAdds(LiveWeights(db.jobs, r), LiveWeights(d.jobs, r), LostWeights(db.jobs, d.jobs, r));
  }

  lemma SameRows(db: Db, d: Db, now: int, only: Option<Id>)
    requires JobsRecovered(db, d, now, only)
    ensures d.jobs.Keys == db.jobs.Keys
  {
  }

  lemma ReservedIsLive(db: Db, r: Id)
    requires Inv(db) && r in db.runs
    ensures db.runs[r].reserved == Total(LiveWeights(db.jobs, r))
  {
    assert Balanced(db.totals, db.runs[r], r, db.jobs, db.results);
  }

  lemma RecoveredWeight(db: Db, now: int, only: Option<Id>, r: Id, id: Id)
    requires id in db.jobs
    ensures var d := RecoverStaleJobs(db, now, only).db;
            id in d.jobs && LiveWeight(r, db.jobs[id]) == LiveWeight(r, d.jobs[id]) + LostWeight(db.jobs[id], d.jobs[id], r)
  {
    hide Refunded;
  }

  function LostWeight(j: Job, k: Job, r: Id): int {
    if j.runId == r && j.status != k.status && (k.status == JobStatus.Dead || k.status == JobStatus.Cancelled)
    then j.budget else 0
  }

  function LostWeights(before: map<Id, Job>, after: map<Id, Job>, r: Id): map<Id, int>
    requires before.Keys == after.Keys
  {
    map id | id in before :: LostWeight(before[id], after[id], r)
  }

  // ---------------------------------------------------------------- stopping a run

  /** Cancelling stops what has not been claimed; running jobs are left to their workers. */
  predicate JobCancelled(j: Job, k: Job, r: Id) {
    if j.runId == r && (j.status == JobStatus.Pending || j.status == JobStatus.RetryWait)
    then k == j.(status := JobStatus.Cancelled, worker := None, lease := None) else k == j
  }

  /** Completing or failing a run stops its running jobs as well. */
  predicate JobEnded(j: Job, k: Job, r: Id) {
    if j.runId == r && (j.status == JobStatus.Pending || j.status == JobStatus.RetryWait || j.status == JobStatus.Running)
    then k == j.(status := JobStatus.Cancelled, worker := None, lease := None) else k == j
  }

  predicate TaskEnded(t: AgentTask, u: AgentTask, r: Id, now: int) {
    if t.runId == r && (t.status == TaskStatus.Pending || t.status == TaskStatus.Claimed)
    then u == t.(status := TaskStatus.Cancelled, token := None, lease := None, updatedAt := now) else u == t
  }

  lemma CancelOutcome(db: Db, r: Id, now: int)
    requires Inv(db) && RequestRunCancel(db, r, now).reply == Done
    ensures var d := RequestRunCancel(db, r, now).db;
            && r in d.runs && d.runs[r].status == RunStatus.Cancelled && d.runs[r].cancelRequested
            && !d.runs[r].pauseRequested && d.runs[r].owner.None? && d.runs[r].lease.None?
            && d.jobs.Keys == db.jobs.Keys && d.agentTasks.Keys == db.agentTasks.Keys && OthersSame(db.runs, d.runs, r)
            && (forall id :: id in db.jobs ==> JobCancelled(db.jobs[id], d.jobs[id], r))
            && (forall id :: id in db.agentTasks ==> TaskEnded(db.agentTasks[id], d.agentTasks[id], r, now))
  {
    hide Refunded;
  }

  lemma CompleteOutcome(db: Db, r: Id, owner: Id, now: int, generation: nat, best: Id)
    requires CompleteRun(db, r, owner, now, generation, best).reply == Done
    ensures var d := CompleteRun(db, r, owner, now, generation, best).db;
            && r in d.runs && d.runs[r].status == RunStatus.Completed && d.runs[r].generation == generation
            && d.runs[r].best == Some(best) && d.runs[r].reserved == 0 && d.runs[r].owner.None? && d.runs[r].lease.None?
            && d.jobs.Keys == db.jobs.Keys && d.agentTasks.Keys == db.agentTasks.Keys && OthersSame(db.runs, d.runs, r)
            && (forall id :: id in db.jobs ==> JobEnded(db.jobs[id], d.jobs[id], r))
            && (forall id :: id in db.agentTasks ==> TaskEnded(db.agentTasks[id], d.agentTasks[id], r, now))
  {
    hide Refunded;
  }

  lemma FailOutcome(db: Db, r: Id, now: int, owner: Option<Id>)
    requires FailRun(db, r, now, owner).reply == Done
    ensures var d := FailRun(db, r, now, owner).db;
            && r in d.runs && d.runs[r].status == RunStatus.Failed && d.runs[r].reserved == 0
            && d.runs[r].owner.None? && d.runs[r].lease.None?
            && d.jobs.Keys == db.jobs.Keys && d.agentTasks.Keys == db.agentTasks.Keys && OthersSame(db.runs, d.runs, r)
            && (forall id :: id in db.jobs ==> JobEnded(db.jobs[id], d.jobs[id], r))
            && (forall id :: id in db.agentTasks ==> TaskEnded(db.agentTasks[id], d.agentTasks[id], r, now))
  {
    hide Refunded;
  }

  // ---------------------------------------------------------------- control of a run

  predicate Owner(db: Db, r: Id, owner: Id, now: int) {
    && r in db.runs && db.runs[r].owner == Some(owner)
    && db.runs[r].lease.Some? && now < db.runs[r].lease.value
  }

  lemma StartOutcome(db: Db, r: Id, expected: RunStatus, now: int, owner: Option<Id>, same: bool)
    ensures var tx := StartRun(db, r, expected, now, owner, same);
            && (tx.reply == Done <==>
                  && r in db.runs && (if owner.Some? then Owner(db, r, owner.value, now) else db.runs[r].owner.None?)
                  && db.runs[r].status == expected && !db.runs[r].cancelRequested
                  && !(same && expected == RunStatus.Running && !db.runs[r].pauseRequested))
            && (tx.reply == Done ==>
                  tx.db == db.(runs := db.runs[r := db.runs[r].(status := RunStatus.Running, pauseRequested := false)]))
            && (tx.reply != Done ==> tx.db == db)
  {
    if r in db.runs && db.runs[r].status == RunStatus.Running && !db.runs[r].pauseRequested {
      assert db.runs[r].(status := RunStatus.Running, pauseRequested := false) == db.runs[r];
    }
  }

  lemma PauseOutcome(db: Db, r: Id, owner: Id, now: int)
    ensures var tx := PauseRun(db, r, owner, now);
            && (tx.reply == Done <==> Owner(db, r, owner, now) && RunGoesOn(db, r))
            && (tx.reply == Done ==>
                  tx.db == db.(runs := db.runs[r := db.runs[r].(status := RunStatus.Paused, pauseRequested := false,
                                                                owner := None, lease := None)]))
            && (tx.reply != Done ==> tx.db == db)
  {
  }

  lemma CursorOutcome(db: Db, r: Id, artifact: Id, owner: Id, now: int)
    ensures var tx := UpdateRuntimeCursor(db, r, artifact, owner, now);
            && (tx.reply == Granted(true) <==>
                  Owner(db, r, owner, now) && RunGoesOn(db, r) && db.runs[r].cursor != Some(artifact))
            && tx.db == if Owner(db, r, owner, now) && RunGoesOn(db, r)
                        then db.(runs := db.runs[r := db.runs[r].(cursor := Some(artifact))]) else db
  {
  }

  // ---------------------------------------------------------------- runtime leases

  /** A run can be claimed while nobody else holds an unexpired lease on it. */
  predicate Vacant(run: Run, owner: Id, now: int) {
    && (run.status == RunStatus.Pending || run.status == RunStatus.Running) && !run.cancelRequested
    && (run.owner.None? || run.owner == Some(owner) || run.lease.None? || run.lease.value <= now)
  }

  /** Granted exactly if the run is vacant and the claim changes its row. */
  lemma ClaimRunOutcome(db: Db, r: Id, owner: Id, now: int, seconds: int)
    ensures var tx := ClaimRunLease(db, r, owner, now, seconds);
            && (tx.reply == Granted(true) <==>
                  0 < seconds && r in db.runs && Vacant(db.runs[r], owner, now) &&
                  !(db.runs[r].owner == Some(owner) && db.runs[r].lease == Some(now + seconds)))
            && (tx.reply == Granted(true) ==>
                  tx.db == db.(runs := db.runs[r := db.runs[r].(owner := Some(owner), lease := Some(now + seconds))]))
            && (tx.reply != Granted(true) ==> tx.db.runs == db.runs)
  {
    if r in db.runs && db.runs[r].owner == Some(owner) && db.runs[r].lease == Some(now + seconds) {
      assert db.runs[r].(owner := Some(owner), lease := Some(now + seconds)) == db.runs[r];
      assert db.runs[r := db.runs[r]] == db.runs;
    }
  }

  /** Orphan recovery frees exactly the runs that wait or go on under an expired lease. */
  lemma OrphanRunsOutcome(db: Db, now: int)
    ensures var d := RecoverOrphanRuns(db, now).db;
            && d == db.(runs := d.runs) && d.runs.Keys == db.runs.Keys
            && forall r :: r in db.runs ==>
                 var run := db.runs[r];
                 d.runs[r] ==
                   if (run.status == RunStatus.Pending || run.status == RunStatus.Running) &&
                      run.owner.Some? && run.lease.Some? && run.lease.value <= now
                   then run.(owner := None, lease := None) else run
  {
  }

  // ---------------------------------------------------------------- agent tasks

  predicate RunTakesAgents(db: Db, r: Id) {
    && r in db.runs && !db.runs[r].cancelRequested
    && (db.runs[r].status == RunStatus.Pending || db.runs[r].status == RunStatus.Running)
  }

  lemma ClaimTaskOutcome(db: Db, id: Id, now: int, seconds: int, token: Id)
    ensures var tx := ClaimAgentTask(db, id, now, seconds, token);
            && (tx.reply == Done <==>
                  && 0 < seconds && id in db.agentTasks && db.agentTasks[id].status == TaskStatus.Pending
                  && db.agentTasks[id].attempts < db.agentTasks[id].maxAttempts
                  && RunTakesAgents(db, db.agentTasks[id].runId))
            && (tx.reply != Done ==> tx.db == db)
            && (tx.reply == Done ==>
                  && id in tx.db.agentTasks && tx.db.agentTasks[id].status == TaskStatus.Claimed
                  && tx.db.agentTasks[id].token == Some(token) && tx.db.agentTasks[id].lease == Some(now + seconds)
                  && tx.db.agentTasks[id].attempts == db.agentTasks[id].attempts + 1
                  && OthersSame(db.agentTasks, tx.db.agentTasks, id))
  {
  }

  /** A claimed task whose lease has ended, or that has no lease and was not touched for too long. */
  predicate TaskAbandoned(t: AgentTask, now: int, orphanSeconds: int) {
    && t.status == TaskStatus.Claimed
    && (t.lease.Some? ==> t.lease.value <= now)
    && (t.lease.None? ==> t.updatedAt + orphanSeconds <= now)
  }

  predicate RunIsOver(db: Db, r: Id) {
    && r in db.runs
    && (db.runs[r].cancelRequested || db.runs[r].status == RunStatus.Completed ||
        db.runs[r].status == RunStatus.Failed || db.runs[r].status == RunStatus.Cancelled)
  }

  predicate TaskRecoveredRight(t: AgentTask, u: AgentTask, over: bool, now: int, orphanSeconds: int) {
    if !TaskAbandoned(t, now, orphanSeconds) then u == t
    else
      && u.token.None? && u.lease.None? && u.updatedAt == now && u.attempts == t.attempts && u.outputs == t.outputs
      && (u.status == TaskStatus.Cancelled <==> over)
      && (u.status == TaskStatus.Failed <==> !over && t.maxAttempts <= t.attempts)
      && (u.status == TaskStatus.Pending <==> !over && t.attempts < t.maxAttempts)
  }

  ghost predicate TasksRecovered(db: Db, d: Db, now: int, orphanSeconds: int) {
    d.agentTasks.Keys == db.agentTasks.Keys &&
    forall id {:trigger d.agentTasks[id]} :: id in db.agentTasks && db.agentTasks[id].runId in db.runs ==>
      TaskRecoveredRight(db.agentTasks[id], d.agentTasks[id], RunIsOver(db, db.agentTasks[id].runId), now, orphanSeconds)
  }

  lemma TaskRecoveryOutcome(db: Db, now: int, orphanSeconds: int)
    ensures var d := RecoverOrphanAgentTasks(db, now, orphanSeconds).db;
            TasksRecovered(db, d, now, orphanSeconds) && d == db.(agentTasks := d.agentTasks)
  {
  }
}
