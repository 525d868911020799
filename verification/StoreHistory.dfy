/**
 * Properties of whole histories of evaluation jobs: they are claimed boundedly and settled
 * once, by their latest claimer; waiting is bounded; submitting again finds the first job.
 */
module StoreHistory {
  import opened Common
  import opened StoreModel
  import opened StoreInvariants
  import opened StoreSafety
  import opened StoreGuarantees

  // ---------------------------------------------------------------- the log of one job

  /** What a history did to one evaluation job. */
  datatype JobLog = JobLog(
    claims: nat, lastClaimer: Option<Id>, successes: nat, charged: int, backoff: int)

  const NO_LOG := JobLog(0, None, 0, 0, 0)

  const SECOND := 1_000_000

  function LogMove(log: JobLog, db: Db, a: Action, reply: Reply, id: Id): JobLog
    requires id in db.jobs
  {
    match MoveOf(db, a, reply, id)
    case Claims(w) => log.(claims := log.claims + 1, lastClaimer := Some(w))
    case Succeeds => log.(successes := log.successes + 1, charged := log.charged + a.result.usedBudget)
    case Fails =>
      if FailedJob(db.jobs[id], a.retryable, a.availableAt).status.RetryWait?
      then log.(backoff := log.backoff + (a.availableAt - a.now)) else log
    case _ => log
  }

  function LogOf(h: seq<Entry>, id: Id): JobLog {
    if h == [] then NO_LOG
    else
      var k := |h| - 1;
      var db := Now(h[..k]);
      if id in db.jobs then LogMove(LogOf(h[..k], id), db, h[k].action, h[k].reply, id)
      else LogOf(h[..k], id)
  }

  /** The row agrees with its log. */
  predicate LogAgrees(j: Job, log: JobLog) {
    && log.claims == j.attempts
    && (j.status.Running? ==> log.lastClaimer == j.worker)
    && log.successes == (if j.status.Success? then 1 else 0)
    && 0 <= log.charged <= (if j.status.Success? then j.budget else 0)
  }

  lemma NewJobIsFresh(db: Db, a: Action, id: Id)
    requires id !in db.jobs && id in Apply(db, a).db.jobs
    ensures a.DoEnqueue? && Apply(db, a).db.jobs[id] == FreshJob(a.job)
  {
    if a.DoEnqueue? {
      EnqueueIsNew(db, a.job);
    } else {
      OnlyEnqueueAddsJobs(db, a, id);
    }
  }

  lemma ChargeWithinBudget(db: Db, a: Action, id: Id)
    requires id in db.jobs && MoveOf(db, a, Apply(db, a).reply, id).Succeeds?
    ensures a.DoSucceed? && 0 <= a.result.usedBudget <= db.jobs[id].budget
  {
    SuccessEffect(db, id, a.worker, a.resultId, a.result, a.now);
  }

  lemma LogStep(db: Db, a: Action, id: Id, log: JobLog)
    requires Inv(db) && id in db.jobs && LogAgrees(db.jobs[id], log)
    ensures id in Apply(db, a).db.jobs && LogAgrees(Apply(db, a).db.jobs[id], LogMove(log, db, a, Apply(db, a).reply, id))
  {
    hide Apply;
    MoveEffect(db, a, id);
    assert JobRowOk(db.jobs[id]);
    if MoveOf(db, a, Apply(db, a).reply, id).Succeeds? { ChargeWithinBudget(db, a, id); }
  }

  lemma {:induction false} HistoryAgrees(h: seq<Entry>, id: Id)
    requires History(h)
    ensures id !in Now(h).jobs ==> LogOf(h, id) == NO_LOG
    ensures id in Now(h).jobs ==> LogAgrees(Now(h).jobs[id], LogOf(h, id))
  {
    hide Apply;
    if h != [] {
      var k := |h| - 1;
      var db := Now(h[..k]);
      LastStep(h);
      HistoryAgrees(h[..k], id);
      ReachableInv(h[..k]);
      if id in db.jobs {
        LogStep(db, h[k].action, id, LogOf(h[..k], id));
      } else if id in Now(h).jobs {
        NewJobIsFresh(db, h[k].action, id);
      }
    }
  }

  /**
   * Although a claim never looks at the attempt counter, no history claims a job more often
   * than its `max_attempts`.
   */
  lemma ClaimsBounded(h: seq<Entry>, id: Id)
    requires History(h) && id in Now(h).jobs
    ensures LogOf(h, id).claims <= Now(h).jobs[id].maxAttempts
    ensures forall now :: Claimable(Now(h), id, now) ==> LogOf(h, id).claims < Now(h).jobs[id].maxAttempts
  {
    ReachableInv(h);
    HistoryAgrees(h, id);
    assert JobRowOk(Now(h).jobs[id]);
  }

  /** A job settles successfully at most once, and only then is its budget charged. */
  lemma SettledOnce(h: seq<Entry>, id: Id)
    requires History(h) && id in Now(h).jobs
    ensures LogOf(h, id).successes <= 1
    ensures LogOf(h, id).successes == 1 <==> CandidateHasResult(Now(h), Now(h).jobs[id].candidateId)
    ensures LogOf(h, id).successes == 0 ==> LogOf(h, id).charged == 0
    ensures 0 <= LogOf(h, id).charged <= Now(h).jobs[id].budget
  {
    ReachableInv(h);
    HistoryAgrees(h, id);
    ExactlyOnce(Now(h), id, id);
    assert JobRowOk(Now(h).jobs[id]);
  }

  /** A worker that is no longer the latest claimer can neither renew nor settle. */
  lemma SupersededIsFencedOut(h: seq<Entry>, id: Id, w: Id)
    requires History(h) && id in Now(h).jobs
    requires LogOf(h, id).lastClaimer != Some(w) || !Now(h).jobs[id].status.Running?
    ensures forall rid, res, now :: CompleteJobSuccess(Now(h), id, w, rid, res, now).reply == Rejected(LeaseLost)
    ensures forall retryable, at, now ::
              CompleteJobFailure(Now(h), id, w, retryable, at, now).reply == Rejected(LeaseLost)
    ensures forall now, s :: RenewJobLease(Now(h), id, w, now, s).reply != Granted(true)
  {
    HistoryAgrees(h, id);
  }

  /**
   * The fence compares worker ids, so after another claim of the job an otherwise valid
   * settlement by the earlier claimer goes through exactly when both used the same id.
   */
  lemma FenceNeedsDistinctIds(
    db: Db, id: Id, earlier: Id, later: Id, now: int, seconds: int, locked: set<Id>,
    rid: Id, res: Result, settleAt: int)
    requires Inv(db) && ClaimNextJob(db, later, now, seconds, locked).reply == ClaimedJob(id)
    requires id in db.jobs && settleAt < now + seconds && rid !in db.results
    requires res.runId == db.jobs[id].runId && res.candidateId == db.jobs[id].candidateId
    requires 0 <= res.usedBudget <= db.jobs[id].budget
    ensures CompleteJobSuccess(ClaimNextJob(db, later, now, seconds, locked).db,
                               id, earlier, rid, res, settleAt).reply == Done
            <==> earlier == later
  {
    var i := ClaimEffect(db, later, now, seconds, locked);
    var d := ClaimNextJob(db, later, now, seconds, locked).db;
    ClaimKeepsInv(db, later, now, seconds, locked);
    SuccessIff(d, id, earlier, rid, res, settleAt);
  }

  // ---------------------------------------------------------------- submitting again

  /** What a job evaluates never changes, and its row never goes away. */
  lemma {:induction false} JobKeepsIdentity(h: seq<Entry>, g: seq<Entry>, id: Id, n: NewJob)
    requires History(h + g) && id in Now(h).jobs && SameIdentity(Now(h).jobs[id], n)
    ensures id in Now(h + g).jobs && SameIdentity(Now(h + g).jobs[id], n)
  {
    hide Apply;
    if g == [] {
      assert h + g == h;
    } else {
      var k := |g| - 1;
      var db := Now(h + g[..k]);
      ContinuationStep(h, g);
      JobKeepsIdentity(h, g[..k], id, n);
      MoveEffect(db, g[k].action, id);
      MoveKeepsIdentity(db, g[k].action, g[k].reply, id, Now(h + g).jobs[id]);
    }
  }

  /** The answer to an enqueue for a candidate that has its job already. */
  lemma AnotherEnqueue(db: Db, id: Id, n: NewJob)
    requires Inv(db) && id in db.jobs && db.jobs[id].candidateId == n.candidateId
    requires n.runId in db.runs && n.taskId in db.totals && n.candidateId in db.candidates
    requires db.runs[n.runId].taskId == n.taskId && db.candidates[n.candidateId] == n.runId && Active(db.runs[n.runId])
    ensures EnqueueJob(db, n) ==
            Tx(db, if SameIdentity(db.jobs[id], n) then Duplicate(id) else Rejected(IdentityConflict))
  {
    forall o | o in JobsOfCandidate(db, n.candidateId) ensures o == id {
      assert Clash(db.jobs[o], db.jobs[id]);
    }
    assert JobsOfCandidate(db, n.candidateId) == {id};
    assert forall o :: JobsOfCandidate(db, n.candidateId) == {o} ==> o in {id};
    assert JobRefs(db.runs, db.candidates, db.jobs[id]);
  }

  /**
   * Submitting the same logical evaluation again - under another job id, with other retry
   * settings, after any number of crashes, retries and settlements - finds the first job and
   * reserves nothing, as long as its run is active.
   */
  lemma SubmitIsIdempotent(h: seq<Entry>, e: Entry, g: seq<Entry>, n: NewJob)
    requires History(h + [e] + g) && e.action.DoEnqueue? && e.reply == Done && SameIdentity(FreshJob(e.action.job), n)
    requires RunActive(Now(h + [e] + g), n.runId)
    ensures EnqueueJob(Now(h + [e] + g), n) == Tx(Now(h + [e] + g), Duplicate(e.action.job.id))
  {
    hide Apply;
    hide EnqueueJob;
    var h' := h + [e];
    PrefixIsHistory(h' + g, |h'|);
    assert (h' + g)[..|h'|] == h';
    LastStep(h');
    assert h'[..|h'| - 1] == h;
    EnqueuedJobIsThere(Now(h), e.action);
    JobKeepsIdentity(h', g, e.action.job.id, n);
    ReachableInv(h' + g);
    var db := Now(h' + g);
    assert JobRefs(db.runs, db.candidates, db.jobs[e.action.job.id]);
    assert Balanced(db.totals, db.runs[n.runId], n.runId, db.jobs, db.results);
    AnotherEnqueue(db, e.action.job.id, n);
  }

  lemma EnqueuedJobIsThere(db: Db, a: Action)
    requires a.DoEnqueue? && Apply(db, a).reply == Done
    ensures a.job.id in Apply(db, a).db.jobs && Apply(db, a).db.jobs[a.job.id] == FreshJob(a.job)
  {
    EnqueueIsNew(db, a.job);
  }

  // ---------------------------------------------------------------- backoff

  /** When a worker that fails a job on its `attempts`-th attempt lets it be claimed again. */
  function RetryAt(attempts: int, now: int): int {
    now + SECOND * Pow2(if attempts >= 1 then attempts - 1 else 0)
  }

  /** One second after the first attempt, and twice as long after each further one. */
  lemma BackoffDoubles(attempts: int, now: int)
    requires attempts >= 1
    ensures RetryAt(1, now) == now + 1_000_000
    ensures RetryAt(attempts + 1, now) - now == 2 * (RetryAt(attempts, now) - now)
  {
    assert Pow2(0) == 1;
  }

  ghost predicate BacksOff(db: Db, a: Action) {
    a.DoFail? && a.id in db.jobs ==> a.availableAt == RetryAt(db.jobs[a.id].attempts, a.now)
  }

  ghost predicate AllBackOff(h: seq<Entry>) {
    forall i {:trigger BacksOff(Now(h[..i]), h[i].action)} :: 0 <= i < |h| ==>
      BacksOff(Now(h[..i]), h[i].action)
  }

  lemma PrefixBacksOff(h: seq<Entry>)
    requires AllBackOff(h) && h != []
    ensures AllBackOff(h[..|h| - 1]) && BacksOff(Now(h[..|h| - 1]), h[|h| - 1].action)
  {
    var k := |h| - 1;
    forall i | 0 <= i < k ensures BacksOff(Now(h[..k][..i]), h[..k][i].action) {
      assert h[..k][..i] == h[..i];
      assert BacksOff(Now(h[..i]), h[i].action);
    }
    assert BacksOff(Now(h[..k]), h[k].action);
  }

  /** The sum of the first `n` delays. */
  function DelaySum(n: nat): int {
    SECOND * (Pow2(n) - 1)
  }

  lemma NextDelay(n: nat)
    ensures DelaySum(n) + SECOND * Pow2(n) == DelaySum(n + 1)
  {
    assert Pow2(n + 1) == 2 * Pow2(n);
  }

  lemma {:induction false} DelaySumGrows(m: nat, n: nat)
    requires m <= n
    ensures DelaySum(m) <= DelaySum(n)
    decreases n
  {
    if m < n {
      DelaySumGrows(m, n - 1);
      NextDelay(n - 1);
    }
  }

  /** How many delays the row can have seen. */
  function DelaysSeen(j: Job): int {
    if j.status.Running? then j.attempts - 1
    else if Unclaimed(j.status) then j.attempts
    else j.maxAttempts - 1
  }

  predicate BackoffAgrees(j: Job, log: JobLog) {
    0 <= DelaysSeen(j) < j.maxAttempts && log.backoff <= DelaySum(DelaysSeen(j))
  }

  lemma BackoffStep(db: Db, a: Action, id: Id, log: JobLog)
    requires Inv(db) && id in db.jobs && BackoffAgrees(db.jobs[id], log) && BacksOff(db, a)
    ensures id in Apply(db, a).db.jobs && BackoffAgrees(Apply(db, a).db.jobs[id], LogMove(log, db, a, Apply(db, a).reply, id))
  {
    MoveEffect(db, a, id);
    var j, k := db.jobs[id], Apply(db, a).db.jobs[id];
    assert JobRowOk(j);
    if MoveOf(db, a, Apply(db, a).reply, id).Fails? {
      FailBackoff(j, log, a.retryable, a.availableAt, a.now);
    } else {
      OtherBackoff(db, a, id, k);
      DelaySumGrows(DelaysSeen(j), DelaysSeen(k));
    }
  }

  lemma FailBackoff(j: Job, log: JobLog, retryable: bool, at: int, now: int)
    requires JobRowOk(j) && j.status.Running? && BackoffAgrees(j, log)
    requires at == now + SECOND * Pow2(j.attempts - 1)
    ensures var k := FailedJob(j, retryable, at);
            BackoffAgrees(k, if k.status.RetryWait? then log.(backoff := log.backoff + (at - now)) else log)
  {
    NextDelay(j.attempts - 1);
    DelaySumGrows(j.attempts - 1, j.maxAttempts - 1);
  }

  lemma OtherBackoff(db: Db, a: Action, id: Id, k: Job)
    requires id in db.jobs && JobRowOk(db.jobs[id])
    requires Moved(db, a, Apply(db, a).reply, id, k) && !MoveOf(db, a, Apply(db, a).reply, id).Fails?
    ensures DelaysSeen(db.jobs[id]) <= DelaysSeen(k) < k.maxAttempts
  {
  }

  lemma {:induction false} BackoffHistory(h: seq<Entry>, id: Id)
    requires History(h) && AllBackOff(h)
    ensures id in Now(h).jobs ==> BackoffAgrees(Now(h).jobs[id], LogOf(h, id))
  {
    hide Apply;
    if h != [] {
      var k := |h| - 1;
      var db := Now(h[..k]);
      LastStep(h);
      PrefixBacksOff(h);
      BackoffHistory(h[..k], id);
      ReachableInv(h[..k]);
      if id in db.jobs {
        BackoffStep(db, h[k].action, id, LogOf(h[..k], id));
      } else if id in Now(h).jobs {
        HistoryAgrees(h[..k], id);
        NewJobBackoff(db, h[k].action, id);
      }
    }
  }

  lemma NewJobBackoff(db: Db, a: Action, id: Id)
    requires id !in db.jobs && id in Apply(db, a).db.jobs
    ensures BackoffAgrees(Apply(db, a).db.jobs[id], NO_LOG)
  {
    NewJobIsFresh(db, a, id);
    EnqueueIsNew(db, a.job);
    assert DelaySum(0) == 0;
  }

  /** All the waiting a job is ever sent into, retries and crashes in any order. */
  lemma BackoffBounded(h: seq<Entry>, id: Id)
    requires History(h) && AllBackOff(h) && id in Now(h).jobs
    ensures Now(h).jobs[id].maxAttempts >= 1
    ensures LogOf(h, id).backoff <= SECOND * (Pow2(Now(h).jobs[id].maxAttempts - 1) - 1)
  {
    hide Apply;
    BackoffHistory(h, id);
    AgreesBounds(Now(h).jobs[id], LogOf(h, id));
  }

  lemma AgreesBounds(j: Job, log: JobLog)
    requires BackoffAgrees(j, log)
    ensures j.maxAttempts >= 1 && log.backoff <= SECOND * (Pow2(j.maxAttempts - 1) - 1)
  {
    DelaySumGrows(DelaysSeen(j), j.maxAttempts - 1);
  }
}
