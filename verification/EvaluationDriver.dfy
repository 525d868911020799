/**
 * One evaluation worker and the inline driver that waits for a set of jobs, as programs over
 * the store. Whatever the evaluator returns or raises, and whatever other jobs the queue
 * holds, the driver terminates with every awaited job settled.
 */
module EvaluationDriver {
  import opened Common
  import opened StoreModel
  import opened StoreInvariants
  import opened StoreSafety
  import StoreGuarantees
  import opened RuntimeStore
  import opened StoreHistory

  // ---------------------------------------------------------------- the worker

  /** What the evaluator does with a claimed job, and how long it takes. */
  datatype Outcome =
    | Evaluated(resultId: Id, result: Result, took: nat)
    | Raised(retryable: bool, took: nat)

  datatype Turn = Idle | Settled(id: Id) | Crashed(job: Id)

  /** The worker holds job `id`, and nothing else changed since `before`. */
  ghost predicate Holding(before: Db, db: Db, id: Id, w: Id, until: int) {
    && id in before.jobs && Unclaimed(before.jobs[id].status)
    && before.jobs[id].runId in before.runs && Active(before.runs[before.jobs[id].runId])
    && Inv(before) && Inv(db)
    && db == before.(jobs := before.jobs[id := ClaimedRow(before.jobs[id], w, until)])
  }

  /** The rows evaluate the same thing. */
  predicate SameWork(j: Job, k: Job) {
    && k.runId == j.runId && k.taskId == j.taskId && k.candidateId == j.candidateId
    && k.seed == j.seed && k.budget == j.budget && k.key == j.key
  }

  ghost predicate SameTasks(runs: map<Id, Run>, runs': map<Id, Run>) {
    runs'.Keys == runs.Keys && forall r :: r in runs ==> runs'[r].taskId == runs[r].taskId
  }

  /** One settled attempt at one claimable job of an active run; no other job changed. */
  ghost predicate TurnTaken(before: Db, after: Db, id: Id) {
    && id in before.jobs && Unclaimed(before.jobs[id].status)
    && after.jobs.Keys == before.jobs.Keys
    && (forall o :: o in before.jobs && o != id ==> after.jobs[o] == before.jobs[o])
    && after.jobs[id].attempts == before.jobs[id].attempts + 1
    && after.jobs[id].maxAttempts == before.jobs[id].maxAttempts && SameWork(before.jobs[id], after.jobs[id])
    && after.totals == before.totals && after.candidates == before.candidates && SameTasks(before.runs, after.runs)
    && (after.jobs[id].status.Success? || after.jobs[id].status.RetryWait? || after.jobs[id].status.Dead?)
    && SameControl(before.runs, after.runs)
  }

  lemma ClaimHolds(before: Db, w: Id, now: int, s: int)
    requires Inv(before) && ClaimNextJob(before, w, now, s, {}).reply.ClaimedJob?
    ensures var tx := ClaimNextJob(before, w, now, s, {});
            IsNext(before, tx.reply.id, now, {}) && Holding(before, tx.db, tx.reply.id, w, now + s)
  {
    hide Inv;
    var id := ClaimEffect(before, w, now, s, {});
    ClaimKeepsInv(before, w, now, s, {});
  }

  lemma ClaimIsIdleOrClaims(before: Db, w: Id, now: int, s: int)
    ensures var tx := ClaimNextJob(before, w, now, s, {});
            tx == Tx(before, NoWork) || tx.reply.ClaimedJob?
  {
  }

  lemma RenewHolds(before: Db, db: Db, id: Id, w: Id, until: int, now: int, s: int)
    requires Holding(before, db, id, w, until)
    ensures var tx := RenewJobLease(db, id, w, now, s);
            && (0 < s && now < until ==> tx.reply == Granted(true))
            && (tx.reply == Granted(true) ==> 0 < s && Holding(before, tx.db, id, w, now + s))
  {
    hide Inv;
    RenewKeepsInv(db, id, w, now, s);
    var tx := RenewJobLease(db, id, w, now, s);
    if tx.reply == Granted(true) {
      assert tx.db.jobs == before.jobs[id := ClaimedRow(before.jobs[id], w, now + s)];
    }
  }

  /** Why the store refuses the result of a job that its worker still holds, if it does. */
  function Refusal(db: Db, id: Id, rid: Id, res: Result): Option<Error>
    requires id in db.jobs
  {
    if res.runId != db.jobs[id].runId || res.candidateId != db.jobs[id].candidateId then Some(ResultMismatch)
    else if res.usedBudget < 0 || res.usedBudget > db.jobs[id].budget then Some(BadArgument)
    else if rid in db.results then Some(IdentityConflict)
    else None
  }

  /** The row a claimed and evaluated job ends up in. */
  function RowAfterTurn(
    db: Db, id: Id, w: Id, outcome: Outcome, retriesRejected: Error -> bool, later: int): Job
    requires id in db.jobs
  {
    var row := ClaimedRow(db.jobs[id], w, later);
    var failed := (retryable: bool) => FailedJob(row, retryable, RetryAt(row.attempts, later));
    match outcome
    case Raised(retryable, _) => failed(retryable)
    case Evaluated(rid, res, _) =>
      match Refusal(db, id, rid, res)
      case None => SettledJob(row, rid)
      case Some(e) => failed(retriesRejected(e))
  }

  /**
   * The row after a turn, given what the evaluator did, why the store refused the result if
   * it did, and whether that may be retried.
   */
  ghost predicate TurnRow(j: Job, k: Job, outcome: Outcome, refused: Option<Error>, retriesRejected: Error -> bool, later: int) {
    var retry := if outcome.Raised? then outcome.retryable else refused.Some? && retriesRejected(refused.value);
    && k.worker.None? && k.lease.None? && k.attempts == j.attempts + 1 && k.maxAttempts == j.maxAttempts
    && (k.status == JobStatus.Success <==> outcome.Evaluated? && refused.None?)
    && (k.status == JobStatus.Success ==> k.resultId == Some(outcome.resultId))
    && (k.status != JobStatus.Success ==>
          k.status == if retry && k.attempts < k.maxAttempts then JobStatus.RetryWait else JobStatus.Dead)
    && (k.status == JobStatus.RetryWait && j.attempts >= 0 ==> k.availableAt == later + 1_000_000 * Pow2(j.attempts))
  }

  lemma RowIsTurnRow(db: Db, id: Id, w: Id, outcome: Outcome, retriesRejected: Error -> bool, later: int)
    requires id in db.jobs
    ensures var refused := if outcome.Evaluated? then Refusal(db, id, outcome.resultId, outcome.result) else None;
            TurnRow(db.jobs[id], RowAfterTurn(db, id, w, outcome, retriesRejected, later), outcome, refused, retriesRejected, later)
  {
  }

  /** The store refuses a result for another candidate, an impossible budget, or a used id. */
  lemma RefusalIff(db: Db, id: Id, rid: Id, res: Result)
    requires id in db.jobs
    ensures Refusal(db, id, rid, res).None? <==>
            && res.runId == db.jobs[id].runId && res.candidateId == db.jobs[id].candidateId
            && 0 <= res.usedBudget <= db.jobs[id].budget && rid !in db.results
  {
  }

  lemma SuccessTakesTurn(before: Db, db: Db, id: Id, w: Id, until: int, rid: Id, res: Result, now: int)
    requires Holding(before, db, id, w, until) && now < until
    ensures var tx := CompleteJobSuccess(db, id, w, rid, res, now);
            && Inv(tx.db)
            && match Refusal(before, id, rid, res)
               case Some(e) => tx == Rollback(db, e)
               case None =>
                 && tx.reply == Done && TurnTaken(before, tx.db, id)
                 && tx.db.jobs[id] == SettledJob(ClaimedRow(before.jobs[id], w, now), rid)
                 && tx.db.results == before.results[rid := res]
  {
    hide Inv;
    SuccessKeepsInv(db, id, w, rid, res, now);
    HeldIsSettleable(before, db, id, w, until);
    if CompleteJobSuccess(db, id, w, rid, res, now).reply == Done {
      SuccessEffect(db, id, w, rid, res, now);
    }
  }

  lemma HeldIsSettleable(before: Db, db: Db, id: Id, w: Id, until: int)
    requires Holding(before, db, id, w, until)
    ensures JobRefs(db.runs, db.candidates, db.jobs[id])
    ensures !CandidateHasResult(db, db.jobs[id].candidateId)
    ensures db.runs[db.jobs[id].runId].reserved >= db.jobs[id].budget
  {
    assert JobRowOk(db.jobs[id]);
    StoreGuarantees.OpenJobHasNoResult(db, id);
    StoreGuarantees.ReservationCovers(db, id);
    assert JobRefs(db.runs, db.candidates, db.jobs[id]);
  }

  lemma FailureTakesTurn(before: Db, db: Db, id: Id, w: Id, until: int, retryable: bool, at: int, now: int)
    requires Holding(before, db, id, w, until) && now < until
    ensures var tx := CompleteJobFailure(db, id, w, retryable, at, now);
            && tx.reply == Done && Inv(tx.db) && TurnTaken(before, tx.db, id)
            && tx.db.jobs[id] == FailedJob(ClaimedRow(before.jobs[id], w, now), retryable, at)
            && tx.db.results == before.results
  {
    hide Inv;
    hide CompleteJobFailure;
    HeldIsSettleable(before, db, id, w, until);
    FailureKeepsInv(db, id, w, retryable, at, now);
    StoreGuarantees.FailureIff(db, id, w, retryable, at, now);
    FailureEffect(db, id, w, retryable, at, now);
  }

  /**
   * Claims a job, renews its lease, evaluates it, renews again and settles it: as a success,
   * or after a backoff or as dead when the evaluator or the settlement failed. `clock` is the
   * time at the claim; it advances while the evaluator works. A lost lease crashes the worker
   * and leaves its job running.
   */
  method RunOnce(
    store: Store, worker: Id, leaseTime: int, clock: int,
    evaluate: (Job, int) -> Outcome, retriesRejected: Error -> bool)
    returns (turn: Turn, later: int)
    requires store.Valid()
    modifies store
    ensures store.Valid() && clock <= later
    ensures turn.Idle? ==> later == clock && store.Content() == old(store.Content())
    ensures turn.Idle? <==> ClaimNextJob(old(store.Content()), worker, clock, leaseTime, {}).reply == NoWork
    ensures turn.Settled? ==>
              && IsNext(old(store.Content()), turn.id, clock, {})
              && TurnTaken(old(store.Content()), store.Content(), turn.id)
    ensures turn.Settled? ==>
              var row := ClaimedRow(old(store.jobs)[turn.id], worker, clock + leaseTime);
              var outcome := evaluate(row, clock);
              && later == clock + outcome.took
              && store.jobs[turn.id] ==
                 RowAfterTurn(old(store.Content()), turn.id, worker, outcome, retriesRejected, later)
              && store.results ==
                 if store.jobs[turn.id].status.Success?
                 then old(store.results)[outcome.resultId := outcome.result] else old(store.results)
    ensures 0 < leaseTime && (forall j, t :: evaluate(j, t).took < leaseTime) ==> !turn.Crashed?
  {
    hide Inv;
    hide Holding;
    hide TurnTaken;
    hide ClaimNextJob;
    hide RenewJobLease;
    hide CompleteJobSuccess;
    hide CompleteJobFailure;
    ghost var before := store.Content();
    later := clock;
    ClaimIsIdleOrClaims(before, worker, clock, leaseTime);
    var claim := store.ClaimNextJob(worker, clock, leaseTime, {});
    if claim == NoWork { return Idle, later; }
    var id := claim.id;
    ClaimHolds(before, worker, clock, leaseTime);

    RenewHolds(before, store.Content(), id, worker, later + leaseTime, later, leaseTime);
    var renewed := store.RenewJobLease(id, worker, later, leaseTime);
    if renewed != Granted(true) { return Crashed(id), later; }

    HeldJobRow(before, store.Content(), id, worker, later + leaseTime);
    var job := store.jobs[id];
    var outcome := evaluate(job, later);
    ghost var until := later + leaseTime;
    later := later + outcome.took;
    var retryable := false;
    match outcome {
      case Evaluated(resultId, result, _) =>
        RenewHolds(before, store.Content(), id, worker, until, later, leaseTime);
        renewed := store.RenewJobLease(id, worker, later, leaseTime);
        if renewed != Granted(true) { return Crashed(id), later; }
        until := later + leaseTime;
        SuccessTakesTurn(before, store.Content(), id, worker, until, resultId, result, later);
        var settled := store.CompleteJobSuccess(id, worker, resultId, result, later);
        if settled == Done { return Settled(id), later; }
        retryable := retriesRejected(settled.error);
      case Raised(retry, _) =>
        retryable := retry;
    }

    RenewHolds(before, store.Content(), id, worker, until, later, leaseTime);
    renewed := store.RenewJobLease(id, worker, later, leaseTime);
    if renewed != Granted(true) { return Crashed(id), later; }
    FailureTakesTurn(before, store.Content(), id, worker, later + leaseTime, retryable, RetryAt(job.attempts, later), later);
    var failed := store.CompleteJobFailure(id, worker, retryable, RetryAt(job.attempts, later), later);
    return Settled(id), later;
  }

  lemma HeldJobRow(before: Db, db: Db, id: Id, w: Id, until: int)
    requires Holding(before, db, id, w, until)
    ensures id in db.jobs && id in before.jobs && db.jobs[id] == ClaimedRow(before.jobs[id], w, until)
  {
  }

  // ---------------------------------------------------------------- claims left

  function AttemptsLeft(j: Job): int {
    if Live(j.status) then j.maxAttempts - j.attempts else 0
  }

  function AttemptsLeftColumn(jobs: map<Id, Job>): map<Id, int> {
    map id | id in jobs :: AttemptsLeft(jobs[id])
  }

  /** How often the jobs of the store can still be claimed without a crash. */
  ghost function ClaimsLeft(jobs: map<Id, Job>): int {
    Total(AttemptsLeftColumn(jobs))
  }

  lemma ClaimsLeftNonNegative(jobs: map<Id, Job>)
    requires RowsOk(jobs)
    ensures 0 <= ClaimsLeft(jobs)
  {
    forall id | id in jobs ensures 0 <= AttemptsLeft(jobs[id]) { assert JobRowOk(jobs[id]); }
    TotalNonNegative(AttemptsLeftColumn(jobs));
  }

  lemma TurnUsesClaim(before: Db, after: Db, id: Id)
    requires RowsOk(before.jobs) && TurnTaken(before, after, id)
    ensures ClaimsLeft(after.jobs) < ClaimsLeft(before.jobs)
  {
    assert JobRowOk(before.jobs[id]);
    var b, a := AttemptsLeftColumn(before.jobs), AttemptsLeftColumn(after.jobs);
    assert a == b[id := AttemptsLeft(after.jobs[id])];
    TotalUpdate(b, id, AttemptsLeft(after.jobs[id]));
  }

  // ---------------------------------------------------------------- waiting

  const MILLISECOND := 1_000

  predicate IsReady(j: Job, now: int) {
    Unclaimed(j.status) && j.availableAt <= now
  }

  /** The instant a wait need not pass: a job becomes ready, or a running lease ends. */
  function Deadline(j: Job, now: int): Option<int> {
    if Unclaimed(j.status) && now < j.availableAt then Some(j.availableAt)
    else if j.status.Running? then j.lease
    else None
  }

  predicate Known(jobs: map<Id, Job>, ids: seq<Id>) {
    forall i :: 0 <= i < |ids| ==> ids[i] in jobs
  }

  predicate AnyReady(jobs: map<Id, Job>, ids: seq<Id>, now: int)
    requires Known(jobs, ids)
  {
    exists i :: 0 <= i < |ids| && IsReady(jobs[ids[i]], now)
  }

  predicate AnyRunning(jobs: map<Id, Job>, ids: seq<Id>)
    requires Known(jobs, ids)
  {
    exists i :: 0 <= i < |ids| && jobs[ids[i]].status.Running?
  }

  predicate AllSettled(jobs: map<Id, Job>, ids: seq<Id>)
    requires Known(jobs, ids)
  {
    forall i :: 0 <= i < |ids| ==> !Live(jobs[ids[i]].status)
  }

  /** `d` is the least deadline of the first `n` jobs. */
  ghost predicate Earliest(jobs: map<Id, Job>, ids: seq<Id>, n: nat, now: int, d: Option<int>)
    requires Known(jobs, ids) && n <= |ids|
  {
    && (d.Some? ==> exists i :: 0 <= i < n && Deadline(jobs[ids[i]], now) == d)
    && forall i :: 0 <= i < n && Deadline(jobs[ids[i]], now).Some? ==>
         d.Some? && d.value <= Deadline(jobs[ids[i]], now).value
  }

  /** A job that waits for its time, or a lease that runs, ends at `until`. */
  predicate EndsAt(j: Job, now: int, until: int) {
    || ((j.status == JobStatus.Pending || j.status == JobStatus.RetryWait) && now < j.availableAt == until)
    || (j.status == JobStatus.Running && j.lease == Some(until))
  }

  /** The wait ends with the first of these ends, at the latest with a full poll, and takes at least a millisecond. */
  ghost predicate WaitRight(jobs: map<Id, Job>, ids: seq<Id>, maxPoll: int, now: int, delay: int)
    requires Known(jobs, ids)
  {
    && (forall i, until :: 0 <= i < |ids| && EndsAt(jobs[ids[i]], now, until) ==>
          1_000 <= delay <= Max(1_000, until - now) && delay <= Max(1_000, maxPoll))
    && (delay == maxPoll ||
        exists i, until :: 0 <= i < |ids| && EndsAt(jobs[ids[i]], now, until) && delay == Max(1_000, Min(maxPoll, until - now)))
  }

  lemma DeadlineIsEnd(j: Job, now: int)
    ensures forall until :: EndsAt(j, now, until) <==> Deadline(j, now) == Some(until)
    ensures IsReady(j, now) <==> (j.status == JobStatus.Pending || j.status == JobStatus.RetryWait) && j.availableAt <= now
  {
  }

  lemma EarliestWaitsRight(jobs: map<Id, Job>, ids: seq<Id>, maxPoll: int, now: int, d: Option<int>)
    requires Known(jobs, ids) && Earliest(jobs, ids, |ids|, now, d)
    ensures WaitRight(jobs, ids, maxPoll, now, if d.Some? then Max(MILLISECOND, Min(maxPoll, d.value - now)) else maxPoll)
  {
    hide Deadline;
    hide EndsAt;
    forall i | 0 <= i < |ids|
      ensures forall until :: EndsAt(jobs[ids[i]], now, until) <==> Deadline(jobs[ids[i]], now) == Some(until)
    {
      DeadlineIsEnd(jobs[ids[i]], now);
    }
    if d.Some? {
      var i :| 0 <= i < |ids| && Deadline(jobs[ids[i]], now) == d;
      assert EndsAt(jobs[ids[i]], now, d.value);
    }
  }

  /** The wait before the next poll; `None` stands for the driver error. */
  method WaitDelay(store: Store, ids: seq<Id>, inline: bool, maxPoll: int, now: int) returns (delay: Option<int>)
    requires Known(store.jobs, ids)
    ensures delay.None? <==> inline && (AnyReady(store.jobs, ids, now) || AnyRunning(store.jobs, ids))
    ensures delay.Some? && AnyReady(store.jobs, ids, now) ==> delay.value == maxPoll
    ensures delay.Some? && !AnyReady(store.jobs, ids, now) ==>
              exists d :: Earliest(store.jobs, ids, |ids|, now, d) &&
                delay.value == if d.Some? then Max(MILLISECOND, Min(maxPoll, d.value - now)) else maxPoll
    ensures delay.Some? && !AnyReady(store.jobs, ids, now) ==> WaitRight(store.jobs, ids, maxPoll, now, delay.value)
  {
    hide WaitRight;
    var ready, running := false, false;
    var earliest: Option<int> := None;
    for i := 0 to |ids|
      invariant ready <==> exists k :: 0 <= k < i && IsReady(store.jobs[ids[k]], now)
      invariant running <==> exists k :: 0 <= k < i && store.jobs[ids[k]].status.Running?
      invariant Earliest(store.jobs, ids, i, now, earliest)
    {
      var job := store.jobs[ids[i]];
      if IsReady(job, now) { ready := true; }
      if job.status.Running? { running := true; }
      var deadline := Deadline(job, now);
      if deadline.Some? && (earliest.None? || deadline.value < earliest.value) { earliest := deadline; }
    }
    if inline && (ready || running) { return None; }
    EarliestWaitsRight(store.jobs, ids, maxPoll, now, earliest);
    if ready || earliest.None? { return Some(maxPoll); }
    return Some(Max(MILLISECOND, Min(maxPoll, earliest.value - now)));
  }

  // ---------------------------------------------------------------- the driver

  datatype DriveResult = DriveResult(completed: bool, cancelled: bool, polls: int, claims: int) | DriverError

  /** The awaited jobs exist, belong to active runs, and nobody is evaluating them. */
  ghost predicate Drivable(db: Db, ids: seq<Id>) {
    && Known(db.jobs, ids)
    && forall i :: 0 <= i < |ids| ==>
         db.jobs[ids[i]].runId in db.runs && Active(db.runs[db.jobs[ids[i]].runId]) &&
         !db.jobs[ids[i]].status.Running?
  }

  lemma TurnKeepsDrivable(before: Db, after: Db, id: Id, ids: seq<Id>)
    requires Drivable(before, ids) && TurnTaken(before, after, id)
    ensures Drivable(after, ids)
  {
    forall i | 0 <= i < |ids|
      ensures ids[i] in after.jobs && !after.jobs[ids[i]].status.Running?
      ensures after.jobs[ids[i]].runId in after.runs && Active(after.runs[after.jobs[ids[i]].runId])
    {
      assert after.jobs[ids[i]].runId == before.jobs[ids[i]].runId;
    }
  }

  /** A worker that finds nothing to claim leaves no awaited job ready. */
  lemma IdleMeansNotReady(db: Db, ids: seq<Id>, w: Id, now: int, s: int)
    requires Drivable(db, ids) && ClaimNextJob(db, w, now, s, {}).reply == NoWork
    ensures !AnyReady(db.jobs, ids, now)
  {
    forall i | 0 <= i < |ids| ensures !IsReady(db.jobs[ids[i]], now) {
      if IsReady(db.jobs[ids[i]], now) {
        NextExists(db, ids[i], now);
      }
    }
  }

  lemma {:induction false} FirstClaimable(db: Db, s: set<Id>, now: int) returns (m: Id)
    requires s != {} && s <= db.jobs.Keys
    ensures m in s && forall o :: o in s ==> ComesFirst(db, m, o)
    decreases |s|
  {
    var first :| first in s;
    m := first;
    var rest := s - {first};
    if rest != {} {
      var n := FirstClaimable(db, rest, now);
      if !ComesFirst(db, first, n) { m := n; }
      forall o | o in s ensures ComesFirst(db, m, o) {
        if o != first { assert o in rest; }
      }
    } else {
      assert s == {first};
    }
  }

  lemma NextExists(db: Db, id: Id, now: int)
    requires Claimable(db, id, now)
    ensures exists n :: IsNext(db, n, now, {})
  {
    var s := set o | o in db.jobs && Claimable(db, o, now);
    assert id in s;
    var m := FirstClaimable(db, s, now);
    assert IsNext(db, m, now, {}) by {
      forall o | Claimable(db, o, now) ensures ComesFirst(db, m, o) { assert o in s; }
    }
  }

  /** The latest instant at which one of the first `n` jobs becomes available. */
  function LastAvailable(jobs: map<Id, Job>, ids: seq<Id>, n: nat): int
    requires Known(jobs, ids) && n <= |ids|
  {
    if n == 0 then 0
    else Max(LastAvailable(jobs, ids, n - 1), jobs[ids[n - 1]].availableAt)
  }

  lemma {:induction false} AvailableByThen(jobs: map<Id, Job>, ids: seq<Id>, n: nat, i: nat)
    requires Known(jobs, ids) && i < n <= |ids|
    ensures jobs[ids[i]].availableAt <= LastAvailable(jobs, ids, n)
  {
    if i < n - 1 { AvailableByThen(jobs, ids, n - 1, i); }
  }

  /** While some awaited job is neither settled, running nor ready, one becomes ready later. */
  lemma MoreToWaitFor(jobs: map<Id, Job>, ids: seq<Id>, now: int)
    requires Known(jobs, ids) && !AllSettled(jobs, ids) && !AnyReady(jobs, ids, now) && !AnyRunning(jobs, ids)
    ensures now < LastAvailable(jobs, ids, |ids|)
  {
    var i: nat :| i < |ids| && Live(jobs[ids[i]].status);
    assert !IsReady(jobs[ids[i]], now);
    AvailableByThen(jobs, ids, |ids|, i);
  }

  ghost function WorkLeft(db: Db, ids: seq<Id>, now: int): int
    requires Known(db.jobs, ids)
  {
    2 * ClaimsLeft(db.jobs) + if AnyReady(db.jobs, ids, now) then 0 else 1
  }

  /**
   * Inline driving terminates without a driver error: completed with every awaited job
   * settled, or cancelled because the control check said so. The control check answers
   * `control(n)` at its n-th call. Each claim probe uses up work, so their number is bounded
   * by the claims the store could still grant.
   */
  method Drive(
    store: Store, ids: seq<Id>, worker: Id, leaseTime: int, maxPoll: int, start: int,
    evaluate: (Job, int) -> Outcome, retriesRejected: Error -> bool, control: nat -> bool)
    returns (result: DriveResult, clock: int)
    requires store.Valid() && Drivable(store.Content(), ids)
    requires 0 < maxPoll && 0 < leaseTime && forall j, t :: evaluate(j, t).took < leaseTime
    modifies store
    ensures store.Valid() && Drivable(store.Content(), ids)
    ensures result.DriveResult? && result.completed == !result.cancelled
    ensures result.completed ==> AllSettled(store.jobs, ids)
    ensures (forall n :: control(n)) ==> result.completed
    ensures result.claims <= 2 * ClaimsLeft(old(store.jobs)) + 1
    ensures WorkDone(old(store.Content()), store.Content())
  {
    hide Inv;
    hide TurnTaken;
    hide WorkDone;
    clock := start;
    NoWorkDone(store.Content());
    if ids == [] {
      ClaimsLeftOfStore(store.Content());
      return DriveResult(true, false, 0, 0), clock;
    }
    var polls, claims, checks := 0, 0, 0;
    ClaimsLeftOfStore(store.Content());
    while true
      invariant store.Valid() && Drivable(store.Content(), ids) && 0 <= ClaimsLeft(store.jobs)
      invariant WorkDone(old(store.Content()), store.Content())
      invariant claims + WorkLeft(store.Content(), ids, clock) <= 2 * old(ClaimsLeft(store.jobs)) + 1
      decreases WorkLeft(store.Content(), ids, clock)
    {
      var goOn := control(checks);
      checks := checks + 1;
      if !goOn { return DriveResult(false, true, polls, claims), clock; }
      if AllSettled(store.jobs, ids) { return DriveResult(true, false, polls, claims), clock; }
      claims := claims + 1;
      ghost var before := store.Content();
      var turn, later := RunOnce(store, worker, leaseTime, clock, evaluate, retriesRejected);
      clock := later;
      if turn.Settled? {
        RowsOfStore(before);
        TurnUsesClaim(before, store.Content(), turn.id);
        TurnIsWork(old(store.Content()), before, store.Content(), turn.id);
        TurnKeepsDrivable(before, store.Content(), turn.id, ids);
        ClaimsLeftOfStore(store.Content());
        continue;
      }
      IdleMeansNotReady(before, ids, worker, clock, leaseTime);
      assert !AnyRunning(store.jobs, ids);
      while true
        invariant store.Content() == before && !AnyReady(store.jobs, ids, clock)
        invariant !AllSettled(store.jobs, ids) && !AnyRunning(store.jobs, ids)
        decreases LastAvailable(store.jobs, ids, |ids|) - clock
      {
        MoreToWaitFor(store.jobs, ids, clock);
        var delay := WaitDelay(store, ids, true, maxPoll, clock);
        if delay.None? { return DriverError, clock; }
        polls := polls + 1;
        clock := clock + delay.value;
        goOn := control(checks);
        checks := checks + 1;
        if !goOn { return DriveResult(false, true, polls, claims), clock; }
        if AllSettled(store.jobs, ids) { return DriveResult(true, false, polls, claims), clock; }
        if AnyReady(store.jobs, ids, clock) { break; }
      }
    }
  }

  /**
   * What driving may have done: attempts at claimable jobs, each of them settled. No job or
   * run changed its identity, no settled job changed, and none is left running.
   */
  ghost predicate WorkDone(before: Db, after: Db) {
    && after.totals == before.totals && after.candidates == before.candidates
    && SameTasks(before.runs, after.runs) && SameControl(before.runs, after.runs)
    && after.jobs.Keys == before.jobs.Keys
    && forall id {:trigger after.jobs[id]} :: id in before.jobs ==> RowDone(before.jobs[id], after.jobs[id])
  }

  predicate RowDone(j: Job, k: Job) {
    SameWork(j, k) && (!Live(j.status) ==> k == j) && (k.status.Running? ==> j.status.Running?)
  }

  lemma NoWorkDone(db: Db)
    ensures WorkDone(db, db)
  {
  }

  lemma TurnIsWork(start: Db, before: Db, after: Db, id: Id)
    requires WorkDone(start, before) && TurnTaken(before, after, id)
    ensures WorkDone(start, after)
  {
    forall o | o in start.jobs ensures RowDone(start.jobs[o], after.jobs[o]) {
      assert RowDone(start.jobs[o], before.jobs[o]);
    }
  }

  lemma RowsOfStore(db: Db)
    requires Inv(db)
    ensures RowsOk(db.jobs)
  {
  }

  lemma ClaimsLeftOfStore(db: Db)
    requires Inv(db)
    ensures 0 <= ClaimsLeft(db.jobs)
  {
    ClaimsLeftNonNegative(db.jobs);
  }
}
