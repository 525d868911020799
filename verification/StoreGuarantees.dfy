/**
 * What the invariant means for callers: when transactions succeed, how runs and jobs may
 * change status, and that a cancelled run only drains.
 */
module StoreGuarantees {
  import opened Common
  import opened StoreModel
  import opened StoreInvariants
  import opened StoreSafety

  /** The last transaction of a continuation. */
  lemma ContinuationStep(h: seq<Entry>, g: seq<Entry>)
    requires History(h + g) && g != []
    ensures History(h + g[..|g| - 1]) && Inv(Now(h + g[..|g| - 1]))
    ensures Apply(Now(h + g[..|g| - 1]), g[|g| - 1].action) == Tx(Now(h + g), g[|g| - 1].reply)
  {
    hide Apply;
    assert (h + g)[..|h + g| - 1] == h + g[..|g| - 1];
    LastStep(h + g);
    ReachableInv(h + g[..|g| - 1]);
  }

  // ---------------------------------------------------------------- the ledger never refuses

  /** A live job's budget is still reserved, and no reservation is negative. */
  lemma ReservationCovers(db: Db, id: Id)
    requires Inv(db) && id in db.jobs && Live(db.jobs[id].status)
    ensures db.jobs[id].runId in db.runs
    ensures db.runs[db.jobs[id].runId].reserved >= db.jobs[id].budget > 0
  {
    var r := db.jobs[id].runId;
    assert JobRefs(db.runs, db.candidates, db.jobs[id]) && JobRowOk(db.jobs[id]);
    assert Balanced(db.totals, db.runs[r], r, db.jobs, db.results);
    LiveBudgetBounds(db.jobs, r);
  }

  /** While a job is open its candidate has no result. */
  lemma OpenJobHasNoResult(db: Db, id: Id)
    requires Inv(db) && id in db.jobs && db.jobs[id].resultId.None?
    ensures !CandidateHasResult(db, db.jobs[id].candidateId)
  {
    forall rid | rid in db.results && db.results[rid].candidateId == db.jobs[id].candidateId
      ensures false
    {
      assert Settled(db.jobs, db.results, rid);
      var o :| Settles(db.jobs, db.results, rid, o);
      assert Clash(db.jobs[o], db.jobs[id]);
    }
  }

  predicate RunActive(db: Db, r: Id) {
    r in db.runs && Active(db.runs[r])
  }

  /**
   * A success settles exactly when its worker holds an unexpired lease on a job of an active
   * run and reports a matching, affordable result under an unused result id. The guards on
   * the reservation and on a second result for the candidate never decide.
   */
  lemma SuccessIff(db: Db, id: Id, w: Id, rid: Id, res: Result, now: int)
    requires Inv(db)
    ensures CompleteJobSuccess(db, id, w, rid, res, now).reply == Done <==>
            && HoldsJob(db, id, w, now) && RunActive(db, db.jobs[id].runId)
            && res.runId == db.jobs[id].runId && res.candidateId == db.jobs[id].candidateId
            && 0 <= res.usedBudget <= db.jobs[id].budget && rid !in db.results
  {
    if HoldsJob(db, id, w, now) {
      var j := db.jobs[id];
      assert JobRowOk(j) && JobRefs(db.runs, db.candidates, j);
      OpenJobHasNoResult(db, id);
      ReservationCovers(db, id);
    }
  }

  /** A failure settles exactly when its worker holds the lease on a job of an active run. */
  lemma FailureIff(db: Db, id: Id, w: Id, retryable: bool, at: int, now: int)
    requires Inv(db)
    ensures CompleteJobFailure(db, id, w, retryable, at, now).reply == Done <==>
            HoldsJob(db, id, w, now) && RunActive(db, db.jobs[id].runId)
  {
    if HoldsJob(db, id, w, now) {
      assert JobRefs(db.runs, db.candidates, db.jobs[id]);
      ReservationCovers(db, id);
    }
  }

  /** Completion depends on the lease and the control flags only; its ledger check always holds. */
  lemma CompleteIff(db: Db, r: Id, o: Id, now: int, g: nat, best: Id)
    requires Inv(db)
    ensures CompleteRun(db, r, o, now, g, best).reply == Done <==>
            OwnsRun(db, r, o, now) && Active(db.runs[r]) && !db.runs[r].pauseRequested
  {
    if r in db.runs { StopReleasesReservation(db, r); }
  }

  lemma FailRunIff(db: Db, r: Id, now: int, o: Option<Id>)
    requires Inv(db)
    ensures FailRun(db, r, now, o).reply == Done <==>
            && FencedBy(db, r, o, now) && !db.runs[r].cancelRequested
            && (db.runs[r].status.Pending? || db.runs[r].status.Running?)
  {
    if r in db.runs { StopReleasesReservation(db, r); }
  }

  lemma CancelIff(db: Db, r: Id, now: int)
    requires Inv(db)
    ensures RequestRunCancel(db, r, now).reply == Done <==> r in db.runs && !Terminal(db.runs[r].status)
  {
    if r in db.runs { CancelReleasesAtMost(db, r); }
  }

  /** A SUCCESS job has its one result; a candidate has at most one job and one result. */
  lemma ExactlyOnce(db: Db, a: Id, b: Id)
    requires Inv(db)
    ensures a in db.jobs && b in db.jobs && db.jobs[a].candidateId == db.jobs[b].candidateId ==> a == b
    ensures (a in db.results && b in db.results &&
             db.results[a].candidateId == db.results[b].candidateId) ==> a == b
    ensures a in db.jobs ==>
              (db.jobs[a].status.Success? <==> CandidateHasResult(db, db.jobs[a].candidateId))
  {
    if a in db.jobs && b in db.jobs && db.jobs[a].candidateId == db.jobs[b].candidateId {
      assert Clash(db.jobs[a], db.jobs[b]);
    }
    if a in db.results && b in db.results && db.results[a].candidateId == db.results[b].candidateId {
      SettledTwice(db, a, b);
    }
    if a in db.jobs {
      assert JobRowOk(db.jobs[a]);
      if db.jobs[a].status.Success? {
        assert Settles(db.jobs, db.results, db.jobs[a].resultId.value, a);
      } else {
        OpenJobHasNoResult(db, a);
      }
    }
  }

  lemma SettledTwice(db: Db, a: Id, b: Id)
    requires Inv(db) && a in db.results && b in db.results
    requires db.results[a].candidateId == db.results[b].candidateId
    ensures a == b
  {
    assert Settled(db.jobs, db.results, a) && Settled(db.jobs, db.results, b);
    var i :| Settles(db.jobs, db.results, a, i);
    var j :| Settles(db.jobs, db.results, b, j);
    assert Clash(db.jobs[i], db.jobs[j]);
  }

  // ---------------------------------------------------------------- run status

  /** The transition table of the run state machine. */
  predicate Allowed(from: RunStatus, to: RunStatus) {
    match from
    case Pending => to.Running? || to.Failed? || to.Cancelled?
    case Running => to.Paused? || to.Completed? || to.Failed? || to.Cancelled?
    case Paused => to.Running? || to.Cancelled?
    case _ => false
  }

  /** Callers start a run only from a status it may start from (or is already in). */
  predicate StartsProperly(a: Action) {
    a.DoStart? ==> a.expected.Pending? || a.expected.Paused? || a.expected.Running?
  }

  predicate StatusChanging(a: Action) {
    a.DoStart? || a.DoPause? || a.DoComplete? || a.DoFailRun? || a.DoRequestCancel?
  }

  predicate SameStatus(db: Db, d: Db, r: Id) {
    r in db.runs && r in d.runs && d.runs[r].status == db.runs[r].status &&
    d.runs[r].cancelRequested == db.runs[r].cancelRequested
  }

  lemma JobActionKeepsStatus(db: Db, a: Action, r: Id)
    requires r in db.runs && JobAction(a)
    ensures SameStatus(db, Apply(db, a).db, r)
  {
    if a.DoClaim? && Apply(db, a).reply != NoWork {
      var id := ClaimEffect(db, a.worker, a.now, a.seconds, a.locked);
    }
  }

  /** Only five transactions change the status of a run. */
  lemma OthersKeepStatus(db: Db, a: Action, r: Id)
    requires r in db.runs && !StatusChanging(a)
    ensures SameStatus(db, Apply(db, a).db, r)
  {
    if JobAction(a) {
      JobActionKeepsStatus(db, a, r);
    } else if RunControl(a) {
      RunControlKeepsStatus(db, a, r);
    }
  }

  lemma RunControlKeepsStatus(db: Db, a: Action, r: Id)
    requires r in db.runs && !StatusChanging(a) && RunControl(a)
    ensures SameStatus(db, Apply(db, a).db, r)
  {
    hide SameStatus;
    if a.DoClaimRun? {
      ClaimRunKeepsStatus(db, r, a.runId, a.owner, a.now, a.seconds);
    } else if a.DoRenewRun? {
      RenewRunKeepsStatus(db, r, a.runId, a.owner, a.now, a.seconds);
    } else if a.DoProgress? {
      ProgressKeepsStatus(db, r, a.runId, a.owner, a.now, a.generation, a.sameStamp);
    } else if a.DoCursor? {
      CursorKeepsStatus(db, r, a.runId, a.artifact, a.owner, a.now);
    } else {
      RequestKeepsStatus(db, a, r);
    }
  }

  lemma RequestKeepsStatus(db: Db, a: Action, r: Id)
    requires r in db.runs && (a.DoRequestPause? || a.DoReleaseRun?)
    ensures SameStatus(db, Apply(db, a).db, r)
  {
  }

  lemma ProgressKeepsStatus(db: Db, r: Id, moved: Id, owner: Id, now: int, generation: nat, same: bool)
    requires r in db.runs
    ensures SameStatus(db, UpdateRunProgress(db, moved, owner, now, generation, same).db, r)
  {
  }

  lemma CursorKeepsStatus(db: Db, r: Id, moved: Id, artifact: Id, owner: Id, now: int)
    requires r in db.runs
    ensures SameStatus(db, UpdateRuntimeCursor(db, moved, artifact, owner, now).db, r)
  {
  }

  lemma ClaimRunKeepsStatus(db: Db, r: Id, claimed: Id, owner: Id, now: int, seconds: int)
    requires r in db.runs
    ensures SameStatus(db, ClaimRunLease(db, claimed, owner, now, seconds).db, r)
  {
  }

  lemma RenewRunKeepsStatus(db: Db, r: Id, renewed: Id, owner: Id, now: int, seconds: int)
    requires r in db.runs
    ensures SameStatus(db, RenewRunLease(db, renewed, owner, now, seconds).db, r)
  {
  }

  /** A run is created once, for one task with one total, and never goes away. */
  predicate SameTask(db: Db, d: Db, r: Id) {
    r in db.runs && r in d.runs && d.runs[r].taskId == db.runs[r].taskId &&
    (db.runs[r].taskId in db.totals ==>
       db.runs[r].taskId in d.totals && d.totals[db.runs[r].taskId] == db.totals[db.runs[r].taskId])
  }

  lemma RunKeepsTask(db: Db, a: Action, r: Id)
    requires r in db.runs && CancelOk(db.runs)
    ensures SameTask(db, Apply(db, a).db, r)
  {
    hide SameTask;
    if JobAction(a) {
      JobActionKeepsTask(db, a, r);
    } else if RunControl(a) {
      RunControlKeepsTask(db, a, r);
    } else if StatusChanging(a) {
      FinishKeepsTask(db, a, r);
    } else {
      OthersKeepTask(db, a, r);
    }
  }

  lemma JobActionKeepsTask(db: Db, a: Action, r: Id)
    requires r in db.runs && JobAction(a)
    ensures SameTask(db, Apply(db, a).db, r)
  {
    if a.DoSucceed? || a.DoFail? || a.DoRecover? {
      hide SameTask;
      SettlingKeepsTask(db, a, r);
    } else if a.DoClaim? && Apply(db, a).reply != NoWork {
      var id := ClaimEffect(db, a.worker, a.now, a.seconds, a.locked);
    }
  }

  lemma SettlingKeepsTask(db: Db, a: Action, r: Id)
    requires r in db.runs && (a.DoSucceed? || a.DoFail? || a.DoRecover?)
    ensures SameTask(db, Apply(db, a).db, r)
  {
    hide Refunded;
    hide RecoveredJobs;
  }

  lemma FinishKeepsTask(db: Db, a: Action, r: Id)
    requires r in db.runs && (a.DoComplete? || a.DoFailRun? || a.DoRequestCancel?)
    ensures SameTask(db, Apply(db, a).db, r)
  {
    hide Refunded;
    hide StoppedJobs;
    hide StoppedTasks;
    if a.DoFailRun? { FailKeepsTask(db, a, r); }
  }

  lemma FailKeepsTask(db: Db, a: Action, r: Id)
    requires r in db.runs && a.DoFailRun?
    ensures SameTask(db, Apply(db, a).db, r)
  {
    hide Refunded;
    hide StoppedJobs;
    hide StoppedTasks;
  }

  lemma RunControlKeepsTask(db: Db, a: Action, r: Id)
    requires r in db.runs && RunControl(a) && CancelOk(db.runs)
    ensures SameTask(db, Apply(db, a).db, r)
  {
    hide Apply;
    if Apply(db, a).db != db { RunControlRow(db, a); }
  }

  lemma OthersKeepTask(db: Db, a: Action, r: Id)
    requires r in db.runs && !JobAction(a) && !StatusChanging(a) && !RunControl(a)
    ensures SameTask(db, Apply(db, a).db, r)
  {
  }

  predicate FollowsMachine(db: Db, d: Db, r: Id) {
    r in db.runs && r in d.runs &&
    (d.runs[r].status == db.runs[r].status || Allowed(db.runs[r].status, d.runs[r].status))
  }

  /** Exactly the properly started histories follow the state machine. */
  lemma StatusFollowsMachine(db: Db, a: Action, r: Id)
    requires r in db.runs && StartsProperly(a)
    ensures FollowsMachine(db, Apply(db, a).db, r)
  {
    if StatusChanging(a) {
      StatusChangeFollowsMachine(db, a, r);
    } else {
      OthersKeepStatus(db, a, r);
    }
  }

  lemma StatusChangeFollowsMachine(db: Db, a: Action, r: Id)
    requires r in db.runs && StartsProperly(a) && StatusChanging(a)
    ensures FollowsMachine(db, Apply(db, a).db, r)
  {
    if a.DoComplete? || a.DoFailRun? || a.DoRequestCancel? { FinishFollowsMachine(db, a, r); }
  }

  lemma FinishFollowsMachine(db: Db, a: Action, r: Id)
    requires r in db.runs && (a.DoComplete? || a.DoFailRun? || a.DoRequestCancel?)
    ensures FollowsMachine(db, Apply(db, a).db, r)
  {
  }

  /** The store accepts any expected status, so a start obeys the machine iff its caller does. */
  lemma StartObeysIff(db: Db, a: Action)
    requires Inv(db) && a.DoStart? && Apply(db, a).reply == Done
    ensures StartsProperly(a) <==> FollowsMachine(db, Apply(db, a).db, a.runId)
  {
  }

  /** Any run that completes can be started again by a caller that expects COMPLETED. */
  lemma CompletedRunRestarts(db: Db, r: Id, o: Id, now: int, g: nat, best: Id, later: int, same: bool)
    requires Inv(db) && CompleteRun(db, r, o, now, g, best).reply == Done
    ensures var d := CompleteRun(db, r, o, now, g, best).db;
            && d.runs[r].status.Completed?
            && StartRun(d, r, RunStatus.Completed, later, None, same).db.runs[r].status.Running?
  {
    assert !db.runs[r].cancelRequested;
  }

  /** COMPLETED, FAILED and CANCELLED last through every properly started continuation. */
  lemma {:induction false} FinishedForever(h: seq<Entry>, g: seq<Entry>, r: Id)
    requires History(h + g) && r in Now(h).runs && Terminal(Now(h).runs[r].status)
    requires forall i :: 0 <= i < |g| ==> StartsProperly(g[i].action)
    ensures r in Now(h + g).runs && Now(h + g).runs[r].status == Now(h).runs[r].status
  {
    hide Apply;
    if g == [] {
      assert h + g == h;
    } else {
      var k := |g| - 1;
      ContinuationStep(h, g);
      FinishedForever(h, g[..k], r);
      StatusFollowsMachine(Now(h + g[..k]), g[k].action, r);
    }
  }

  // ---------------------------------------------------------------- job status

  /** How one transaction moved one job. */
  datatype Move = Stays | Claims(worker: Id) | Renews | Succeeds | Fails | Recovers | IsStopped

  function MoveOf(db: Db, a: Action, reply: Reply, id: Id): Move
    requires id in db.jobs
  {
    match a
    case DoClaim(w, _, _, _) => if reply == ClaimedJob(id) then Claims(w) else Stays
    case DoRenew(i, _, _, _) => if i == id && reply == Granted(true) then Renews else Stays
    case DoSucceed(i, _, _, _, _) => if i == id && reply == Done then Succeeds else Stays
    case DoFail(i, _, _, _, _) => if i == id && reply == Done then Fails else Stays
    case DoRecover(now, only) => if Stale(db.jobs[id], now, only) then Recovers else Stays
    case DoComplete(r, _, _, _, _) => if reply == Done && Stops(db.jobs[id], r, true) then IsStopped else Stays
    case DoFailRun(r, _, _) => if reply == Done && Stops(db.jobs[id], r, true) then IsStopped else Stays
    case DoRequestCancel(r, _) => if reply == Done && Stops(db.jobs[id], r, false) then IsStopped else Stays
    case _ => Stays
  }

  /** Each move, and nothing else, changes the row the way its name says. */
  ghost predicate Moved(db: Db, a: Action, reply: Reply, id: Id, k: Job)
    requires id in db.jobs
  {
    var j := db.jobs[id];
    match MoveOf(db, a, reply, id)
    case Stays => k == j
    case Claims(w) =>
      a.DoClaim? && IsNext(db, id, a.now, a.locked) && k == ClaimedRow(j, w, a.now + a.seconds)
    case Renews => a.DoRenew? && HoldsJob(db, id, a.worker, a.now) && k == j.(lease := Some(a.now + a.seconds))
    case Succeeds => a.DoSucceed? && HoldsJob(db, id, a.worker, a.now) && k == SettledJob(j, a.resultId)
    case Fails =>
      a.DoFail? && HoldsJob(db, id, a.worker, a.now) && k == FailedJob(j, a.retryable, a.availableAt)
    case Recovers =>
      a.DoRecover? && j.status.Running? && k == RecoveredRow(j, RunCancelled(db, j.runId), a.now)
    case IsStopped => Live(j.status) && k == Released(j, JobStatus.Cancelled)
  }

  lemma MoveEffect(db: Db, a: Action, id: Id)
    requires id in db.jobs
    ensures var tx := Apply(db, a); id in tx.db.jobs && Moved(db, a, tx.reply, id, tx.db.jobs[id])
  {
    if a.DoClaim? || a.DoRenew? || a.DoSucceed? || a.DoFail? || a.DoRecover? {
      WorkerMoveEffect(db, a, id);
    } else if a.DoComplete? || a.DoFailRun? || a.DoRequestCancel? {
      StopMoveEffect(db, a, id);
    } else {
      OthersLeaveJobs(db, a, id);
    }
  }

  lemma StopMoveEffect(db: Db, a: Action, id: Id)
    requires id in db.jobs && (a.DoComplete? || a.DoFailRun? || a.DoRequestCancel?)
    ensures var tx := Apply(db, a); id in tx.db.jobs && Moved(db, a, tx.reply, id, tx.db.jobs[id])
  {
    StopEffect(db, a);
    if Apply(db, a).reply == Done {
      StoppedRow(db, a.runId, !a.DoRequestCancel?, id);
    }
  }

  lemma StopEffect(db: Db, a: Action)
    requires a.DoComplete? || a.DoFailRun? || a.DoRequestCancel?
    ensures Apply(db, a).db.jobs ==
            if Apply(db, a).reply == Done then StoppedJobs(db, a.runId, !a.DoRequestCancel?) else db.jobs
  {
    hide Refunded;
    hide StoppedJobs;
    hide StoppedTasks;
  }

  lemma StoppedRow(db: Db, r: Id, running: bool, id: Id)
    requires id in db.jobs
    ensures id in StoppedJobs(db, r, running)
    ensures StoppedJobs(db, r, running)[id] ==
            if Stops(db.jobs[id], r, running) then Released(db.jobs[id], JobStatus.Cancelled) else db.jobs[id]
    ensures Stops(db.jobs[id], r, running) ==> Live(db.jobs[id].status)
  {
  }

  lemma WorkerMoveEffect(db: Db, a: Action, id: Id)
    requires id in db.jobs && (a.DoClaim? || a.DoRenew? || a.DoSucceed? || a.DoFail? || a.DoRecover?)
    ensures var tx := Apply(db, a); id in tx.db.jobs && Moved(db, a, tx.reply, id, tx.db.jobs[id])
  {
    var done := Apply(db, a).reply == Done;
    if a.DoClaim? && Apply(db, a).reply != NoWork {
      var i := ClaimEffect(db, a.worker, a.now, a.seconds, a.locked);
    } else if a.DoSucceed? && done {
      SuccessEffect(db, a.id, a.worker, a.resultId, a.result, a.now);
    } else if a.DoFail? && done {
      FailureEffect(db, a.id, a.worker, a.retryable, a.availableAt, a.now);
    }
  }

  lemma OthersLeaveJobs(db: Db, a: Action, id: Id)
    requires id in db.jobs
    requires !(a.DoClaim? || a.DoRenew? || a.DoSucceed? || a.DoFail? || a.DoRecover?)
    requires !(a.DoComplete? || a.DoFailRun? || a.DoRequestCancel?)
    ensures id in Apply(db, a).db.jobs && Apply(db, a).db.jobs[id] == db.jobs[id]
    ensures MoveOf(db, a, Apply(db, a).reply, id).Stays?
  {
    if a.DoEnqueue? && Apply(db, a).reply == Done {
      EnqueueIsNew(db, a.job);
    }
  }

  /** No transaction changes what a job evaluates, for whom, or at what cost. */
  lemma MoveKeepsIdentity(db: Db, a: Action, reply: Reply, id: Id, k: Job)
    requires id in db.jobs && Moved(db, a, reply, id, k)
    ensures k.runId == db.jobs[id].runId && k.candidateId == db.jobs[id].candidateId
    ensures k.budget == db.jobs[id].budget && k.maxAttempts == db.jobs[id].maxAttempts
    ensures k.key == db.jobs[id].key && k.seed == db.jobs[id].seed && k.taskId == db.jobs[id].taskId
  {
  }

  /** SUCCESS, DEAD and CANCELLED rows never change again. */
  lemma SettledJobStays(db: Db, a: Action, id: Id)
    requires id in db.jobs && !Live(db.jobs[id].status)
    ensures id in Apply(db, a).db.jobs && Apply(db, a).db.jobs[id] == db.jobs[id]
  {
    MoveEffect(db, a, id);
  }

  // ---------------------------------------------------------------- a cancelled run drains

  ghost predicate IsCancelled(db: Db, r: Id) {
    r in db.runs && db.runs[r].status.Cancelled?
  }

  /** Any transaction on a cancelled run: no job enters a live state or SUCCESS, none appears. */
  lemma CancelledStep(db: Db, a: Action, r: Id, id: Id)
    requires Inv(db) && IsCancelled(db, r)
    requires id in Apply(db, a).db.jobs && Apply(db, a).db.jobs[id].runId == r
    ensures id in db.jobs && db.jobs[id].runId == r
    ensures var j, k := db.jobs[id], Apply(db, a).db.jobs[id];
            k.status == j.status || (j.status.Running? && k.status.Cancelled?)
  {
    assert db.runs[r].cancelRequested;
    if id in db.jobs {
      MoveEffect(db, a, id);
      MoveKeepsIdentity(db, a, Apply(db, a).reply, id, Apply(db, a).db.jobs[id]);
      var j := db.jobs[id];
      if MoveOf(db, a, Apply(db, a).reply, id).Succeeds? {
        SuccessEffect(db, id, a.worker, a.resultId, a.result, a.now);
      } else if MoveOf(db, a, Apply(db, a).reply, id).Fails? {
        FailureEffect(db, id, a.worker, a.retryable, a.availableAt, a.now);
      } else if MoveOf(db, a, Apply(db, a).reply, id).IsStopped? {
        assert MayHold(db.runs[j.runId].status, j.status);
      }
    } else {
      NoNewJob(db, a, r, id);
    }
  }

  lemma NoNewJob(db: Db, a: Action, r: Id, id: Id)
    requires IsCancelled(db, r) && id !in db.jobs && id in Apply(db, a).db.jobs
    ensures Apply(db, a).db.jobs[id].runId != r
  {
    if a.DoEnqueue? {
      EnqueueIsNew(db, a.job);
    } else {
      OnlyEnqueueAddsJobs(db, a, id);
    }
  }

  lemma OnlyEnqueueAddsJobs(db: Db, a: Action, id: Id)
    requires id !in db.jobs && !a.DoEnqueue?
    ensures id !in Apply(db, a).db.jobs
  {
    if JobAction(a) {
      JobActionAddsNoJob(db, a, id);
    }
  }

  lemma JobActionAddsNoJob(db: Db, a: Action, id: Id)
    requires id !in db.jobs && JobAction(a) && !a.DoEnqueue?
    ensures id !in Apply(db, a).db.jobs
  {
    if a.DoClaim? && Apply(db, a).reply != NoWork {
      var i := ClaimEffect(db, a.worker, a.now, a.seconds, a.locked);
    }
  }

  function RunningWeight(r: Id, j: Job): int {
    if j.runId == r && j.status.Running? then j.budget else 0
  }

  ghost function RunningBudget(jobs: map<Id, Job>, r: Id): int {
    Total(RunningWeights(jobs, r))
  }

  function RunningWeights(jobs: map<Id, Job>, r: Id): map<Id, int> {
    map id | id in jobs :: RunningWeight(r, jobs[id])
  }

  /** The reservation of a cancelled run is that of its still running jobs. */
  lemma CancelledReservation(db: Db, r: Id)
    requires Inv(db) && IsCancelled(db, r)
    ensures db.runs[r].reserved == RunningBudget(db.jobs, r)
  {
    assert Balanced(db.totals, db.runs[r], r, db.jobs, db.results);
    forall id | id in db.jobs ensures LiveWeight(r, db.jobs[id]) == RunningWeight(r, db.jobs[id]) {
      if db.jobs[id].runId == r {
        assert MayHold(db.runs[db.jobs[id].runId].status, db.jobs[id].status);
      }
    }
    assert LiveWeights(db.jobs, r) == RunningWeights(db.jobs, r);
  }

  /** No job of the run weighs more after the step than before. */
  lemma CancelledWeight(db: Db, a: Action, r: Id, id: Id)
    requires Inv(db) && IsCancelled(db, r) && id in Apply(db, a).db.jobs
    ensures LiveWeight(r, Apply(db, a).db.jobs[id]) <=
            if id in db.jobs then LiveWeight(r, db.jobs[id]) else 0
  {
    if Apply(db, a).db.jobs[id].runId == r {
      CancelledStep(db, a, r, id);
      MoveEffect(db, a, id);
      MoveKeepsIdentity(db, a, Apply(db, a).reply, id, Apply(db, a).db.jobs[id]);
      assert JobRowOk(db.jobs[id]);
    } else if id in db.jobs {
      assert JobRowOk(db.jobs[id]);
    }
  }

  lemma CancelledReservationShrinks(db: Db, a: Action, r: Id)
    requires Inv(db) && IsCancelled(db, r) && IsCancelled(Apply(db, a).db, r)
    ensures Apply(db, a).db.runs[r].reserved <= db.runs[r].reserved
  {
    var d := Apply(db, a).db;
    StepKeepsInv(db, a);
    assert Balanced(db.totals, db.runs[r], r, db.jobs, db.results);
    assert Balanced(d.totals, d.runs[r], r, d.jobs, d.results);
    forall id | id in d.jobs
      ensures LiveWeight(r, d.jobs[id]) <= if id in db.jobs then LiveWeight(r, db.jobs[id]) else 0
    {
      CancelledWeight(db, a, r, id);
    }
    LiveBudgetDominated(d.jobs, db.jobs, r);
  }

  lemma LiveBudgetDominated(after: map<Id, Job>, before: map<Id, Job>, r: Id)
    requires RowsOk(before)
    requires forall id :: id in after ==>
      LiveWeight(r, after[id]) <= if id in before then LiveWeight(r, before[id]) else 0
    ensures LiveBudget(after, r) <= LiveBudget(before, r)
  {
    forall id | id in before ensures 0 <= LiveWeight(r, before[id]) { assert JobRowOk(before[id]); }
    TotalDominated(LiveWeights(after, r), LiveWeights(before, r));
  }

  /** Over every continuation: cancelled stays cancelled, nothing revives, nothing is reserved anew. */
  lemma {:induction false} CancelDrains(h: seq<Entry>, g: seq<Entry>, r: Id, id: Id)
    requires History(h + g) && IsCancelled(Now(h), r)
    ensures IsCancelled(Now(h + g), r)
    ensures Now(h + g).runs[r].reserved <= Now(h).runs[r].reserved
    ensures id in Now(h + g).jobs && Now(h + g).jobs[id].runId == r ==>
              && id in Now(h).jobs
              && (Now(h + g).jobs[id].status == Now(h).jobs[id].status ||
                  (Now(h).jobs[id].status.Running? && Now(h + g).jobs[id].status.Cancelled?))
  {
    hide Apply;
    if g == [] {
      assert h + g == h;
    } else {
      var k := |g| - 1;
      ContinuationStep(h, g);
      CancelDrains(h, g[..k], r, id);
      CancelDrainsStep(Now(h + g[..k]), g[k].action, r, id);
    }
  }

  lemma CancelDrainsStep(db: Db, a: Action, r: Id, id: Id)
    requires Inv(db) && IsCancelled(db, r)
    ensures var d := Apply(db, a).db;
            && IsCancelled(d, r) && d.runs[r].reserved <= db.runs[r].reserved
            && (id in d.jobs && d.jobs[id].runId == r ==>
                  && id in db.jobs && db.jobs[id].runId == r
                  && (d.jobs[id].status == db.jobs[id].status ||
                      (db.jobs[id].status.Running? && d.jobs[id].status.Cancelled?)))
  {
    CancelledIsFinal(db, a, r);
    CancelledReservationShrinks(db, a, r);
    if id in Apply(db, a).db.jobs && Apply(db, a).db.jobs[id].runId == r {
      CancelledStep(db, a, r, id);
    }
  }

  /** Even an improper start cannot revive a cancelled run. */
  lemma CancelledIsFinal(db: Db, a: Action, r: Id)
    requires CancelOk(db.runs) && IsCancelled(db, r)
    ensures IsCancelled(Apply(db, a).db, r)
  {
    assert db.runs[r].cancelRequested;
    if a.DoComplete? || a.DoFailRun? || a.DoRequestCancel? {
      FinishFollowsMachine(db, a, r);
    } else if !StatusChanging(a) {
      OthersKeepStatus(db, a, r);
    }
  }

  /** One recovery after every lease has expired settles the run completely. */
  lemma OneRecoverySettlesCancelled(db: Db, now: int, only: Option<Id>, r: Id)
    requires Inv(db) && IsCancelled(db, r) && (only.None? || only.value == r)
    requires forall id :: id in db.jobs && db.jobs[id].runId == r && db.jobs[id].lease.Some? ==>
               db.jobs[id].lease.value <= now
    ensures var d := RecoverStaleJobs(db, now, only).db;
            && d.runs[r].reserved == 0
            && forall id :: id in d.jobs && d.jobs[id].runId == r ==> !Live(d.jobs[id].status)
  {
    var d := RecoverStaleJobs(db, now, only).db;
    RecoverKeepsInv(db, now, only);
    forall id | id in d.jobs && d.jobs[id].runId == r ensures !Live(d.jobs[id].status) {
      assert JobRowOk(db.jobs[id]);
      assert MayHold(db.runs[db.jobs[id].runId].status, db.jobs[id].status);
    }
    TotalZero(LiveWeights(d.jobs, r));
    assert Balanced(d.totals, d.runs[r], r, d.jobs, d.results);
  }

  /** COMPLETED and FAILED runs reserve nothing, hold no live job and no claimed agent task. */
  lemma FinishedRunsAreEmpty(db: Db, r: Id)
    requires Inv(db) && r in db.runs && (db.runs[r].status.Completed? || db.runs[r].status.Failed?)
    ensures db.runs[r].reserved == 0
    ensures forall id :: id in db.jobs && db.jobs[id].runId == r ==> !Live(db.jobs[id].status)
    ensures forall id :: id in db.agentTasks && db.agentTasks[id].runId == r ==>
              !db.agentTasks[id].status.Claimed?
  {
    forall id | id in db.jobs && db.jobs[id].runId == r ensures !Live(db.jobs[id].status) {
      assert MayHold(db.runs[db.jobs[id].runId].status, db.jobs[id].status);
    }
    TotalZero(LiveWeights(db.jobs, r));
    assert Balanced(db.totals, db.runs[r], r, db.jobs, db.results);
  }
}
