/**
 * Agent tasks over whole histories: a task is claimed boundedly and finished once, by its
 * latest claim; a finished task never changes; a claim token that was replaced or cleared
 * never acts again.
 */
module AgentTaskHistory {
  import opened Common
  import opened StoreModel
  import opened StoreInvariants
  import opened StoreSafety
  import StoreGuarantees

  // ---------------------------------------------------------------- one transaction, one task

  /** How one transaction moved one agent task. */
  datatype TaskMove = Untouched | Claims(token: Id) | Renews | Completes | Fails | Recovers | IsStopped

  predicate IsOpen(s: TaskStatus) {
    s.Pending? || s.Claimed?
  }

  function TaskMoveOf(db: Db, a: Action, reply: Reply, id: Id): TaskMove
    requires id in db.agentTasks
  {
    match a
    case DoClaimTask(i, _, _, token) => if i == id && reply == Done then Claims(token) else Untouched
    case DoRenewTask(i, _, _, _) => if i == id && reply == Granted(true) then Renews else Untouched
    case DoCompleteTask(i, _, _, _) => if i == id && reply == Done then Completes else Untouched
    case DoFailTask(i, _, _) => if i == id && reply == Done then Fails else Untouched
    case DoRecoverTasks(now, s) =>
      var t := db.agentTasks[id];
      if t.runId in db.runs && OrphanTask(t, now, s) then Recovers else Untouched
    case DoComplete(r, _, _, _, _) => if reply == Done && Open(db.agentTasks[id], r) then IsStopped else Untouched
    case DoFailRun(r, _, _) => if reply == Done && Open(db.agentTasks[id], r) then IsStopped else Untouched
    case DoRequestCancel(r, _) => if reply == Done && Open(db.agentTasks[id], r) then IsStopped else Untouched
    case _ => Untouched
  }

  /** Each move, and nothing else, changes the row the way its name says. */
  predicate TaskMoved(db: Db, a: Action, reply: Reply, id: Id, u: AgentTask)
    requires id in db.agentTasks
  {
    var t := db.agentTasks[id];
    && u.runId == t.runId && u.key == t.key && u.maxAttempts == t.maxAttempts
    && match TaskMoveOf(db, a, reply, id)
       case Untouched => u == t
       case Claims(token) =>
         && t.status.Pending? && t.attempts < t.maxAttempts && u.status.Claimed?
         && u.token == Some(token) && u.attempts == t.attempts + 1 && a.DoClaimTask? && a.token == token
       case Renews =>
         && a.DoRenewTask? && HoldsTask(db, id, a.token, a.now)
         && u == t.(lease := Some(a.now + a.seconds), updatedAt := a.now)
       case Completes =>
         && a.DoCompleteTask? && HoldsTask(db, id, a.token, a.now)
         && u.status.Completed? && u.outputs == a.outputs && u.token.None? && u.attempts == t.attempts
       case Fails =>
         && a.DoFailTask? && HoldsTask(db, id, a.token, a.now) && u.token.None? && u.attempts == t.attempts
         && u.status == if t.attempts < t.maxAttempts then TaskStatus.Pending else TaskStatus.Failed
       case Recovers =>
         t.status.Claimed? && u.token.None? && u.attempts == t.attempts && !u.status.Claimed? && !u.status.Completed?
       case IsStopped =>
         IsOpen(t.status) && u.token.None? && u.attempts == t.attempts && u.status.Cancelled?
  }

  lemma TaskMoveEffect(db: Db, a: Action, id: Id)
    requires id in db.agentTasks
    ensures var tx := Apply(db, a);
            id in tx.db.agentTasks && TaskMoved(db, a, tx.reply, id, tx.db.agentTasks[id])
  {
    if a.DoComplete? || a.DoFailRun? || a.DoRequestCancel? {
      StopTaskEffect(db, a, id);
    } else if OneTask(a) || a.DoRecoverTasks? {
      OneTaskEffect(db, a, id);
    } else {
      OthersLeaveTasks(db, a, id);
    }
  }

  lemma StopTaskEffect(db: Db, a: Action, id: Id)
    requires id in db.agentTasks && (a.DoComplete? || a.DoFailRun? || a.DoRequestCancel?)
    ensures var tx := Apply(db, a);
            id in tx.db.agentTasks && TaskMoved(db, a, tx.reply, id, tx.db.agentTasks[id])
  {
    StoppedTasksEffect(db, a);
    assert id in StoppedTasks(db, a.runId, a.now);
  }

  lemma StoppedTasksEffect(db: Db, a: Action)
    requires a.DoComplete? || a.DoFailRun? || a.DoRequestCancel?
    ensures Apply(db, a).db.agentTasks ==
            if Apply(db, a).reply == Done then StoppedTasks(db, a.runId, a.now) else db.agentTasks
  {
    hide Refunded;
    hide StoppedJobs;
    hide StoppedTasks;
  }

  lemma OneTaskEffect(db: Db, a: Action, id: Id)
    requires id in db.agentTasks && (OneTask(a) || a.DoRecoverTasks?)
    ensures var tx := Apply(db, a);
            id in tx.db.agentTasks && TaskMoved(db, a, tx.reply, id, tx.db.agentTasks[id])
  {
    if a.DoRecoverTasks? {
      assert id in RecoverOrphanAgentTasks(db, a.now, a.orphanSeconds).db.agentTasks;
    } else if a.DoClaimTask? {
      ClaimTaskEffect(db, a, id);
    } else if a.DoRenewTask? {
      RenewTaskEffect(db, a, id);
    } else if a.DoCompleteTask? {
      CompleteTaskEffect(db, a, id);
    } else {
      FailTaskEffect(db, a, id);
    }
  }

  lemma ClaimTaskEffect(db: Db, a: Action, id: Id)
    requires id in db.agentTasks && a.DoClaimTask?
    ensures var tx := Apply(db, a);
            id in tx.db.agentTasks && TaskMoved(db, a, tx.reply, id, tx.db.agentTasks[id])
  {
  }

  lemma RenewTaskEffect(db: Db, a: Action, id: Id)
    requires id in db.agentTasks && a.DoRenewTask?
    ensures var tx := Apply(db, a);
            id in tx.db.agentTasks && TaskMoved(db, a, tx.reply, id, tx.db.agentTasks[id])
  {
  }

  lemma CompleteTaskEffect(db: Db, a: Action, id: Id)
    requires id in db.agentTasks && a.DoCompleteTask?
    ensures var tx := Apply(db, a);
            id in tx.db.agentTasks && TaskMoved(db, a, tx.reply, id, tx.db.agentTasks[id])
  {
  }

  lemma FailTaskEffect(db: Db, a: Action, id: Id)
    requires id in db.agentTasks && a.DoFailTask?
    ensures var tx := Apply(db, a);
            id in tx.db.agentTasks && TaskMoved(db, a, tx.reply, id, tx.db.agentTasks[id])
  {
  }

  lemma OthersLeaveTasks(db: Db, a: Action, id: Id)
    requires id in db.agentTasks
    requires !(a.DoComplete? || a.DoFailRun? || a.DoRequestCancel?) && !OneTask(a) && !a.DoRecoverTasks?
    ensures id in Apply(db, a).db.agentTasks && Apply(db, a).db.agentTasks[id] == db.agentTasks[id]
  {
    if JobAction(a) { JobActionLeavesTasks(db, a); }
  }

  lemma JobActionLeavesTasks(db: Db, a: Action)
    requires JobAction(a)
    ensures Apply(db, a).db.agentTasks == db.agentTasks
  {
    if a.DoClaim? && Apply(db, a).reply != NoWork {
      var i := ClaimEffect(db, a.worker, a.now, a.seconds, a.locked);
    } else if a.DoEnqueue? && Apply(db, a).reply == Done {
      EnqueueIsNew(db, a.job);
    }
  }

  /** A task row that appears is the one that was added, unclaimed. */
  lemma NewTaskIsPending(db: Db, a: Action, id: Id)
    requires id !in db.agentTasks && id in Apply(db, a).db.agentTasks
    ensures var t := Apply(db, a).db.agentTasks[id]; t.status.Pending? && t.token.None? && t.attempts == 0
    ensures a.DoAddTask? && id == a.taskId
    ensures Apply(db, a).db.agentTasks[id].runId == a.runId && Apply(db, a).db.agentTasks[id].key == a.key
  {
    if JobAction(a) { JobActionLeavesTasks(db, a); }
  }

  // ---------------------------------------------------------------- absorbing states

  /** COMPLETED, FAILED and CANCELLED tasks keep their row through every continuation. */
  lemma {:induction false} FinishedTaskStays(h: seq<Entry>, g: seq<Entry>, id: Id)
    requires History(h + g) && id in Now(h).agentTasks && !IsOpen(Now(h).agentTasks[id].status)
    ensures id in Now(h + g).agentTasks && Now(h + g).agentTasks[id] == Now(h).agentTasks[id]
  {
    hide Apply;
    if g == [] {
      assert h + g == h;
    } else {
      var k := |g| - 1;
      StoreGuarantees.ContinuationStep(h, g);
      FinishedTaskStays(h, g[..k], id);
      TaskMoveEffect(Now(h + g[..k]), g[k].action, id);
    }
  }

  // ---------------------------------------------------------------- the log of one task

  datatype TaskLog = TaskLog(claims: nat, lastToken: Option<Id>, completions: nat)

  const NO_CLAIM := TaskLog(0, None, 0)

  function LogTaskMove(log: TaskLog, db: Db, a: Action, reply: Reply, id: Id): TaskLog
    requires id in db.agentTasks
  {
    match TaskMoveOf(db, a, reply, id)
    case Claims(token) => log.(claims := log.claims + 1, lastToken := Some(token))
    case Completes => log.(completions := log.completions + 1)
    case _ => log
  }

  function TaskLogOf(h: seq<Entry>, id: Id): TaskLog {
    if h == [] then NO_CLAIM
    else
      var k := |h| - 1;
      var db := Now(h[..k]);
      if id in db.agentTasks then LogTaskMove(TaskLogOf(h[..k], id), db, h[k].action, h[k].reply, id)
      else TaskLogOf(h[..k], id)
  }

  predicate TaskLogAgrees(t: AgentTask, log: TaskLog) {
    && log.claims == t.attempts
    && (t.status.Claimed? ==> log.lastToken == t.token)
    && log.completions == (if t.status.Completed? then 1 else 0)
  }

  lemma {:induction false} TaskHistoryAgrees(h: seq<Entry>, id: Id)
    requires History(h)
    ensures id !in Now(h).agentTasks ==> TaskLogOf(h, id) == NO_CLAIM
    ensures id in Now(h).agentTasks ==> TaskLogAgrees(Now(h).agentTasks[id], TaskLogOf(h, id))
  {
    hide Apply;
    if h != [] {
      var k := |h| - 1;
      var db := Now(h[..k]);
      LastStep(h);
      TaskHistoryAgrees(h[..k], id);
      if id in db.agentTasks {
        TaskMoveEffect(db, h[k].action, id);
      } else if id in Now(h).agentTasks {
        NewTaskIsPending(db, h[k].action, id);
      }
    }
  }

  /**
   * However often a task fails, times out or is recovered, it is claimed at most
   * `max_attempts` times (never when that is not positive) and completes at most once; a
   * pending task still has an attempt left.
   */
  lemma TaskClaimsBounded(h: seq<Entry>, id: Id)
    requires History(h) && id in Now(h).agentTasks
    ensures var t, log := Now(h).agentTasks[id], TaskLogOf(h, id);
            && log.claims <= Max(0, t.maxAttempts) && log.completions <= 1
            && (t.status.Pending? && 0 < t.maxAttempts ==> log.claims < t.maxAttempts)
  {
    hide Apply;
    TaskHistoryAgrees(h, id);
    AttemptsBounded(h, id);
    ReachableInv(h);
    assert TaskRowOk(Now(h).agentTasks[id]);
  }

  lemma {:induction false} AttemptsBounded(h: seq<Entry>, id: Id)
    requires History(h)
    ensures id in Now(h).agentTasks ==> Now(h).agentTasks[id].attempts <= Max(0, Now(h).agentTasks[id].maxAttempts)
  {
    hide Apply;
    if h != [] {
      var k := |h| - 1;
      var db := Now(h[..k]);
      LastStep(h);
      AttemptsBounded(h[..k], id);
      if id in db.agentTasks {
        TaskMoveEffect(db, h[k].action, id);
      } else if id in Now(h).agentTasks {
        NewTaskIsPending(db, h[k].action, id);
      }
    }
  }

  /** Whoever renews, completes or fails a task acts with the token of its latest claim. */
  lemma OnlyLatestTokenActs(h: seq<Entry>, id: Id, token: Id, now: int)
    requires History(h) && HoldsTask(Now(h), id, token, now)
    ensures TaskLogOf(h, id).lastToken == Some(token)
  {
    TaskHistoryAgrees(h, id);
  }

  // ---------------------------------------------------------------- fresh tokens

  /** The tokens that claim attempts of a history have presented. */
  function Presented(h: seq<Entry>): set<Id> {
    if h == [] then {}
    else
      var e := h[|h| - 1];
      Presented(h[..|h| - 1]) + if e.action.DoClaimTask? then {e.action.token} else {}
  }

  /** Every claim attempt generates its own token. */
  predicate FreshTokens(h: seq<Entry>) {
    h != [] ==>
      var e := h[|h| - 1];
      && FreshTokens(h[..|h| - 1])
      && (e.action.DoClaimTask? ==> e.action.token !in Presented(h[..|h| - 1]))
  }

  /**
   * A token that was presented and that a task does not hold now - it was replaced, cleared
   * or refused - is never held by it again.
   */
  lemma {:induction false} SpentToken(h: seq<Entry>, g: seq<Entry>, id: Id, token: Id)
    requires History(h + g) && FreshTokens(h + g) && token in Presented(h)
    requires id in Now(h).agentTasks ==> Now(h).agentTasks[id].token != Some(token)
    ensures token in Presented(h + g)
    ensures id in Now(h + g).agentTasks ==> Now(h + g).agentTasks[id].token != Some(token)
  {
    hide Apply;
    if g == [] {
      assert h + g == h;
    } else {
      var k := |g| - 1;
      var db := Now(h + g[..k]);
      StoreGuarantees.ContinuationStep(h, g);
      assert (h + g)[..|h + g| - 1] == h + g[..k];
      SpentToken(h, g[..k], id, token);
      if id in db.agentTasks {
        TaskMoveEffect(db, g[k].action, id);
      } else if id in Now(h + g).agentTasks {
        NewTaskIsPending(db, g[k].action, id);
      }
    }
  }

  /** So it can never renew, complete or fail that task in any continuation. */
  lemma SpentTokenIsFenced(h: seq<Entry>, g: seq<Entry>, id: Id, token: Id, now: int, s: int, outs: seq<Id>)
    requires History(h + g) && FreshTokens(h + g) && token in Presented(h)
    requires id in Now(h).agentTasks ==> Now(h).agentTasks[id].token != Some(token)
    ensures RenewAgentTask(Now(h + g), id, token, now, s).reply != Granted(true)
    ensures CompleteAgentTask(Now(h + g), id, token, outs, now) == Rollback(Now(h + g), CasFailed)
    ensures FailAgentTask(Now(h + g), id, token, now).reply.Rejected?
  {
    SpentToken(h, g, id, token);
  }

  /** Acting once spends the token: completing or failing a task clears it for good. */
  lemma ActingSpendsToken(h: seq<Entry>, g: seq<Entry>, e: Entry, id: Id, token: Id, now: int)
    requires History(h + [e] + g) && FreshTokens(h + [e] + g) && e.reply == Done
    requires e.action.DoCompleteTask? || e.action.DoFailTask?
    requires e.action.taskId == id && e.action.token == token
    ensures !HoldsTask(Now(h + [e] + g), id, token, now)
  {
    hide Apply;
    var h' := h + [e];
    PrefixIsHistory(h' + g, |h'|);
    assert (h' + g)[..|h'|] == h';
    LastStep(h');
    assert h'[..|h'| - 1] == h;
    PresentedGrows(h, [e]);
    ActorWasPresented(h, e.action, id);
    TaskMoveEffect(Now(h), e.action, id);
    SpentToken(h', g, id, token);
  }

  lemma ActorWasPresented(h: seq<Entry>, a: Action, id: Id)
    requires History(h) && (a.DoCompleteTask? || a.DoFailTask?) && a.taskId == id && Apply(Now(h), a).reply == Done
    ensures id in Now(h).agentTasks && a.token in Presented(h)
  {
    HeldTokensPresented(h, id);
  }

  lemma {:induction false} HeldTokensPresented(h: seq<Entry>, id: Id)
    requires History(h)
    ensures id in Now(h).agentTasks && Now(h).agentTasks[id].token.Some? ==>
              Now(h).agentTasks[id].token.value in Presented(h)
  {
    hide Apply;
    if h != [] {
      var k := |h| - 1;
      var db := Now(h[..k]);
      LastStep(h);
      HeldTokensPresented(h[..k], id);
      if id in db.agentTasks {
        TaskMoveEffect(db, h[k].action, id);
      } else if id in Now(h).agentTasks {
        NewTaskIsPending(db, h[k].action, id);
      }
    }
  }

  lemma {:induction false} PresentedGrows(h: seq<Entry>, g: seq<Entry>)
    ensures Presented(h) <= Presented(h + g)
    decreases |g|
  {
    if g == [] {
      assert h + g == h;
    } else {
      assert (h + g)[..|h + g| - 1] == h + g[..|g| - 1];
      PresentedGrows(h, g[..|g| - 1]);
    }
  }
}
