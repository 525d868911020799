/**
 * Executing one agent task: claim, handler, renewal, completion or failure, and the bounded
 * redrive of failures at the model boundary - while other dispatchers, recoveries and
 * operators act on the store between any two of these steps.
 */
module AgentDispatch {
  import opened Common
  import opened StoreModel
  import opened StoreInvariants
  import opened StoreSafety
  import opened RuntimeStore
  import AgentTaskHistory

  /** What the handler and the artifact writer do with a claimed task. */
  datatype Answer = Produces(refs: seq<Id>) | Breaks(retryable: bool)

  datatype Dispatched =
    | NotExecuted
    | Finished(refs: seq<Id>)
    | Error(ran: bool, willRetry: bool, retryable: bool)

  /** What others do before a step of the dispatcher, and the time of the step. */
  datatype Moment = Moment(others: seq<Action>, now: int)

  type World = nat -> Moment

  predicate HandlerRan(d: Dispatched) {
    d.Finished? || (d.Error? && d.ran)
  }

  /** The outcome of the handler: without an artifact the result is invalid. */
  function Usable(a: Answer): Answer {
    if a.Produces? && a.refs == [] then Breaks(false) else a
  }

  predicate IsPending(db: Db, id: Id) {
    id in db.agentTasks && db.agentTasks[id].status.Pending?
  }

  // ---------------------------------------------------------------- what anybody may do to the row

  /** Attempts are only used up, never beyond the allowed ones, and a finished row stays. */
  predicate RowLater(t: AgentTask, u: AgentTask) {
    && u.runId == t.runId && u.maxAttempts == t.maxAttempts
    && t.attempts <= u.attempts <= Max(t.attempts, t.maxAttempts)
    && (!AgentTaskHistory.IsOpen(t.status) ==> u == t)
  }

  predicate TaskLater(db: Db, d: Db, id: Id) {
    id in db.agentTasks && id in d.agentTasks && RowLater(db.agentTasks[id], d.agentTasks[id])
  }

  lemma AnyStepIsLater(db: Db, a: Action, id: Id)
    requires id in db.agentTasks
    ensures TaskLater(db, Apply(db, a).db, id)
  {
    hide Apply;
    AgentTaskHistory.TaskMoveEffect(db, a, id);
  }

  lemma LaterChain(a: Db, b: Db, c: Db, id: Id)
    requires TaskLater(a, b, id) && TaskLater(b, c, id)
    ensures TaskLater(a, c, id)
  {
  }

  method Others(store: Store, script: seq<Action>, ghost id: Id)
    requires store.Valid() && id in store.agentTasks
    modifies store
    ensures store.Valid() && TaskLater(old(store.Content()), store.Content(), id)
    ensures script == [] ==> store.Content() == old(store.Content())
  {
    hide Inv;
    hide Apply;
    for i := 0 to |script|
      invariant store.Valid() && TaskLater(old(store.Content()), store.Content(), id)
      invariant i == 0 ==> store.Content() == old(store.Content())
    {
      AnyStepIsLater(store.Content(), script[i], id);
      var reply := store.Perform(script[i]);
    }
  }

  // ---------------------------------------------------------------- the dispatcher's own steps

  /** A claim that succeeds starts one attempt. */
  predicate Claimed(before: Db, db: Db, id: Id, token: Id, until: int) {
    && IsPending(before, id) && before.agentTasks[id].attempts < before.agentTasks[id].maxAttempts
    && AgentRunActive(before, before.agentTasks[id].runId) && db.runs == before.runs
    && id in db.agentTasks && HoldsRow(db.agentTasks[id], token, until) && TaskLater(before, db, id)
    && db.agentTasks[id].attempts == before.agentTasks[id].attempts + 1
  }

  predicate HoldsRow(t: AgentTask, token: Id, until: int) {
    t.status.Claimed? && t.token == Some(token) && t.lease == Some(until)
  }

  lemma ClaimStarts(db: Db, id: Id, now: int, lease: int, token: Id)
    requires id in db.agentTasks
    ensures var tx := ClaimAgentTask(db, id, now, lease, token);
            if tx.reply == Reply.Done then Claimed(db, tx.db, id, token, now + lease)
            else tx.db == db
    ensures 0 < lease && IsPending(db, id) && db.agentTasks[id].attempts < db.agentTasks[id].maxAttempts &&
            AgentRunActive(db, db.agentTasks[id].runId) ==>
              ClaimAgentTask(db, id, now, lease, token).reply == Reply.Done
  {
  }

  lemma RenewIsLater(db: Db, id: Id, token: Id, now: int, lease: int)
    requires id in db.agentTasks
    ensures TaskLater(db, RenewAgentTask(db, id, token, now, lease).db, id)
  {
    AnyStepIsLater(db, DoRenewTask(id, token, now, lease), id);
  }

  /** A holder renews its lease and holds the task until it ends. */
  lemma RenewHolds(db: Db, id: Id, token: Id, now: int, lease: int, later: int)
    requires HoldsTask(db, id, token, now) && 0 < lease && later < now + lease
    ensures var tx := RenewAgentTask(db, id, token, now, lease);
            tx.reply == Granted(true) && HoldsTask(tx.db, id, token, later)
  {
  }

  lemma CompletionEnds(db: Db, id: Id, token: Id, refs: seq<Id>, now: int)
    requires id in db.agentTasks
    ensures var tx := CompleteAgentTask(db, id, token, refs, now);
            && TaskLater(db, tx.db, id) && (HoldsTask(db, id, token, now) ==> tx.reply == Reply.Done)
            && (tx.reply == Reply.Done ==>
                  tx.db.agentTasks[id].status.Completed? && tx.db.agentTasks[id].outputs == refs)
  {
    AnyStepIsLater(db, DoCompleteTask(id, token, refs, now), id);
  }

  /** A failed attempt leaves the agent task pending while it has attempts left. */
  function Returned(t: AgentTask): TaskStatus {
    if t.attempts < t.maxAttempts then TaskStatus.Pending else TaskStatus.Failed
  }

  lemma FailureEnds(db: Db, id: Id, token: Id, now: int)
    requires id in db.agentTasks
    ensures var tx := FailAgentTask(db, id, token, now);
            && TaskLater(db, tx.db, id)
            && (tx.reply == Reply.Done ==> tx.db.agentTasks[id].status == Returned(tx.db.agentTasks[id]))
            && (HoldsTask(db, id, token, now) ==>
                  && tx.reply == Reply.Done && tx.db.runs == db.runs
                  && tx.db.agentTasks[id].attempts == db.agentTasks[id].attempts)
  {
    AnyStepIsLater(db, DoFailTask(id, token, now), id);
  }

  lemma ClaimUsesAttempt(before: Db, db: Db, id: Id, token: Id, until: int)
    requires Claimed(before, db, id, token, until)
    ensures IsPending(before, id) && before.agentTasks[id].attempts < before.agentTasks[id].maxAttempts
    ensures TaskLater(before, db, id) && id in db.agentTasks && db.agentTasks[id].attempts == before.agentTasks[id].attempts + 1 && db.runs == before.runs
  {
  }

  /** An attempt was used up since `begin`. */
  predicate Attempted(begin: Db, db: Db, id: Id) {
    TaskLater(begin, db, id) && begin.agentTasks[id].attempts < db.agentTasks[id].attempts
  }

  lemma AttemptedLater(begin: Db, c: Db, d: Db, id: Id)
    requires Attempted(begin, c, id) && TaskLater(c, d, id)
    ensures Attempted(begin, d, id) && TaskLater(begin, d, id)
  {
  }

  /** Nobody else acts, the claim succeeds, the lease outlasts the handler, which breaks at the model boundary. */
  predicate BreaksAlone(db: Db, id: Id, registered: bool, handler: int -> Answer, w: World, tick: nat, lease: int) {
    && registered && 0 < lease && IsPending(db, id) && db.agentTasks[id].attempts < db.agentTasks[id].maxAttempts
    && AgentRunActive(db, db.agentTasks[id].runId) && w(tick + 1).now < w(tick).now + lease
    && w(tick).others == [] && w(tick + 1).others == [] && w(tick + 2).others == []
    && handler(db.agentTasks[id].attempts + 1) == Breaks(true)
  }

  /** The dispatcher holds the task, writes its artifacts within a lease, and nobody acts meanwhile. */
  predicate HoldsForLong(db: Db, id: Id, token: Id, w: World, tick: nat, lease: int) {
    && HoldsTask(db, id, token, w(tick).now) && 0 < lease && w(tick + 1).others == []
    && w(tick + 1).now < w(tick).now + lease
  }

  /** After the handler: its artifacts complete the agent task, or the attempt fails. */
  method Settle(store: Store, id: Id, token: Id, answer: Answer, w: World, tick: nat, lease: int)
    returns (result: Dispatched, next: nat)
    requires store.Valid() && id in store.agentTasks
    modifies store
    ensures store.Valid() && tick <= next && TaskLater(old(store.Content()), store.Content(), id)
    ensures result.Finished? || (result.Error? && result.ran && result.retryable == (answer.Breaks? && answer.retryable))
    ensures result.Finished? ==>
              answer == Produces(result.refs) && store.agentTasks[id].status.Completed? && store.agentTasks[id].outputs == result.refs
    ensures result.Error? && result.willRetry ==> store.agentTasks[id].status.Pending?
    ensures answer.Produces? && HoldsForLong(old(store.Content()), id, token, w, tick, lease) ==> result == Finished(answer.refs)
    ensures answer.Breaks? && HoldsTask(old(store.Content()), id, token, w(tick).now) && w(tick + 1).others == [] ==>
              && result.Error? && (result.willRetry <==> store.agentTasks[id].status.Pending?) && next == tick + 2
              && store.agentTasks[id].attempts == old(store.agentTasks)[id].attempts && store.runs == old(store.runs)
              && store.agentTasks[id].status == Returned(store.agentTasks[id])
  {
    hide Inv;
    hide RowLater;
    hide HoldsTask;
    ghost var begin := store.Content();
    ghost var db := begin;
    next := tick;
    LaterItself(begin, id);
    ghost var long := HoldsForLong(begin, id, token, w, tick, lease);
    if answer.Produces? {
      if long { RenewHolds(db, id, token, w(next).now, lease, w(next + 1).now); }
      RenewIsLater(db, id, token, w(next).now, lease);
      var renewed := store.RenewAgentTask(id, token, w(next).now, lease);
      next := next + 1;
      db := store.Content();
      Others(store, w(next).others, id);
      LaterChain(begin, db, store.Content(), id);
      if renewed == Granted(true) {
        db := store.Content();
        CompletionEnds(db, id, token, answer.refs, w(next).now);
        var completed := store.CompleteAgentTask(id, token, answer.refs, w(next).now);
        LaterChain(begin, db, store.Content(), id);
        next := next + 1;
        if completed == Reply.Done { return Finished(answer.refs), next; }
      }
    }
    db := store.Content();
    FailureEnds(db, id, token, w(next).now);
    var failed := store.FailAgentTask(id, token, w(next).now);
    LaterChain(begin, db, store.Content(), id);
    next := next + 1;
    db := store.Content();
    Others(store, w(next).others, id);
    LaterChain(begin, db, store.Content(), id);
    next := next + 1;
    var willRetry := failed == Reply.Done && store.agentTasks[id].status.Pending?;
    return Error(true, willRetry, answer.Breaks? && answer.retryable), next;
  }

  /** Nobody else acts, the claim succeeds, every step is shorter than the lease, and the handler produces artifacts. */
  predicate ProducesAlone(db: Db, id: Id, registered: bool, handler: int -> Answer, w: World, tick: nat, lease: int) {
    && registered && 0 < lease && IsPending(db, id) && db.agentTasks[id].attempts < db.agentTasks[id].maxAttempts
    && AgentRunActive(db, db.agentTasks[id].runId)
    && w(tick + 1).now < w(tick).now + lease && w(tick + 2).now < w(tick + 1).now + lease
    && w(tick).others == [] && w(tick + 1).others == [] && w(tick + 2).others == []
    && handler(db.agentTasks[id].attempts + 1).Produces? && handler(db.agentTasks[id].attempts + 1).refs != []
  }

  /**
   * One dispatch. Others act before every step, also while the handler runs. Errors that
   * arise outside the model boundary are not retryable. Whatever others do, a handler runs
   * only on an attempt of its own.
   */
  method Dispatch(
    store: Store, id: Id, registered: bool, handler: int -> Answer, w: World, tick: nat, token: Id, lease: int)
    returns (result: Dispatched, next: nat)
    requires store.Valid() && id in store.agentTasks
    modifies store
    ensures store.Valid() && tick <= next && TaskLater(old(store.Content()), store.Content(), id)
    ensures HandlerRan(result) ==> Attempted(old(store.Content()), store.Content(), id)
    ensures result.NotExecuted? ==> !IsPending(store.Content(), id)
    ensures result.Finished? ==> store.agentTasks[id].status.Completed? && store.agentTasks[id].outputs == result.refs != []
    ensures result.Finished? ==> exists n :: old(store.agentTasks)[id].attempts < n && handler(n) == Produces(result.refs)
    ensures result.Error? && result.retryable ==>
              result.ran && exists n :: old(store.agentTasks)[id].attempts < n && handler(n) == Breaks(true)
    ensures result.Error? && result.ran && result.willRetry ==>
              store.agentTasks[id].status.Pending? && store.agentTasks[id].attempts < store.agentTasks[id].maxAttempts
    ensures ProducesAlone(old(store.Content()), id, registered, handler, w, tick, lease) ==>
              result == Finished(handler(old(store.agentTasks)[id].attempts + 1).refs)
    ensures BreaksAlone(old(store.Content()), id, registered, handler, w, tick, lease) ==>
              var task := old(store.agentTasks)[id];
              && result == Error(true, task.attempts + 1 < task.maxAttempts, true) && next == tick + 3
              && store.agentTasks[id].attempts == task.attempts + 1 && store.runs == old(store.runs)
              && store.agentTasks[id].status == Returned(store.agentTasks[id])
  {
    hide Inv;
    hide RowLater;
    hide TaskLater;
    hide Attempted;
    hide HoldsTask;
    ghost var begin := store.Content();
    var refused, attempt := Claim(store, id, registered, w(tick), token, lease);
    next := tick;
    if refused.Some? { return refused.value, next; }
    ghost var claimed := store.Content();
    next := tick + 1;
    var answer := Usable(handler(attempt));
    Others(store, w(next).others, id);
    ghost var handled := store.Content();
    StillThere(claimed, handled, id);
    if Uncontested(begin, id, registered, w(tick), lease) { ClaimLasts(begin, claimed, id, token, w(tick).now + lease, w(tick + 1).now); }
    result, next := Settle(store, id, token, answer, w, next, lease);
    LaterChain(claimed, handled, store.Content(), id);
    AttemptedLater(begin, claimed, store.Content(), id);
    PendingHasAttempt(begin, store.Content(), id);
  }

  /** Nobody acts before the claim, and the task can be claimed. */
  predicate Uncontested(db: Db, id: Id, registered: bool, m: Moment, lease: int) {
    && registered && 0 < lease && m.others == [] && IsPending(db, id)
    && db.agentTasks[id].attempts < db.agentTasks[id].maxAttempts && AgentRunActive(db, db.agentTasks[id].runId)
  }

  /** The claim of a dispatch, or why there is none; without one nothing has changed but by others. */
  method Claim(store: Store, id: Id, registered: bool, m: Moment, token: Id, lease: int)
    returns (refused: Option<Dispatched>, attempt: int)
    requires store.Valid() && id in store.agentTasks
    modifies store
    ensures store.Valid() && TaskLater(old(store.Content()), store.Content(), id) && id in store.agentTasks
    ensures refused.Some? ==> refused.value == NotExecuted || refused.value == Error(false, true, false)
    ensures refused == Some(NotExecuted) ==> !IsPending(store.Content(), id)
    ensures refused.None? ==> Attempted(old(store.Content()), store.Content(), id) && attempt == store.agentTasks[id].attempts
    ensures refused.None? ==> old(store.agentTasks)[id].attempts < attempt
    ensures Uncontested(old(store.Content()), id, registered, m, lease) ==>
              refused.None? && Claimed(old(store.Content()), store.Content(), id, token, m.now + lease)
  {
    hide Inv;
    hide RowLater;
    hide TaskLater;
    hide Attempted;
    ghost var begin := store.Content();
    var task := store.agentTasks[id];
    attempt := task.attempts;
    LaterItself(begin, id);
    if !task.status.Pending? { return Some(NotExecuted), attempt; }
    if !registered { return Some(Error(false, true, false)), attempt; }
    Others(store, m.others, id);
    ghost var before := store.Content();
    StillThere(begin, before, id);
    ClaimStarts(before, id, m.now, lease, token);
    var claim := store.ClaimAgentTask(id, m.now, lease, token);
    if claim != Reply.Done {
      if !store.agentTasks[id].status.Pending? { return Some(NotExecuted), attempt; }
      return Some(Error(false, true, false)), attempt;
    }
    ClaimUsesAttempt(before, store.Content(), id, token, m.now + lease);
    NextAttempt(begin, before, store.Content(), id);
    refused, attempt := None, store.agentTasks[id].attempts;
  }

  /** What a claim means for the steps that follow within its lease. */
  lemma ClaimLasts(before: Db, db: Db, id: Id, token: Id, until: int, now: int)
    requires Claimed(before, db, id, token, until)
    ensures now < until ==> HoldsTask(db, id, token, now)
    ensures id in before.agentTasks && id in db.agentTasks && db.runs == before.runs
    ensures db.agentTasks[id].attempts == before.agentTasks[id].attempts + 1
  {
  }

  lemma StillThere(db: Db, d: Db, id: Id)
    requires TaskLater(db, d, id)
    ensures id in d.agentTasks && d.agentTasks[id].maxAttempts == db.agentTasks[id].maxAttempts
  {
  }

  /** A pending row that has been attempted has another attempt left. */
  lemma PendingHasAttempt(begin: Db, db: Db, id: Id)
    requires Inv(begin) && Inv(db) && Attempted(begin, db, id)
    ensures id in db.agentTasks && db.agentTasks[id].maxAttempts == begin.agentTasks[id].maxAttempts
    ensures db.agentTasks[id].status.Pending? ==> db.agentTasks[id].attempts < db.agentTasks[id].maxAttempts
  {
    assert TaskRowOk(begin.agentTasks[id]) && TaskRowOk(db.agentTasks[id]);
  }

  lemma LaterItself(db: Db, id: Id)
    requires id in db.agentTasks
    ensures TaskLater(db, db, id)
  {
  }

  lemma NextAttempt(begin: Db, before: Db, claimed: Db, id: Id)
    requires TaskLater(begin, before, id) && TaskLater(before, claimed, id)
    requires id in claimed.agentTasks && id in before.agentTasks
    requires claimed.agentTasks[id].attempts == before.agentTasks[id].attempts + 1
    ensures id in begin.agentTasks && begin.agentTasks[id].attempts < claimed.agentTasks[id].attempts
    ensures TaskLater(begin, claimed, id) && Attempted(begin, claimed, id)
  {
  }

  // ---------------------------------------------------------------- redriving

  predicate AlwaysMalformed(handler: int -> Answer, from: int, to: int) {
    forall n :: from < n <= to ==> handler(n) == Breaks(true)
  }

  /** Nobody else acts, and a step is shorter than a lease. */
  ghost predicate Undisturbed(w: World, lease: int) {
    0 < lease && forall n: nat :: w(n).others == [] && w(n + 1).now < w(n).now + lease
  }

  /**
   * Redriving under the default predicate. Whatever others do, the handler runs at most
   * `max_attempts - attempts` times. When it fails at the model boundary every time and nobody
   * else takes an attempt, it runs exactly that often and the agent task ends up FAILED.
   */
  method DispatchWithRetries(
    store: Store, id: Id, registered: bool, handler: int -> Answer, w: World, tokens: nat -> Id, lease: int)
    returns (result: Dispatched, runs: int)
    requires store.Valid() && id in store.agentTasks
    modifies store
    ensures store.Valid() && TaskLater(old(store.Content()), store.Content(), id)
    ensures 0 <= runs <= Max(0, old(store.agentTasks)[id].maxAttempts - old(store.agentTasks)[id].attempts)
    ensures old(store.agentTasks)[id].attempts + runs <= store.agentTasks[id].attempts
    ensures result.Finished? ==> store.agentTasks[id].status.Completed? && store.agentTasks[id].outputs == result.refs
    ensures var task := old(store.agentTasks)[id];
            (registered && Undisturbed(w, lease) && task.status.Pending? && task.attempts < task.maxAttempts &&
             AgentRunActive(old(store.Content()), task.runId) && AlwaysMalformed(handler, task.attempts, task.maxAttempts)) ==>
              store.agentTasks[id].status.Failed? && runs == task.maxAttempts - task.attempts
  {
    hide Inv;
    runs := 0;
    var tick: nat := 0;
    ghost var before := store.Content();
    ghost var task := store.agentTasks[id];
    ghost var alone := registered && Undisturbed(w, lease) && task.status.Pending? && task.attempts < task.maxAttempts &&
                       AgentRunActive(before, task.runId) && AlwaysMalformed(handler, task.attempts, task.maxAttempts);
    LaterItself(before, id);
    while true
      invariant store.Valid() && TaskLater(before, store.Content(), id) && 0 <= runs
      invariant task.attempts + runs <= store.agentTasks[id].attempts
      invariant alone ==> store.runs == before.runs && store.agentTasks[id].status.Pending? &&
                          store.agentTasks[id].attempts == task.attempts + runs < task.maxAttempts
      decreases task.maxAttempts - store.agentTasks[id].attempts
    {
      ghost var db := store.Content();
      result, tick := Dispatch(store, id, registered, handler, w, tick, tokens(tick), lease);
      LaterChain(before, db, store.Content(), id);
      if HandlerRan(result) { runs := runs + 1; }
      if !result.Error? { return; }
      if !result.willRetry || !result.retryable { return; }
      if store.agentTasks[id].attempts >= store.agentTasks[id].maxAttempts { return; }
    }
  }
}
