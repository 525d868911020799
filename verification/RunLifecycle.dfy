/**
 * The lifecycle service and the commands over it. A command first reads the run and acts on
 * that snapshot later, when the row may have changed. However stale the snapshot, the row
 * itself moves along the state machine or not at all.
 */
module RunLifecycle {
  import opened Common
  import opened StoreModel
  import opened StoreInvariants
  import opened StoreSafety
  import opened StoreGuarantees
  import opened RuntimeStore

  datatype Event =
    | RunStarted | RunResumed | RunPauseRequested | RunPaused | RunCompleted | RunFailed
    | RunCancelRequested | RunCancelled

  /** The in-memory transition of the state machine; `None` is the refusal. */
  function Transition(run: Run, target: RunStatus): Option<Run> {
    if Allowed(run.status, target) then Some(run.(status := target)) else None
  }

  /** The row of run `r`, if it exists, stayed or took an allowed transition. */
  predicate MovedProperly(before: Db, after: Db, r: Id) {
    r in before.runs ==> FollowsMachine(before, after, r)
  }

  lemma ControlMovesProperly(db: Db, a: Action, r: Id)
    requires StartsProperly(a)
    ensures MovedProperly(db, Apply(db, a).db, r)
  {
    if r in db.runs { StatusFollowsMachine(db, a, r); }
  }

  class Lifecycle {
    const store: Store
    var events: seq<Event>

    constructor (store: Store)
      ensures this.store == store && events == []
    {
      this.store, events := store, [];
    }

    /** Starts from the status of the snapshot, whatever it is. */
    method Start(r: Id, snapshot: Run, owner: Option<Id>, now: int, sameStamp: bool) returns (ok: bool)
      requires store.Valid()
      modifies this, store
      ensures store.Valid()
      ensures ok <==> StoreModel.StartRun(old(store.Content()), r, snapshot.status, now, owner, sameStamp).reply == Done
      ensures ok ==> r in store.runs && store.runs[r].status.Running? && r in old(store.runs) &&
                     old(store.runs)[r].status == snapshot.status
      ensures !ok ==> store.Content() == old(store.Content())
      ensures events == old(events) + if !ok then [] else if snapshot.status.Paused? then [RunResumed] else [RunStarted]
      ensures snapshot.status.Pending? || snapshot.status.Paused? || snapshot.status.Running? ==>
                forall o :: MovedProperly(old(store.Content()), store.Content(), o)
    {
      hide Inv;
      hide MovedProperly;
      forall o | snapshot.status.Pending? || snapshot.status.Paused? || snapshot.status.Running?
        ensures MovedProperly(store.Content(), StoreModel.StartRun(store.Content(), r, snapshot.status, now, owner, sameStamp).db, o)
      {
        ControlMovesProperly(store.Content(), DoStart(r, snapshot.status, now, owner, sameStamp), o);
      }
      var reply := store.StartRun(r, snapshot.status, now, owner, sameStamp);
      if reply != Done { return false; }
      events := events + [if snapshot.status.Paused? then RunResumed else RunStarted];
      ok := true;
    }

    method RequestPause(r: Id, snapshot: Run, sameStamp: bool) returns (ok: bool)
      requires store.Valid()
      modifies this, store
      ensures store.Valid()
      ensures ok <==> snapshot.status.Running? && RunActive(old(store.Content()), r) &&
                      !(sameStamp && old(store.runs)[r].pauseRequested)
      ensures ok ==> r in store.runs && store.runs[r] == old(store.runs)[r].(pauseRequested := true)
      ensures !ok ==> store.Content() == old(store.Content())
      ensures events == old(events) + if ok then [RunPauseRequested] else []
    {
      if !snapshot.status.Running? { return false; }
      var reply := store.RequestRunPause(r, sameStamp);
      if reply != Done { return false; }
      events := events + [RunPauseRequested];
      ok := true;
    }

    method Pause(r: Id, owner: Id, now: int) returns (ok: bool)
      requires store.Valid()
      modifies this, store
      ensures store.Valid()
      ensures ok <==> OwnsRun(old(store.Content()), r, owner, now) && Active(old(store.runs)[r])
      ensures ok ==> r in store.runs && store.runs[r].status.Paused? && store.runs[r].owner.None?
      ensures !ok ==> store.Content() == old(store.Content())
      ensures events == old(events) + if ok then [RunPaused] else []
    {
      var reply := store.PauseRun(r, owner, now);
      if reply != Done { return false; }
      events := events + [RunPaused];
      ok := true;
    }

    method Complete(r: Id, owner: Id, now: int, generation: nat, best: Id) returns (ok: bool)
      requires store.Valid()
      modifies this, store
      ensures store.Valid()
      ensures ok <==> OwnsRun(old(store.Content()), r, owner, now) && Active(old(store.runs)[r]) &&
                      !old(store.runs)[r].pauseRequested
      ensures ok ==> r in store.runs && store.runs[r].status.Completed? && store.runs[r].reserved == 0 &&
                     store.runs[r].best == Some(best)
      ensures !ok ==> store.Content() == old(store.Content())
      ensures events == old(events) + if ok then [RunCompleted] else []
    {
      CompleteIff(store.Content(), r, owner, now, generation, best);
      var reply := store.CompleteRun(r, owner, now, generation, best);
      if reply != Done { return false; }
      events := events + [RunCompleted];
      ok := true;
    }

    method Fail(r: Id, now: int, owner: Option<Id>) returns (ok: bool)
      requires store.Valid()
      modifies this, store
      ensures store.Valid()
      ensures ok <==> FencedBy(old(store.Content()), r, owner, now) && !old(store.runs)[r].cancelRequested &&
                      (old(store.runs)[r].status.Pending? || old(store.runs)[r].status.Running?)
      ensures ok ==> r in store.runs && store.runs[r].status.Failed? && store.runs[r].reserved == 0
      ensures !ok ==> store.Content() == old(store.Content())
      ensures events == old(events) + if ok then [RunFailed] else []
    {
      FailRunIff(store.Content(), r, now, owner);
      var reply := store.FailRun(r, now, owner);
      if reply != Done { return false; }
      events := events + [RunFailed];
      ok := true;
    }

    /**
     * The state machine judges the snapshot, the store the row; both must agree. The
     * snapshot then takes over what the store left.
     */
    method Cancel(r: Id, snapshot: Run, now: int) returns (ok: bool, run: Run)
      requires store.Valid()
      modifies this, store
      ensures store.Valid()
      ensures ok <==> !Terminal(snapshot.status) && r in old(store.runs) && !Terminal(old(store.runs)[r].status)
      ensures ok ==> r in store.runs && store.runs[r].status.Cancelled? && store.runs[r].cancelRequested
      ensures ok ==> run.status.Cancelled? && run.cancelRequested && run.reserved == store.runs[r].reserved &&
                     run.owner.None? && run.lease.None?
      ensures !ok ==> store.Content() == old(store.Content())
      ensures events == old(events) + if ok then [RunCancelRequested, RunCancelled] else []
    {
      run := snapshot;
      var moved := Transition(run, RunStatus.Cancelled);
      if moved.None? { return false, run; }
      run := moved.value.(cancelRequested := true);
      CancelIff(store.Content(), r, now);
      var reply := store.RequestRunCancel(r, now);
      if reply != Done { return false, run; }
      var persisted := store.runs[r];
      run := run.(reserved := persisted.reserved, owner := persisted.owner, lease := persisted.lease);
      events := events + [RunCancelRequested];
      events := events + [RunCancelled];
      ok := true;
    }
  }

  datatype Answer = Accepted | Conflict

  /** Resuming starts a paused run; a pending or running one is only scheduled again. */
  method Resume(service: Lifecycle, r: Id, snapshot: Run, now: int, sameStamp: bool) returns (answer: Answer)
    requires service.store.Valid()
    modifies service, service.store
    ensures service.store.Valid()
    ensures forall o :: MovedProperly(old(service.store.Content()), service.store.Content(), o)
    ensures answer.Accepted? && snapshot.status.Paused? ==> r in service.store.runs && service.store.runs[r].status.Running?
    ensures Terminal(snapshot.status) ==> answer.Conflict?
    ensures answer.Conflict? || !snapshot.status.Paused? ==> service.store.Content() == old(service.store.Content())
  {
    hide Inv;
    if snapshot.status.Paused? {
      var ok := service.Start(r, snapshot, None, now, sameStamp);
      return if ok then Accepted else Conflict;
    }
    if !snapshot.status.Pending? && !snapshot.status.Running? { return Conflict; }
    answer := Accepted;
  }

  /** The entry of an executing runtime, which holds the lease: start a pending run, accept a running one. */
  method EnterExecution(service: Lifecycle, r: Id, snapshot: Run, owner: Id, now: int, sameStamp: bool) returns (answer: Answer)
    requires service.store.Valid()
    modifies service, service.store
    ensures service.store.Valid()
    ensures forall o :: MovedProperly(old(service.store.Content()), service.store.Content(), o)
    ensures answer.Accepted? && snapshot.status.Pending? ==>
              r in service.store.runs && service.store.runs[r].status.Running? &&
              OwnsRun(old(service.store.Content()), r, owner, now)
    ensures !snapshot.status.Pending? && !snapshot.status.Running? ==> answer.Conflict?
    ensures answer.Conflict? ==> service.store.Content() == old(service.store.Content())
  {
    hide Inv;
    if snapshot.status.Pending? {
      var ok := service.Start(r, snapshot, Some(owner), now, sameStamp);
      return if ok then Accepted else Conflict;
    }
    if !snapshot.status.Running? { return Conflict; }
    answer := Accepted;
  }
}
