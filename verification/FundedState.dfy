/**
 * A run in progress on the budget chosen for it, in the middle of whatever the other users
 * of the store do: how its jobs occupy the slots it may use, and why the store accepts every
 * evaluation that finds a slot free.
 */
module FundedState {
  import opened Common
  import opened StoreModel
  import opened StoreInvariants
  import opened StoreSafety
  import opened StoreGuarantees
  import opened Funding
  import EvaluationDriver

  /**
   * Who evaluates. External workers are waited for, however long it takes. An inline worker
   * evaluates while the runtime waits; it is the sole one if nobody else claims jobs and no
   * evaluation outlives its lease, and otherwise shares the queue with others.
   */
  datatype Mode = External | Shared | Sole

  datatype Worker = Worker(
    id: Id, leaseTime: int, maxPoll: int,
    evaluate: (Job, int) -> EvaluationDriver.Outcome, retriesRejected: Error -> bool)

  /**
   * What is fixed when a run starts. `request` is how `submit` builds the job of a candidate:
   * id and key are digests of what is evaluated. The run evaluates its trials and, at the
   * end, the clones of the chosen candidate.
   */
  datatype Plan = Plan(
    r: Id, taskId: Id, cost: int, population: nat, generations: nat, seeds: nat,
    request: Id -> NewJob, trials: set<Id>, clones: set<Id>, mode: Mode, worker: Worker)

  predicate Own(p: Plan, c: Id) {
    c in p.trials || c in p.clones
  }

  function Price(p: Plan, c: Id): int {
    if c in p.clones then FinalPrice(p.cost) else p.cost
  }

  predicate ProperRequest(p: Plan, c: Id) {
    var n := p.request(c);
    && n.candidateId == c && n.maxAttempts > 0
    && (Own(p, c) ==> n.runId == p.r && n.taskId == p.taskId && n.budget == Price(p, c))
  }

  /** The worker's poll and lease are set, and no evaluation takes as long as a lease. */
  ghost predicate InTime(w: Worker) {
    0 < w.maxPoll && 0 < w.leaseTime && forall j, t :: w.evaluate(j, t).took < w.leaseTime
  }

  ghost predicate PlanOk(p: Plan) {
    && p.cost > 0 && p.trials !! p.clones && (p.mode.Sole? ==> InTime(p.worker))
    && (forall c :: ProperRequest(p, c))
    && (forall a, b :: p.request(a).id == p.request(b).id || p.request(a).key == p.request(b).key ==> a == b)
  }

  function SlotId(p: Plan, c: Id): Id {
    p.request(c).id
  }

  /** A job as `submit` builds it. */
  predicate Built(p: Plan, id: Id, j: Job) {
    && id == SlotId(p, j.candidateId) && SameIdentity(j, p.request(j.candidateId))
    && (j.runId == p.r ==> Own(p, j.candidateId))
  }

  ghost predicate JobsBuilt(p: Plan, jobs: map<Id, Job>) {
    forall id {:trigger Built(p, id, jobs[id])} :: id in jobs ==> Built(p, id, jobs[id])
  }

  ghost predicate OwnCandidates(p: Plan, candidates: map<Id, Id>) {
    forall c {:trigger Own(p, c)} :: Own(p, c) && c in candidates ==> candidates[c] == p.r
  }

  /** The run is running on its total budget. */
  ghost predicate InProgress(db: Db, p: Plan) {
    && p.r in db.runs && Active(db.runs[p.r]) && db.runs[p.r].taskId == p.taskId && p.taskId in db.totals
    && db.totals[p.taskId] == TotalBudget(p.cost, p.population, p.generations, p.seeds)
    && JobsBuilt(p, db.jobs) && OwnCandidates(p, db.candidates)
  }

  /** The jobs of the run that use up a slot of one size. */
  ghost function Occupied(db: Db, r: Id, budget: int): set<Id> {
    set id | id in db.jobs && Occupies(db.jobs[id], r) && db.jobs[id].budget == budget
  }

  /** Nobody is evaluating a job of the run. */
  ghost predicate Idle(jobs: map<Id, Job>, r: Id) {
    forall id :: id in jobs && jobs[id].runId == r ==> !jobs[id].status.Running?
  }

  /** Nothing but `paid` occupies evolution slots, and nothing but `finals` final ones. */
  ghost predicate Within(db: Db, p: Plan, paid: set<Id>, finals: set<Id>) {
    && Inv(db) && InProgress(db, p) && (p.mode.Sole? ==> Idle(db.jobs, p.r))
    && Occupied(db, p.r, p.cost) <= paid && Occupied(db, p.r, FinalPrice(p.cost)) <= finals
  }

  // ---------------------------------------------------------------- the rest of the world

  /**
   * What others may do while the run goes on uninterrupted: anything but submit for it, stop
   * it, or take its candidates and names - nor claim jobs beside a sole worker.
   */
  predicate Elsewhere(p: Plan, a: Action) {
    && (a.DoEnqueue? ==>
          a.job.runId != p.r && a.job.id == SlotId(p, a.job.candidateId) &&
          SameIdentity(FreshJob(a.job), p.request(a.job.candidateId)))
    && (a.DoAddCandidate? && Own(p, a.candidateId) ==> a.runId == p.r)
    && (StatusChanging(a) ==> a.runId != p.r)
    && (a.DoClaim? ==> !p.mode.Sole?)
  }

  predicate Quiet(p: Plan, script: seq<Action>) {
    forall k :: 0 <= k < |script| ==> Elsewhere(p, script[k])
  }

  lemma ControlElsewhere(db: Db, a: Action, r: Id)
    requires CancelOk(db.runs) && r in db.runs && StatusChanging(a) && a.runId != r
    ensures SameStatus(db, Apply(db, a).db, r)
  {
    if RunControl(a) {
      hide Apply;
      if Apply(db, a).db != db { RunControlRow(db, a); }
    } else {
      FinishElsewhere(db, a, r);
    }
  }

  lemma FinishElsewhere(db: Db, a: Action, r: Id)
    requires r in db.runs && (a.DoComplete? || a.DoFailRun? || a.DoRequestCancel?) && a.runId != r
    ensures SameStatus(db, Apply(db, a).db, r)
  {
    hide Refunded;
    hide StoppedJobs;
    hide StoppedTasks;
  }

  lemma StaysActive(db: Db, a: Action, p: Plan)
    requires Inv(db) && InProgress(db, p) && Elsewhere(p, a)
    ensures SameStatus(db, Apply(db, a).db, p.r) && SameTask(db, Apply(db, a).db, p.r)
  {
    hide Apply;
    RunKeepsTask(db, a, p.r);
    if StatusChanging(a) { ControlElsewhere(db, a, p.r); } else { OthersKeepStatus(db, a, p.r); }
  }

  /** Candidates are never dropped or moved; the only one that can appear is the one added. */
  lemma CandidatesStay(db: Db, a: Action, c: Id)
    ensures c in db.candidates ==> c in Apply(db, a).db.candidates && Apply(db, a).db.candidates[c] == db.candidates[c]
    ensures c !in db.candidates && c in Apply(db, a).db.candidates ==>
              a.DoAddCandidate? && a.candidateId == c && Apply(db, a).db.candidates[c] == a.runId
  {
    if !a.DoAddCandidate? {
      hide Apply;
      OthersLeaveCandidates(db, a);
    }
  }

  lemma OthersLeaveCandidates(db: Db, a: Action)
    requires !a.DoAddCandidate?
    ensures Apply(db, a).db.candidates == db.candidates
  {
    if JobAction(a) {
      JobActionLeavesCandidates(db, a);
    } else if a.DoComplete? || a.DoFailRun? || a.DoRequestCancel? {
      FinishLeavesCandidates(db, a);
    } else if RunControl(a) {
      ControlLeavesCandidates(db, a);
    }
  }

  lemma ControlLeavesCandidates(db: Db, a: Action)
    requires RunControl(a)
    ensures Apply(db, a).db.candidates == db.candidates
  {
  }

  lemma JobActionLeavesCandidates(db: Db, a: Action)
    requires JobAction(a)
    ensures Apply(db, a).db.candidates == db.candidates
  {
    if a.DoClaim? && Apply(db, a).reply != NoWork {
      var id := ClaimEffect(db, a.worker, a.now, a.seconds, a.locked);
    } else if a.DoEnqueue? && Apply(db, a).reply == Done {
      EnqueueIsNew(db, a.job);
    }
  }

  lemma FinishLeavesCandidates(db: Db, a: Action)
    requires a.DoComplete? || a.DoFailRun? || a.DoRequestCancel?
    ensures Apply(db, a).db.candidates == db.candidates
  {
    hide Refunded;
    hide StoppedJobs;
    hide StoppedTasks;
  }

  /** A job row after a transaction: a moved old one, or the one that was enqueued. */
  lemma RowAfter(db: Db, a: Action, id: Id)
    requires id in Apply(db, a).db.jobs
    ensures var k := Apply(db, a).db.jobs[id];
            if id in db.jobs then
              && k.runId == db.jobs[id].runId && k.candidateId == db.jobs[id].candidateId
              && k.budget == db.jobs[id].budget && k.key == db.jobs[id].key && k.seed == db.jobs[id].seed
              && k.taskId == db.jobs[id].taskId && (!Live(db.jobs[id].status) ==> k == db.jobs[id])
            else a.DoEnqueue? && id == a.job.id && k == FreshJob(a.job)
  {
    hide Apply;
    if id in db.jobs {
      MoveEffect(db, a, id);
      MoveKeepsIdentity(db, a, Apply(db, a).reply, id, Apply(db, a).db.jobs[id]);
      if !Live(db.jobs[id].status) { SettledJobStays(db, a, id); }
    } else if !a.DoEnqueue? {
      OnlyEnqueueAddsJobs(db, a, id);
    } else {
      NewRow(db, a, id);
    }
  }

  lemma NewRow(db: Db, a: Action, id: Id)
    requires a.DoEnqueue? && id in Apply(db, a).db.jobs && id !in db.jobs
    ensures id == a.job.id && Apply(db, a).db.jobs[id] == FreshJob(a.job)
  {
    if Apply(db, a).reply == Done { EnqueueIsNew(db, a.job); }
  }

  lemma JobsStayBuilt(db: Db, a: Action, p: Plan)
    requires JobsBuilt(p, db.jobs) && Elsewhere(p, a)
    ensures JobsBuilt(p, Apply(db, a).db.jobs)
  {
    hide Apply;
    var jobs := Apply(db, a).db.jobs;
    forall id | id in jobs ensures Built(p, id, jobs[id]) {
      RowAfter(db, a, id);
      if id in db.jobs { assert Built(p, id, db.jobs[id]); }
    }
  }

  lemma NothingNewOccupied(db: Db, a: Action, p: Plan, budget: int)
    requires Elsewhere(p, a)
    ensures Occupied(Apply(db, a).db, p.r, budget) <= Occupied(db, p.r, budget)
  {
    hide Apply;
    forall id | id in Occupied(Apply(db, a).db, p.r, budget) ensures id in Occupied(db, p.r, budget) {
      RowAfter(db, a, id);
    }
  }

  lemma StaysIdle(db: Db, a: Action, r: Id)
    requires Idle(db.jobs, r) && !a.DoClaim?
    ensures Idle(Apply(db, a).db.jobs, r)
  {
    hide Apply;
    forall id | id in Apply(db, a).db.jobs && Apply(db, a).db.jobs[id].runId == r
      ensures !Apply(db, a).db.jobs[id].status.Running?
    {
      RowAfter(db, a, id);
      if id in db.jobs { MoveEffect(db, a, id); }
    }
  }

  /** Settled jobs are as they were, and no job or candidate is gone. */
  ghost predicate Later(db: Db, d: Db) {
    && (forall id {:trigger d.jobs[id]} {:trigger id in d.jobs} :: id in db.jobs ==>
          id in d.jobs && (!Live(db.jobs[id].status) ==> d.jobs[id] == db.jobs[id]))
    && db.candidates.Keys <= d.candidates.Keys
  }

  lemma StepIsLater(db: Db, a: Action)
    ensures Later(db, Apply(db, a).db)
  {
    hide Apply;
    var d := Apply(db, a).db;
    forall id | id in db.jobs ensures id in d.jobs && (!Live(db.jobs[id].status) ==> d.jobs[id] == db.jobs[id]) {
      MoveEffect(db, a, id);
      if !Live(db.jobs[id].status) { SettledJobStays(db, a, id); }
    }
    forall c | c in db.candidates ensures c in d.candidates { CandidatesStay(db, a, c); }
  }

  lemma LaterChain(a: Db, b: Db, c: Db)
    requires Later(a, b) && Later(b, c)
    ensures Later(a, c)
  {
    forall id | id in a.jobs ensures id in c.jobs && (!Live(a.jobs[id].status) ==> c.jobs[id] == a.jobs[id]) {
      assert id in b.jobs;
    }
  }

  /** Whatever others do, the run goes on within the same slots. */
  lemma ElsewhereKeepsWithin(db: Db, a: Action, p: Plan, paid: set<Id>, finals: set<Id>)
    requires Within(db, p, paid, finals) && Elsewhere(p, a)
    ensures Within(Apply(db, a).db, p, paid, finals) && Later(db, Apply(db, a).db)
  {
    hide Apply;
    hide Inv;
    hide Elsewhere;
    hide Occupied;
    hide TotalBudget;
    var d := Apply(db, a).db;
    StepKeepsInv(db, a);
    StaysActive(db, a, p);
    JobsStayBuilt(db, a, p);
    NothingNewOccupied(db, a, p, p.cost);
    NothingNewOccupied(db, a, p, FinalPrice(p.cost));
    StepIsLater(db, a);
    CandidatesStayOwn(db, a, p);
    if p.mode.Sole? {
      NoClaimBesideSole(p, a);
      StaysIdle(db, a, p.r);
    }
  }

  lemma NoClaimBesideSole(p: Plan, a: Action)
    requires Elsewhere(p, a) && p.mode.Sole?
    ensures !a.DoClaim?
  {
  }

  lemma CandidatesStayOwn(db: Db, a: Action, p: Plan)
    requires OwnCandidates(p, db.candidates) && Elsewhere(p, a)
    ensures OwnCandidates(p, Apply(db, a).db.candidates)
  {
    hide Apply;
    var d := Apply(db, a).db;
    forall c | Own(p, c) && c in d.candidates ensures d.candidates[c] == p.r { CandidatesStay(db, a, c); }
  }

  /** What the driver's own worker does keeps the run within its slots as well. */
  lemma WorkKeepsWithin(db: Db, d: Db, p: Plan, paid: set<Id>, finals: set<Id>)
    requires Within(db, p, paid, finals) && EvaluationDriver.WorkDone(db, d) && Inv(d)
    ensures Within(d, p, paid, finals) && Later(db, d)
  {
    hide Inv;
    hide TotalBudget;
    assert forall id :: id in d.jobs ==> EvaluationDriver.RowDone(db.jobs[id], d.jobs[id]);
    forall id | id in d.jobs ensures Built(p, id, d.jobs[id]) { assert Built(p, id, db.jobs[id]); }
  }

  // ---------------------------------------------------------------- slots

  ghost function Ones(m: map<Id, int>): set<Id> {
    set k | k in m && m[k] == 1
  }

  lemma OnesWithout(m: map<Id, int>, k: Id)
    requires k in m
    ensures |Ones(m)| == |Ones(m - {k})| + if m[k] == 1 then 1 else 0
  {
    assert Ones(m) == if m[k] == 1 then Ones(m - {k}) + {k} else Ones(m - {k});
  }

  lemma {:induction false} TotalOfOnes(m: map<Id, int>)
    requires forall k :: k in m ==> m[k] == 0 || m[k] == 1
    ensures Total(m) == |Ones(m)|
    decreases |m|
  {
    if |m| == 0 {
      assert Ones(m) == {};
    } else {
      var k := AnyKey(m);
      DropShrinks(m, k);
      TotalRemove(m, k);
      TotalOfOnes(m - {k});
      OnesWithout(m, k);
    }
  }

  lemma SlotsAreOccupied(db: Db, r: Id, budget: int)
    ensures SlotsUsed(db.jobs, r, budget) == |Occupied(db, r, budget)|
  {
    var column := SlotColumn(db.jobs, r, budget);
    TotalOfOnes(column);
    assert Ones(column) == Occupied(db, r, budget);
  }

  lemma SubsetSize(a: set<Id>, b: set<Id>)
    requires a <= b
    ensures |a| <= |b|
  {
    assert b == a + (b - a);
  }

  lemma WithinSlots(db: Db, p: Plan, paid: set<Id>, finals: set<Id>)
    requires PlanOk(p) && Within(db, p, paid, finals)
    ensures FundedRun(db, p.r, p.cost, p.population, p.generations, p.seeds)
    ensures SlotsUsed(db.jobs, p.r, p.cost) <= |paid|
    ensures SlotsUsed(db.jobs, p.r, FinalPrice(p.cost)) <= |finals|
  {
    hide Inv;
    SlotsAreOccupied(db, p.r, p.cost);
    SlotsAreOccupied(db, p.r, FinalPrice(p.cost));
    SubsetSize(Occupied(db, p.r, p.cost), paid);
    SubsetSize(Occupied(db, p.r, FinalPrice(p.cost)), finals);
    forall id | id in db.jobs && db.jobs[id].runId == p.r
      ensures db.jobs[id].budget == p.cost || db.jobs[id].budget == FinalPrice(p.cost)
    {
      assert Built(p, id, db.jobs[id]) && ProperRequest(p, db.jobs[id].candidateId);
    }
  }

  // ---------------------------------------------------------------- submitting

  predicate Accepted(reply: Reply) {
    reply == Done || reply.Duplicate?
  }

  /** The evolution or final slot that a candidate's job takes. */
  function PaidWith(p: Plan, paid: set<Id>, c: Id): set<Id> {
    if c in p.clones then paid else paid + {SlotId(p, c)}
  }

  function FinalsWith(p: Plan, finals: set<Id>, c: Id): set<Id> {
    if c in p.clones then finals + {SlotId(p, c)} else finals
  }

  lemma SiblingIsOwn(db: Db, p: Plan, c: Id)
    requires PlanOk(p) && JobsBuilt(p, db.jobs)
    ensures JobsOfCandidate(db, c) == {} || (JobsOfCandidate(db, c) == {SlotId(p, c)} && SameIdentity(db.jobs[SlotId(p, c)], p.request(c)))
    ensures JobsOfCandidate(db, c) == {} ==> !KeyTaken(db, p.request(c).key) && SlotId(p, c) !in db.jobs
  {
    forall id | id in JobsOfCandidate(db, c) ensures id == SlotId(p, c) && SameIdentity(db.jobs[id], p.request(c)) {
      assert Built(p, id, db.jobs[id]);
    }
    if JobsOfCandidate(db, c) == {} {
      forall id | id in db.jobs ensures db.jobs[id].key != p.request(c).key && id != SlotId(p, c) {
        assert Built(p, id, db.jobs[id]);
        assert id !in JobsOfCandidate(db, c);
        assert p.request(db.jobs[id].candidateId).key != p.request(c).key;
      }
    } else {
      var id :| id in JobsOfCandidate(db, c);
    }
  }

  /** A candidate with a result has its job. */
  lemma ResultHasJob(db: Db, p: Plan, c: Id)
    requires Inv(db) && JobsBuilt(p, db.jobs) && CandidateHasResult(db, c)
    ensures SlotId(p, c) in db.jobs && db.jobs[SlotId(p, c)].candidateId == c
  {
    var rid :| rid in db.results && db.results[rid].candidateId == c;
    assert Settled(db.jobs, db.results, rid);
    var id :| Settles(db.jobs, db.results, rid, id);
    assert Built(p, id, db.jobs[id]);
  }

  /** The guards before the one on the budget all pass. */
  lemma OnlyBudgetDecides(db: Db, p: Plan, c: Id)
    requires PlanOk(p) && Inv(db) && InProgress(db, p) && Own(p, c) && c in db.candidates
    ensures var n := p.request(c);
            if JobsOfCandidate(db, c) != {} then EnqueueJob(db, n) == Tx(db, Duplicate(SlotId(p, c)))
            else if n.budget > Available(db, p.r) then EnqueueJob(db, n).reply == Rejected(BudgetExhausted)
            else EnqueueJob(db, n).reply == Done
  {
    hide Inv;
    hide JobsBuilt;
    hide TotalBudget;
    assert ProperRequest(p, c);
    SiblingIsOwn(db, p, c);
    if CandidateHasResult(db, c) {
      ResultHasJob(db, p, c);
      assert SlotId(p, c) in JobsOfCandidate(db, c);
    }
  }

  ghost predicate FreeSlot(p: Plan, c: Id, paid: set<Id>, finals: set<Id>) {
    if c in p.clones then |paid| <= EvolutionSlots(p.population, p.generations) && |finals| < p.seeds
    else |paid| < EvolutionSlots(p.population, p.generations) && |finals| <= p.seeds
  }

  lemma EnqueueAccepted(db: Db, p: Plan, c: Id, paid: set<Id>, finals: set<Id>)
    requires PlanOk(p) && Within(db, p, paid, finals) && Own(p, c) && c in db.candidates
    requires FreeSlot(p, c, paid, finals)
    ensures Accepted(EnqueueJob(db, p.request(c)).reply)
  {
    hide Inv;
    hide FundedRun;
    hide SlotsUsed;
    hide EnqueueJob;
    assert ProperRequest(p, c);
    WithinSlots(db, p, paid, finals);
    OnlyBudgetDecides(db, p, c);
    NeverExhausted(db, p.request(c), p.cost, p.population, p.generations, p.seeds);
  }

  lemma EnqueueTakesSlot(db: Db, p: Plan, c: Id, paid: set<Id>, finals: set<Id>)
    requires PlanOk(p) && Within(db, p, paid, finals) && Own(p, c) && c in db.candidates
    requires Accepted(EnqueueJob(db, p.request(c)).reply)
    ensures var d := EnqueueJob(db, p.request(c)).db;
            && Within(d, p, PaidWith(p, paid, c), FinalsWith(p, finals, c))
            && SlotId(p, c) in d.jobs && d.jobs[SlotId(p, c)].candidateId == c && Later(db, d)
  {
    hide Inv;
    hide TotalBudget;
    assert ProperRequest(p, c);
    EnqueueKeepsInv(db, p.request(c));
    OnlyBudgetDecides(db, p, c);
    if EnqueueJob(db, p.request(c)).reply == Done {
      EnqueueIsNew(db, p.request(c));
      NewJobTakesSlot(db, p, c, paid, finals);
    } else {
      SiblingIsOwn(db, p, c);
      assert SlotId(p, c) in JobsOfCandidate(db, c);
    }
  }

  lemma NewJobTakesSlot(db: Db, p: Plan, c: Id, paid: set<Id>, finals: set<Id>)
    requires PlanOk(p) && Within(db, p, paid, finals) && Own(p, c) && c in db.candidates
    requires EnqueueJob(db, p.request(c)).reply == Done
    ensures var d := EnqueueJob(db, p.request(c)).db;
            && Within(d, p, PaidWith(p, paid, c), FinalsWith(p, finals, c))
            && SlotId(p, c) in d.jobs && d.jobs[SlotId(p, c)].candidateId == c && Later(db, d)
  {
    hide Inv;
    hide TotalBudget;
    hide EnqueueJob;
    var n, d := p.request(c), EnqueueJob(db, p.request(c)).db;
    assert ProperRequest(p, c);
    EnqueueKeepsInv(db, n);
    EnqueueIsNew(db, n);
    forall id | id in d.jobs ensures Built(p, id, d.jobs[id]) {
      if id in db.jobs { assert Built(p, id, db.jobs[id]); }
    }
  }
}
