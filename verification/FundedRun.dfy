/**
 * An uninterrupted run over the store, with workers, other runs and operators at work at
 * every point: initial population, four batches a generation, repairs of dead jobs and final
 * trials. Every evaluation the run submits is accepted and the final check passes, unless a
 * prior seed was rejected while its job was still live - which takes an inline worker that
 * is not the sole one.
 */
module FundedRun {
  import opened Common
  import opened StoreModel
  import opened StoreInvariants
  import opened StoreGuarantees
  import opened RuntimeStore
  import opened Funding
  import opened FundedState
  import EvaluationDriver

  // ---------------------------------------------------------------- what happens to a run

  /**
   * A candidate with what others do before it is stored and before its job is submitted, and
   * with what becomes of it if that job dies.
   */
  datatype Trial = Trial(candidate: Id, ahead: seq<Action>, between: seq<Action>, verdict: Verdict)

  datatype Verdict = Dropped | Raises | Repaired(next: Trial, wait: Wait)

  /**
   * How jobs are waited for: the driver's worker works alone from some time on, or all that
   * happens, to these jobs as well, is the given sequence.
   */
  datatype Wait = Driven(start: int) | Interleaved(script: seq<Action>)

  /** Candidates submitted together. */
  datatype Batch = Batch(trials: seq<Trial>, wait: Wait)

  /** With a generation workflow the initial population is built one by one, otherwise at once. */
  datatype Start = AtOnce(all: Batch) | OneByOne(seeds: seq<Batch>, attempts: seq<Batch>)

  datatype Script = Script(start: Start, generations: seq<seq<Batch>>, clones: seq<Trial>)

  /** `Stuck` is the error of a driver that gives up on live jobs; `Waiting` goes on waiting for them. */
  datatype Status = Fine | Raised | Stuck | Waiting | Refused

  ghost predicate WaitOk(p: Plan, w: Wait) {
    if p.mode.Sole? then w.Driven? else w.Interleaved? && Quiet(p, w.script)
  }

  ghost predicate TrialOk(p: Plan, t: Trial) {
    && t.candidate in p.trials && Quiet(p, t.ahead) && Quiet(p, t.between)
    && match t.verdict
       case Repaired(next, wait) => TrialOk(p, next) && WaitOk(p, wait)
       case _ => true
  }

  ghost predicate BatchOk(p: Plan, b: Batch, n: nat) {
    |b.trials| <= n && WaitOk(p, b.wait) && forall i :: 0 <= i < |b.trials| ==> TrialOk(p, b.trials[i])
  }

  ghost predicate BatchesOk(p: Plan, bs: seq<Batch>, n: nat) {
    forall i :: 0 <= i < |bs| ==> BatchOk(p, bs[i], n)
  }

  ghost predicate SinglesOk(p: Plan, bs: seq<Batch>) {
    forall i :: 0 <= i < |bs| ==> |bs[i].trials| == 1 && BatchOk(p, bs[i], 1)
  }

  /** How often building the initial population is tried before it is given up. */
  function MaxAttempts(population: nat): nat {
    Max(10, population * 5)
  }

  /** No more candidates are proposed at once, and no more prior seeds, than the population has members. */
  ghost predicate StartOk(p: Plan, s: Start) {
    match s
    case AtOnce(all) => BatchOk(p, all, p.population)
    case OneByOne(seeds, attempts) =>
      SinglesOk(p, seeds) && |seeds| <= p.population && SinglesOk(p, attempts) && |attempts| == MaxAttempts(p.population)
  }

  ghost predicate ClonesOk(p: Plan, clones: seq<Trial>) {
    |clones| == p.seeds && forall i :: 0 <= i < |clones| ==> CloneOk(p, clones[i])
  }

  ghost predicate CloneOk(p: Plan, t: Trial) {
    t.candidate in p.clones && Quiet(p, t.ahead) && Quiet(p, t.between)
  }

  ghost predicate ScriptOk(p: Plan, s: Script) {
    && StartOk(p, s.start) && ClonesOk(p, s.clones) && |s.generations| == p.generations
    && forall g :: 0 <= g < p.generations ==> |s.generations[g]| == 4 && BatchesOk(p, s.generations[g], p.population)
  }

  function Chain(t: Trial): nat {
    if t.verdict.Repaired? then 1 + Chain(t.verdict.next) else 0
  }

  function LongestChain(trials: seq<Trial>): (n: nat)
    ensures forall i :: 0 <= i < |trials| ==> Chain(trials[i]) <= n
  {
    if trials == [] then 0
    else Max(LongestChain(trials[..|trials| - 1]), Chain(trials[|trials| - 1]))
  }

  // ---------------------------------------------------------------- sets of slots

  /** The jobs of some candidates. */
  function Slots(p: Plan, cs: seq<Id>): (s: set<Id>)
    ensures |s| <= |cs|
    ensures forall i :: 0 <= i < |cs| ==> SlotId(p, cs[i]) in s
    ensures cs == [] ==> s == {}
  {
    if cs == [] then {} else Slots(p, cs[..|cs| - 1]) + {SlotId(p, cs[|cs| - 1])}
  }

  function Candidates(trials: seq<Trial>): (cs: seq<Id>)
    ensures |cs| == |trials| && forall i :: 0 <= i < |cs| ==> cs[i] == trials[i].candidate
  {
    seq(|trials|, i requires 0 <= i < |trials| => trials[i].candidate)
  }

  lemma SlotsNext(p: Plan, cs: seq<Id>, c: Id)
    ensures Slots(p, cs + [c]) == Slots(p, cs) + {SlotId(p, c)}
  {
    assert (cs + [c])[..|cs|] == cs;
  }

  lemma UnionSize(a: set<Id>, b: set<Id>)
    ensures |a + b| <= |a| + |b|
  {
    assert a + b == a + (b - a);
    SubsetSize(b - a, b);
  }

  lemma CandidatesNext(trials: seq<Trial>, i: nat)
    requires i < |trials|
    ensures Candidates(trials[..i + 1]) == Candidates(trials[..i]) + [trials[i].candidate]
  {
  }

  // ---------------------------------------------------------------- steps of the run

  method Others(store: Store, ghost p: Plan, script: seq<Action>, ghost paid: set<Id>, ghost finals: set<Id>)
    requires PlanOk(p) && Within(store.Content(), p, paid, finals) && Quiet(p, script)
    modifies store
    ensures Within(store.Content(), p, paid, finals) && Later(old(store.Content()), store.Content())
  {
    hide Within;
    hide Later;
    hide Elsewhere;
    hide Apply;
    ghost var begin := store.Content();
    LaterItself(begin);
    for k := 0 to |script|
      invariant Within(store.Content(), p, paid, finals) && Later(begin, store.Content())
    {
      ghost var db := store.Content();
      WithinIsValid(db, p, paid, finals);
      ElsewhereKeepsWithin(db, script[k], p, paid, finals);
      LaterChain(begin, db, Apply(db, script[k]).db);
      var reply := store.Perform(script[k]);
    }
  }

  lemma LaterItself(db: Db)
    ensures Later(db, db)
  {
  }

  lemma WithinIsValid(db: Db, p: Plan, paid: set<Id>, finals: set<Id>)
    requires Within(db, p, paid, finals)
    ensures Inv(db) && InProgress(db, p)
  {
  }

  /** The runtime stores a candidate of its own. */
  lemma OwnCandidateAdded(db: Db, p: Plan, c: Id, paid: set<Id>, finals: set<Id>)
    requires Within(db, p, paid, finals) && Own(p, c)
    ensures Elsewhere(p, DoAddCandidate(c, p.r))
    ensures c in AddCandidate(db, c, p.r).db.candidates && AddCandidate(db, c, p.r).reply == Done
  {
  }

  /** Stores a candidate of the run. */
  method StoreCandidate(store: Store, p: Plan, c: Id, ahead: seq<Action>, ghost paid: set<Id>, ghost finals: set<Id>)
    requires PlanOk(p) && Within(store.Content(), p, paid, finals) && Own(p, c) && Quiet(p, ahead)
    modifies store
    ensures Within(store.Content(), p, paid, finals) && Later(old(store.Content()), store.Content())
    ensures c in store.candidates
  {
    hide Within;
    hide Later;
    hide Elsewhere;
    hide Apply;
    ghost var begin := store.Content();
    Others(store, p, ahead, paid, finals);
    ghost var db := store.Content();
    WithinIsValid(db, p, paid, finals);
    OwnCandidateAdded(db, p, c, paid, finals);
    ElsewhereKeepsWithin(db, DoAddCandidate(c, p.r), p, paid, finals);
    AddedByApply(db, c, p.r);
    LaterChain(begin, db, StoreModel.AddCandidate(db, c, p.r).db);
    var reply := store.AddCandidate(c, p.r);
  }

  /** Submits the evaluation of a stored candidate. */
  method Submit(store: Store, p: Plan, c: Id, between: seq<Action>, ghost paid: set<Id>, ghost finals: set<Id>)
    returns (reply: Reply)
    requires PlanOk(p) && Within(store.Content(), p, paid, finals) && Own(p, c) && c in store.candidates
    requires Quiet(p, between)
    modifies store
    ensures Later(old(store.Content()), store.Content())
    ensures FreeSlot(p, c, paid, finals) ==> Accepted(reply)
    ensures Accepted(reply) ==>
              && Within(store.Content(), p, PaidWith(p, paid, c), FinalsWith(p, finals, c))
              && SlotId(p, c) in store.jobs && store.jobs[SlotId(p, c)].candidateId == c
    ensures !Accepted(reply) ==> reply == Rejected(BudgetExhausted) && Within(store.Content(), p, paid, finals)
  {
    hide Within;
    hide Later;
    hide Elsewhere;
    hide StoreModel.EnqueueJob;
    ghost var begin := store.Content();
    Others(store, p, between, paid, finals);
    ghost var db := store.Content();
    StillStored(begin, db, c);
    WithinIsValid(db, p, paid, finals);
    if FreeSlot(p, c, paid, finals) { EnqueueAccepted(db, p, c, paid, finals); }
    AcceptedOrExhausted(db, p, c);
    if Accepted(StoreModel.EnqueueJob(db, p.request(c)).reply) {
      EnqueueTakesSlot(db, p, c, paid, finals);
      LaterChain(begin, db, StoreModel.EnqueueJob(db, p.request(c)).db);
    }
    reply := store.EnqueueJob(p.request(c));
  }

  lemma AcceptedOrExhausted(db: Db, p: Plan, c: Id)
    requires PlanOk(p) && Inv(db) && InProgress(db, p) && Own(p, c) && c in db.candidates
    ensures Accepted(EnqueueJob(db, p.request(c)).reply) ||
            EnqueueJob(db, p.request(c)) == Tx(db, Rejected(BudgetExhausted))
  {
    hide Inv;
    hide InProgress;
    OnlyBudgetDecides(db, p, c);
    RefusalChangesNothing(db, p.request(c));
  }

  lemma RefusalChangesNothing(db: Db, n: NewJob)
    ensures EnqueueJob(db, n).reply.Rejected? ==> EnqueueJob(db, n).db == db
  {
  }

  lemma AddedByApply(db: Db, c: Id, r: Id)
    ensures Apply(db, DoAddCandidate(c, r)) == AddCandidate(db, c, r)
  {
  }

  lemma StillStored(db: Db, d: Db, c: Id)
    requires Later(db, d) && c in db.candidates
    ensures c in d.candidates
  {
  }

  /** Room for some more evolution jobs. */
  ghost predicate RoomFor(p: Plan, paid: set<Id>, finals: set<Id>, n: nat) {
    |paid| + n <= EvolutionSlots(p.population, p.generations) && |finals| <= p.seeds
  }

  ghost predicate Submitted(p: Plan, jobs: map<Id, Job>, cs: seq<Id>) {
    forall i {:trigger SlotId(p, cs[i])} :: 0 <= i < |cs| ==>
      SlotId(p, cs[i]) in jobs && jobs[SlotId(p, cs[i])].candidateId == cs[i]
  }

  lemma SubmittedStays(db: Db, d: Db, p: Plan, cs: seq<Id>)
    requires PlanOk(p) && JobsBuilt(p, d.jobs) && Submitted(p, db.jobs, cs) && Later(db, d)
    ensures Submitted(p, d.jobs, cs)
  {
    forall i | 0 <= i < |cs| ensures SlotId(p, cs[i]) in d.jobs && d.jobs[SlotId(p, cs[i])].candidateId == cs[i] {
      var id := SlotId(p, cs[i]);
      assert id in db.jobs;
      assert Built(p, id, d.jobs[id]);
    }
  }

  /** Submits the jobs of a batch; candidates that already have a result are passed over. */
  method SubmitAll(store: Store, p: Plan, trials: seq<Trial>, ghost paid: set<Id>, ghost finals: set<Id>)
    returns (status: Status)
    requires PlanOk(p) && Within(store.Content(), p, paid, finals)
    requires forall i :: 0 <= i < |trials| ==> TrialOk(p, trials[i])
    modifies store
    ensures (status == Fine || status == Refused) && Later(old(store.Content()), store.Content())
    ensures RoomFor(p, paid, finals, |trials|) ==> status == Fine
    ensures status == Fine ==>
              && Within(store.Content(), p, paid + Slots(p, Candidates(trials)), finals)
              && Submitted(p, store.jobs, Candidates(trials))
    ensures status == Refused && |trials| == 1 ==> Within(store.Content(), p, paid, finals)
  {
    hide Within;
    hide Later;
    hide Quiet;
    hide PlanOk;
    hide Slots;
    hide Submitted;
    hide InProgress;
    ghost var begin := store.Content();
    ghost var taken := paid;
    LaterItself(begin);
    NothingTaken(p, trials, store.jobs, paid);
    for i := 0 to |trials|
      invariant Within(store.Content(), p, taken, finals) && taken == paid + Slots(p, Candidates(trials[..i]))
      invariant Submitted(p, store.jobs, Candidates(trials[..i])) && Later(begin, store.Content())
    {
      ghost var db := store.Content();
      var c := trials[i].candidate;
      WithinIsValid(db, p, taken, finals);
      CandidatesNext(trials, i);
      TakesOneMore(p, trials, i, paid, finals);
      if CandidateHasResult(store.Content(), c) {
        AlreadyPaid(db, p, c, taken, finals);
      } else {
        StoreCandidate(store, p, c, trials[i].ahead, taken, finals);
        ghost var stored := store.Content();
        var reply := Submit(store, p, c, trials[i].between, taken, finals);
        LaterChain(db, stored, store.Content());
        if reply != Done && !reply.Duplicate? {
          LaterChain(begin, db, store.Content());
          FirstIsUnpaid(p, trials, i, paid);
          return Refused;
        }
      }
      taken := PaidWith(p, taken, c);
      WithinIsValid(store.Content(), p, taken, finals);
      LaterChain(begin, db, store.Content());
      OneMoreSubmitted(db, store.Content(), p, Candidates(trials[..i]), c);
    }
    assert trials[..|trials|] == trials;
    status := Fine;
  }

  lemma NothingTaken(p: Plan, trials: seq<Trial>, jobs: map<Id, Job>, paid: set<Id>)
    ensures paid == paid + Slots(p, Candidates(trials[..0])) && Submitted(p, jobs, Candidates(trials[..0]))
  {
    assert Candidates(trials[..0]) == [];
  }

  lemma FirstIsUnpaid(p: Plan, trials: seq<Trial>, i: nat, paid: set<Id>)
    requires i < |trials|
    ensures |trials| == 1 ==> paid + Slots(p, Candidates(trials[..i])) == paid
  {
  }

  lemma TakesOneMore(p: Plan, trials: seq<Trial>, i: nat, paid: set<Id>, finals: set<Id>)
    requires PlanOk(p) && i < |trials| && TrialOk(p, trials[i])
    ensures var c, taken := trials[i].candidate, paid + Slots(p, Candidates(trials[..i]));
            && Own(p, c) && Quiet(p, trials[i].ahead) && Quiet(p, trials[i].between)
            && FinalsWith(p, finals, c) == finals
            && (RoomFor(p, paid, finals, |trials|) ==> FreeSlot(p, c, taken, finals))
            && PaidWith(p, taken, c) == paid + Slots(p, Candidates(trials[..i + 1]))
  {
    var c := trials[i].candidate;
    assert c in p.trials && c !in p.clones;
    CandidatesNext(trials, i);
    SlotsNext(p, Candidates(trials[..i]), c);
    UnionSize(paid, Slots(p, Candidates(trials[..i])));
  }

  lemma AlreadyPaid(db: Db, p: Plan, c: Id, taken: set<Id>, finals: set<Id>)
    requires PlanOk(p) && Within(db, p, taken, finals) && CandidateHasResult(db, c)
    ensures Within(db, p, PaidWith(p, taken, c), finals)
    ensures SlotId(p, c) in db.jobs && db.jobs[SlotId(p, c)].candidateId == c && Later(db, db)
  {
    ResultHasJob(db, p, c);
  }

  lemma OneMoreSubmitted(db: Db, d: Db, p: Plan, cs: seq<Id>, c: Id)
    requires PlanOk(p) && InProgress(d, p) && Submitted(p, db.jobs, cs) && Later(db, d)
    requires SlotId(p, c) in d.jobs && d.jobs[SlotId(p, c)].candidateId == c
    ensures Submitted(p, d.jobs, cs + [c])
  {
    SubmittedStays(db, d, p, cs);
    var next := cs + [c];
    forall i | 0 <= i < |next| ensures SlotId(p, next[i]) in d.jobs && d.jobs[SlotId(p, next[i])].candidateId == next[i] {
      if i < |cs| { assert next[i] == cs[i] && SlotId(p, cs[i]) in d.jobs; }
    }
  }

  // ---------------------------------------------------------------- collecting results

  /** The jobs of a batch have ended. */
  ghost predicate Ended(p: Plan, jobs: map<Id, Job>, cs: seq<Id>) {
    Submitted(p, jobs, cs) &&
    forall i {:trigger SlotId(p, cs[i])} :: 0 <= i < |cs| ==> !Live(jobs[SlotId(p, cs[i])].status)
  }

  predicate Succeeded(p: Plan, jobs: map<Id, Job>, c: Id) {
    SlotId(p, c) in jobs && jobs[SlotId(p, c)].status.Success?
  }

  function Won(p: Plan, jobs: map<Id, Job>, cs: seq<Id>): (won: set<Id>)
    ensures |won| <= WinCount(p, jobs, cs)
  {
    if cs == [] then {}
    else
      Won(p, jobs, cs[..|cs| - 1]) + if Succeeded(p, jobs, cs[|cs| - 1]) then {SlotId(p, cs[|cs| - 1])} else {}
  }

  function WinCount(p: Plan, jobs: map<Id, Job>, cs: seq<Id>): nat {
    if cs == [] then 0
    else WinCount(p, jobs, cs[..|cs| - 1]) + if Succeeded(p, jobs, cs[|cs| - 1]) then 1 else 0
  }

  lemma WinsNext(p: Plan, jobs: map<Id, Job>, cs: seq<Id>, i: nat)
    requires i < |cs|
    ensures WinCount(p, jobs, cs[..i + 1]) == WinCount(p, jobs, cs[..i]) + if Succeeded(p, jobs, cs[i]) then 1 else 0
    ensures Won(p, jobs, cs[..i + 1]) == Won(p, jobs, cs[..i]) + if Succeeded(p, jobs, cs[i]) then {SlotId(p, cs[i])} else {}
  {
    assert cs[..i + 1][..i] == cs[..i];
  }

  lemma {:induction false} WinsAfter(p: Plan, jobs: map<Id, Job>, cs: seq<Id>, i: nat)
    requires i <= |cs|
    ensures WinCount(p, jobs, cs) - WinCount(p, jobs, cs[..i]) <= |cs| - i
    decreases |cs| - i
  {
    if i == |cs| {
      assert cs[..i] == cs;
    } else {
      WinsNext(p, jobs, cs, i);
      WinsAfter(p, jobs, cs, i + 1);
    }
  }

  lemma {:induction false} WonIs(p: Plan, jobs: map<Id, Job>, cs: seq<Id>, id: Id)
    ensures id in Won(p, jobs, cs) <==> exists i :: 0 <= i < |cs| && SlotId(p, cs[i]) == id && Succeeded(p, jobs, cs[i])
  {
    if cs != [] {
      var k := |cs| - 1;
      WonIs(p, jobs, cs[..k], id);
      assert forall i :: 0 <= i < k ==> cs[..k][i] == cs[i];
    }
  }

  lemma {:induction false} SlotsAre(p: Plan, cs: seq<Id>, id: Id)
    ensures id in Slots(p, cs) ==> exists i :: 0 <= i < |cs| && SlotId(p, cs[i]) == id
  {
    if cs != [] {
      var k := |cs| - 1;
      if id in Slots(p, cs[..k]) {
        SlotsAre(p, cs[..k], id);
        var i :| 0 <= i < k && SlotId(p, cs[..k][i]) == id;
        assert cs[i] == cs[..k][i];
      }
    }
  }

  /** Once a batch has ended, only its successes still occupy slots. */
  lemma OnlyWinsStay(db: Db, p: Plan, cs: seq<Id>, paid: set<Id>, finals: set<Id>)
    requires Within(db, p, paid + Slots(p, cs), finals) && Ended(p, db.jobs, cs)
    ensures Within(db, p, paid + Won(p, db.jobs, cs), finals)
  {
    hide Inv;
    hide InProgress;
    forall id | id in Occupied(db, p.r, p.cost) ensures id in paid + Won(p, db.jobs, cs) {
      if id !in paid {
        SlotsAre(p, cs, id);
        var i :| 0 <= i < |cs| && SlotId(p, cs[i]) == id;
        assert Succeeded(p, db.jobs, cs[i]);
        WonIs(p, db.jobs, cs, id);
      }
    }
  }

  /** A candidate of an ended batch has a result exactly if its job succeeded. */
  lemma ResultMeansSuccess(db: Db, p: Plan, cs: seq<Id>, i: nat)
    requires Inv(db) && Submitted(p, db.jobs, cs) && i < |cs|
    ensures CandidateHasResult(db, cs[i]) <==> Succeeded(p, db.jobs, cs[i])
  {
    hide Inv;
    assert SlotId(p, cs[i]) in db.jobs;
    ExactlyOnce(db, SlotId(p, cs[i]), SlotId(p, cs[i]));
  }

  /**
   * Collecting has dealt with the first `i` of the candidates `cs`, whose jobs ended in `begin`:
   * `repaired` are the jobs of the repaired candidates that were evaluated instead.
   */
  ghost predicate Collecting(
    begin: Db, db: Db, p: Plan, cs: seq<Id>, i: nat, evaluated: seq<Id>, repaired: set<Id>, paid: set<Id>, finals: set<Id>)
  {
    && i <= |cs| && |evaluated| <= i && Later(begin, db) && Ended(p, begin.jobs, cs)
    && Within(db, p, paid + Won(p, begin.jobs, cs) + repaired, finals)
    && Won(p, begin.jobs, cs[..i]) + repaired <= Slots(p, evaluated)
    && |repaired| <= i - WinCount(p, begin.jobs, cs[..i])
  }

  lemma CollectingStarts(db: Db, p: Plan, cs: seq<Id>, paid: set<Id>, finals: set<Id>)
    requires Within(db, p, paid + Won(p, db.jobs, cs), finals) && Ended(p, db.jobs, cs)
    ensures Collecting(db, db, p, cs, 0, [], {}, paid, finals)
  {
    hide Within;
    assert paid + Won(p, db.jobs, cs) + {} == paid + Won(p, db.jobs, cs);
    assert cs[..0] == [];
  }

  lemma NowSucceeded(begin: Db, db: Db, p: Plan, cs: seq<Id>, i: nat, evaluated: seq<Id>, repaired: set<Id>, paid: set<Id>, finals: set<Id>)
    requires PlanOk(p) && Collecting(begin, db, p, cs, i, evaluated, repaired, paid, finals) && i < |cs|
    ensures CandidateHasResult(db, cs[i]) <==> Succeeded(p, begin.jobs, cs[i])
    ensures Within(db, p, paid + Won(p, begin.jobs, cs) + repaired, finals)
  {
    hide Inv;
    SubmittedStays(begin, db, p, cs);
    ResultMeansSuccess(db, p, cs, i);
    assert SlotId(p, cs[i]) in begin.jobs && !Live(begin.jobs[SlotId(p, cs[i])].status);
    assert db.jobs[SlotId(p, cs[i])] == begin.jobs[SlotId(p, cs[i])];
  }

  lemma CollectWin(begin: Db, db: Db, p: Plan, cs: seq<Id>, i: nat, evaluated: seq<Id>, repaired: set<Id>, paid: set<Id>, finals: set<Id>)
    requires Collecting(begin, db, p, cs, i, evaluated, repaired, paid, finals) && i < |cs| && Succeeded(p, begin.jobs, cs[i])
    ensures Collecting(begin, db, p, cs, i + 1, evaluated + [cs[i]], repaired, paid, finals)
  {
    hide Within;
    hide Ended;
    hide Later;
    WinsNext(p, begin.jobs, cs, i);
    SlotsNext(p, evaluated, cs[i]);
  }

  lemma CollectDrop(begin: Db, db: Db, p: Plan, cs: seq<Id>, i: nat, evaluated: seq<Id>, repaired: set<Id>, paid: set<Id>, finals: set<Id>)
    requires Collecting(begin, db, p, cs, i, evaluated, repaired, paid, finals) && i < |cs| && !Succeeded(p, begin.jobs, cs[i])
    ensures Collecting(begin, db, p, cs, i + 1, evaluated, repaired, paid, finals)
  {
    hide Within;
    hide Ended;
    hide Later;
    WinsNext(p, begin.jobs, cs, i);
  }

  lemma WonSize(p: Plan, jobs: map<Id, Job>, cs: seq<Id>)
    ensures |Won(p, jobs, cs)| <= WinCount(p, jobs, cs)
  {
  }

  /** The slot of a dead job is free for its repair. */
  lemma RoomForRepair(begin: Db, db: Db, p: Plan, cs: seq<Id>, i: nat, evaluated: seq<Id>, repaired: set<Id>, paid: set<Id>, finals: set<Id>)
    requires Collecting(begin, db, p, cs, i, evaluated, repaired, paid, finals) && i < |cs| && !Succeeded(p, begin.jobs, cs[i])
    ensures RoomFor(p, paid, finals, |cs|) ==> RoomFor(p, paid + Won(p, begin.jobs, cs) + repaired, finals, 1)
    ensures |cs| == 1 ==> paid + Won(p, begin.jobs, cs) + repaired == paid
  {
    hide Within;
    hide Ended;
    hide Later;
    hide Won;
    hide WinCount;
    hide Slots;
    hide EvolutionSlots;
    var won := Won(p, begin.jobs, cs);
    WonSize(p, begin.jobs, cs);
    WinsNext(p, begin.jobs, cs, i);
    WinsAfter(p, begin.jobs, cs, i + 1);
    UnionSize(paid, won);
    UnionSize(paid + won, repaired);
    if |cs| == 1 { NothingSpent(paid, won, repaired); }
  }

  lemma NothingSpent(paid: set<Id>, won: set<Id>, repaired: set<Id>)
    ensures |won| + |repaired| == 0 ==> paid + won + repaired == paid
  {
  }

  lemma CollectRepair(
    begin: Db, db: Db, d: Db, p: Plan, cs: seq<Id>, i: nat, evaluated: seq<Id>, repaired: set<Id>, e: Id, paid: set<Id>, finals: set<Id>)
    requires Collecting(begin, db, p, cs, i, evaluated, repaired, paid, finals) && i < |cs| && !Succeeded(p, begin.jobs, cs[i])
    requires Within(d, p, paid + Won(p, begin.jobs, cs) + repaired + Slots(p, [e]), finals) && Later(db, d)
    ensures Collecting(begin, d, p, cs, i + 1, evaluated + [e], repaired + {SlotId(p, e)}, paid, finals)
  {
    hide Within;
    hide Ended;
    hide Later;
    hide Won;
    hide WinCount;
    hide Slots;
    LaterChain(begin, db, d);
    WinsNext(p, begin.jobs, cs, i);
    SlotsNext(p, evaluated, e);
    OneSlot(p, e);
    UnionSize(repaired, {SlotId(p, e)});
    Regroup(paid + Won(p, begin.jobs, cs), repaired, {SlotId(p, e)});
  }

  lemma OneSlot(p: Plan, e: Id)
    ensures Slots(p, [e]) == {SlotId(p, e)}
  {
    SlotsNext(p, [], e);
    assert [] + [e] == [e];
  }

  lemma Regroup(a: set<Id>, b: set<Id>, c: set<Id>)
    ensures a + b + c == a + (b + c)
  {
  }

  lemma CollectingEnds(begin: Db, db: Db, p: Plan, cs: seq<Id>, evaluated: seq<Id>, repaired: set<Id>, paid: set<Id>, finals: set<Id>)
    requires Collecting(begin, db, p, cs, |cs|, evaluated, repaired, paid, finals)
    ensures Within(db, p, paid + Slots(p, evaluated), finals)
  {
    assert cs[..|cs|] == cs;
  }

  // ---------------------------------------------------------------- waiting

  /**
   * Waits for the jobs of a batch. A driver that works alone settles all of them; otherwise
   * some may still be live when the others are through.
   */
  method WaitFor(store: Store, p: Plan, w: Wait, cs: seq<Id>, ghost paid: set<Id>, ghost finals: set<Id>)
    requires PlanOk(p) && Within(store.Content(), p, paid, finals) && WaitOk(p, w)
    requires Submitted(p, store.jobs, cs) && forall i :: 0 <= i < |cs| ==> cs[i] in p.trials
    modifies store
    ensures Within(store.Content(), p, paid, finals) && Later(old(store.Content()), store.Content())
    ensures p.mode.Sole? ==> forall i :: 0 <= i < |cs| ==> !StillLive(p, store.jobs, cs[i])
  {
    hide Within;
    hide Later;
    hide Submitted;
    hide Quiet;
    hide EvaluationDriver.WorkDone;
    ghost var begin := store.Content();
    match w {
      case Interleaved(script) =>
        Others(store, p, script, paid, finals);
      case Driven(start) =>
        var ids := JobsOf(p, cs);
        BatchIsDrivable(begin, p, cs, ids, paid, finals);
        var k := p.worker;
        var result, clock := EvaluationDriver.Drive(
          store, ids, k.id, k.leaseTime, k.maxPoll, start, k.evaluate, k.retriesRejected, Uninterrupted);
        WorkKeepsWithin(begin, store.Content(), p, paid, finals);
        assert forall i :: 0 <= i < |cs| ==> ids[i] == SlotId(p, cs[i]);
    }
  }

  /** The control check of a run that nobody pauses or cancels. */
  predicate Uninterrupted(n: nat) {
    true
  }

  function JobsOf(p: Plan, cs: seq<Id>): (ids: seq<Id>)
    ensures |ids| == |cs| && forall i :: 0 <= i < |ids| ==> ids[i] == SlotId(p, cs[i])
  {
    seq(|cs|, i requires 0 <= i < |cs| => SlotId(p, cs[i]))
  }

  lemma BatchIsDrivable(db: Db, p: Plan, cs: seq<Id>, ids: seq<Id>, paid: set<Id>, finals: set<Id>)
    requires PlanOk(p) && p.mode.Sole? && Within(db, p, paid, finals) && Submitted(p, db.jobs, cs) && ids == JobsOf(p, cs)
    requires forall i :: 0 <= i < |cs| ==> cs[i] in p.trials
    ensures EvaluationDriver.Drivable(db, ids) && InTime(p.worker) && Inv(db)
  {
    hide Inv;
    hide Occupied;
    hide TotalBudget;
    forall i | 0 <= i < |ids|
      ensures ids[i] in db.jobs && db.jobs[ids[i]].runId in db.runs && Active(db.runs[db.jobs[ids[i]].runId])
      ensures !db.jobs[ids[i]].status.Running?
    {
      assert ids[i] == SlotId(p, cs[i]) && SlotId(p, cs[i]) in db.jobs;
      assert Built(p, ids[i], db.jobs[ids[i]]) && ProperRequest(p, cs[i]);
    }
  }

  // ---------------------------------------------------------------- evaluating

  /** The evaluation of a candidate can raise: its own verdict says so, or its repair raises or is dropped. */
  predicate MayRaise(t: Trial) {
    match t.verdict
    case Raises => true
    case Dropped => false
    case Repaired(next, _) => MayRaise(next) || next.verdict.Dropped?
  }

  predicate AnyMayRaise(trials: seq<Trial>) {
    exists i :: 0 <= i < |trials| && MayRaise(trials[i])
  }

  /** The candidates handed on have succeeded, and every one of the batch that has is among them. */
  ghost predicate Gathered(p: Plan, ended: map<Id, Job>, jobs: map<Id, Job>, cs: seq<Id>, i: nat, evaluated: seq<Id>)
    requires i <= |cs|
  {
    && (forall k :: 0 <= k < |evaluated| ==> Succeeded(p, jobs, evaluated[k]))
    && (forall j :: 0 <= j < i && Succeeded(p, ended, cs[j]) ==> cs[j] in evaluated)
  }

  lemma SucceededStays(db: Db, d: Db, p: Plan, c: Id)
    requires Later(db, d) && Succeeded(p, db.jobs, c)
    ensures Succeeded(p, d.jobs, c)
  {
    assert SlotId(p, c) in db.jobs;
  }

  lemma GatheredStays(p: Plan, ended: map<Id, Job>, db: Db, d: Db, cs: seq<Id>, i: nat, evaluated: seq<Id>)
    requires i <= |cs| && Later(db, d) && Gathered(p, ended, db.jobs, cs, i, evaluated)
    ensures Gathered(p, ended, d.jobs, cs, i, evaluated)
  {
    forall k | 0 <= k < |evaluated| ensures Succeeded(p, d.jobs, evaluated[k]) { SucceededStays(db, d, p, evaluated[k]); }
  }

  lemma GatheredNext(p: Plan, ended: map<Id, Job>, jobs: map<Id, Job>, cs: seq<Id>, i: nat, evaluated: seq<Id>, e: Id)
    requires i < |cs| && Gathered(p, ended, jobs, cs, i, evaluated)
    requires Succeeded(p, jobs, e) && (Succeeded(p, ended, cs[i]) ==> e == cs[i])
    ensures Gathered(p, ended, jobs, cs, i + 1, evaluated + [e])
  {
    hide Succeeded;
  }

  /** What ended a batch is still so. */
  lemma GatheredNow(p: Plan, db: Db, d: Db, cs: seq<Id>, evaluated: seq<Id>)
    requires Later(db, d) && Ended(p, db.jobs, cs) && Gathered(p, db.jobs, d.jobs, cs, |cs|, evaluated)
    ensures Gathered(p, d.jobs, d.jobs, cs, |cs|, evaluated)
  {
    forall j | 0 <= j < |cs| && Succeeded(p, d.jobs, cs[j]) ensures cs[j] in evaluated {
      assert SlotId(p, cs[j]) in db.jobs && !Live(db.jobs[SlotId(p, cs[j])].status);
      assert d.jobs[SlotId(p, cs[j])] == db.jobs[SlotId(p, cs[j])];
    }
  }

  /** How one candidate that was evaluated alone leaves the slots if it was not a success. */
  ghost predicate Leaves(db: Db, p: Plan, status: Status, paid: set<Id>, left: set<Id>, finals: set<Id>) {
    && (status == Raised ==> Within(db, p, paid, finals))
    && (status == Stuck || status == Refused ==> Within(db, p, paid + left, finals) && |left| <= 1)
  }

  /**
   * Evaluates candidates: all jobs are submitted, then waited for, then results are collected
   * and dead jobs repaired one after another. However long the chains of repairs, the whole
   * takes no more slots than candidates that end up evaluated, and if it fails on one
   * candidate, it leaves at most the one job behind that it gave up waiting for.
   */
  method EvaluateNew(store: Store, p: Plan, b: Batch, ghost paid: set<Id>, ghost finals: set<Id>)
    returns (evaluated: seq<Id>, status: Status, ghost left: set<Id>)
    requires PlanOk(p) && Within(store.Content(), p, paid, finals) && BatchOk(p, b, |b.trials|)
    modifies store
    ensures RoomFor(p, paid, finals, |b.trials|) ==> status != Refused
    ensures !p.mode.Shared? ==> status != Stuck
    ensures |evaluated| <= |b.trials|
    ensures Later(old(store.Content()), store.Content())
    ensures status == Fine ==> Within(store.Content(), p, paid + Slots(p, evaluated), finals)
    ensures status == Fine || (|b.trials| == 1 && (status == Raised || status == Stuck)) ==>
              Submitted(p, store.jobs, Candidates(b.trials))
    ensures status == Fine ==>
              Gathered(p, store.jobs, store.jobs, Candidates(b.trials), |b.trials|, evaluated)
    ensures status == Raised ==> AnyMayRaise(b.trials)
    ensures status == Waiting ==> p.mode.External?
    ensures status == Fine && |b.trials| == 1 && evaluated == [] ==> b.trials[0].verdict.Dropped?
    ensures |b.trials| == 1 ==> Leaves(store.Content(), p, status, paid, left, finals)
    decreases LongestChain(b.trials), 1
  {
    hide Within;
    hide Later;
    hide PlanOk;
    hide Slots;
    hide TrialOk;
    hide Quiet;
    hide Ended;
    hide Submitted;
    hide LongestChain;
    hide WaitOk;
    hide Gathered;
    hide AnyMayRaise;
    evaluated, left := [], {};
    ghost var begin := store.Content();
    status := SubmitAll(store, p, b.trials, paid, finals);
    if status != Fine {
      assert paid + left == paid;
      return;
    }
    ghost var cs := Candidates(b.trials);
    ghost var db := store.Content();
    AreTrials(p, b.trials);
    WaitFor(store, p, b.wait, Candidates(b.trials), paid + Slots(p, cs), finals);
    LaterChain(begin, db, store.Content());
    WithinIsValid(store.Content(), p, paid + Slots(p, cs), finals);
    SubmittedStays(db, store.Content(), p, cs);
    if exists i :: 0 <= i < |b.trials| && StillLive(p, store.jobs, b.trials[i].candidate) {
      SlotsSize(p, cs);
      return [], if p.mode.External? then Waiting else Stuck, Slots(p, cs);
    }
    AllEnded(p, store.jobs, b.trials);
    OnlyWinsStay(store.Content(), p, cs, paid, finals);
    db := store.Content();
    SubmittedNow(p, store.jobs, cs);
    evaluated, status, left := Collect(store, p, b.trials, paid, finals);
    LaterChain(begin, db, store.Content());
    if status == Fine {
      WithinIsValid(store.Content(), p, paid + Slots(p, evaluated), finals);
      SubmittedStays(db, store.Content(), p, cs);
    } else if |b.trials| == 1 && (status == Raised || status == Stuck) {
      LeavesIsValid(store.Content(), p, status, paid, left, finals);
      SubmittedStays(db, store.Content(), p, cs);
    }
  }

  lemma LeavesIsValid(db: Db, p: Plan, status: Status, paid: set<Id>, left: set<Id>, finals: set<Id>)
    requires Leaves(db, p, status, paid, left, finals) && (status == Raised || status == Stuck || status == Refused)
    ensures Inv(db) && InProgress(db, p)
  {
    if status == Raised { WithinIsValid(db, p, paid, finals); } else { WithinIsValid(db, p, paid + left, finals); }
  }

  lemma SubmittedNow(p: Plan, jobs: map<Id, Job>, cs: seq<Id>)
    requires Ended(p, jobs, cs)
    ensures Submitted(p, jobs, cs)
  {
  }

  lemma AreTrials(p: Plan, trials: seq<Trial>)
    requires forall i :: 0 <= i < |trials| ==> TrialOk(p, trials[i])
    ensures forall i :: 0 <= i < |trials| ==> Candidates(trials)[i] in p.trials
  {
  }

  lemma SlotsSize(p: Plan, cs: seq<Id>)
    ensures |Slots(p, cs)| <= |cs|
  {
  }

  predicate StillLive(p: Plan, jobs: map<Id, Job>, c: Id) {
    SlotId(p, c) in jobs && Live(jobs[SlotId(p, c)].status)
  }

  lemma AllEnded(p: Plan, jobs: map<Id, Job>, trials: seq<Trial>)
    requires Submitted(p, jobs, Candidates(trials))
    requires forall i :: 0 <= i < |trials| ==> !StillLive(p, jobs, trials[i].candidate)
    ensures Ended(p, jobs, Candidates(trials))
  {
  }

  /** The results in order; each dead job is repaired, dropped, or raises. */
  method Collect(store: Store, p: Plan, trials: seq<Trial>, ghost paid: set<Id>, ghost finals: set<Id>)
    returns (evaluated: seq<Id>, status: Status, ghost left: set<Id>)
    requires PlanOk(p) && Within(store.Content(), p, paid + Won(p, store.jobs, Candidates(trials)), finals)
    requires Ended(p, store.jobs, Candidates(trials))
    requires forall i :: 0 <= i < |trials| ==> TrialOk(p, trials[i])
    modifies store
    ensures RoomFor(p, paid, finals, |trials|) ==> status != Refused
    ensures !p.mode.Shared? ==> status != Stuck
    ensures |evaluated| <= |trials|
    ensures Later(old(store.Content()), store.Content())
    ensures status == Fine ==> Within(store.Content(), p, paid + Slots(p, evaluated), finals)
    ensures status == Fine ==> Gathered(p, store.jobs, store.jobs, Candidates(trials), |trials|, evaluated)
    ensures status == Raised ==> AnyMayRaise(trials)
    ensures status == Waiting ==> p.mode.External?
    ensures status == Fine && |trials| == 1 && evaluated == [] ==> trials[0].verdict.Dropped?
    ensures |trials| == 1 ==> Leaves(store.Content(), p, status, paid, left, finals)
    decreases LongestChain(trials), 0
  {
    hide Within;
    hide Later;
    hide PlanOk;
    hide Slots;
    hide Quiet;
    hide Ended;
    hide Collecting;
    hide Won;
    hide Gathered;
    hide Succeeded;
    ghost var begin := store.Content();
    ghost var cs := Candidates(trials);
    ghost var repaired: set<Id> := {};
    evaluated, left := [], {};
    CollectingStarts(begin, p, cs, paid, finals);
    NothingGathered(p, begin.jobs, store.jobs, cs);
    for i := 0 to |trials|
      invariant Collecting(begin, store.Content(), p, cs, i, evaluated, repaired, paid, finals)
      invariant Gathered(p, begin.jobs, store.jobs, cs, i, evaluated)
      invariant |trials| == 1 && i == 1 && evaluated == [] ==> trials[0].verdict.Dropped?
    {
      CollectedSoFar(begin, store.Content(), p, cs, i, evaluated, repaired, paid, finals);
      ghost var db := store.Content();
      ghost var taken := paid + Won(p, begin.jobs, cs) + repaired;
      NowSucceeded(begin, db, p, cs, i, evaluated, repaired, paid, finals);
      if CandidateHasResult(store.Content(), trials[i].candidate) {
        CollectWin(begin, db, p, cs, i, evaluated, repaired, paid, finals);
        SucceededStays(begin, db, p, cs[i]);
        GatheredNext(p, begin.jobs, store.jobs, cs, i, evaluated, cs[i]);
        evaluated := evaluated + [trials[i].candidate];
        continue;
      }
      RoomForRepair(begin, db, p, cs, i, evaluated, repaired, paid, finals);
      match trials[i].verdict {
        case Dropped =>
          CollectDrop(begin, db, p, cs, i, evaluated, repaired, paid, finals);
          GatheredDrop(p, begin.jobs, store.jobs, cs, i, evaluated);
        case Raises =>
          assert MayRaise(trials[i]);
          return evaluated, Raised, left;
        case Repaired(next, wait) =>
          OneTrial(p, next, wait);
          var replaced, inner, behind := EvaluateNew(store, p, Batch([next], wait), taken, finals);
          if inner != Fine {
            LaterChain(begin, db, store.Content());
            assert inner == Raised ==> MayRaise(next) && MayRaise(trials[i]);
            return evaluated, inner, behind;
          }
          if |replaced| != 1 {
            LaterChain(begin, db, store.Content());
            assert MayRaise(trials[i]);
            NoneReplaced(p, taken, replaced);
            return evaluated, Raised, left;
          }
          assert replaced == [replaced[0]];
          CollectRepair(begin, db, store.Content(), p, cs, i, evaluated, repaired, replaced[0], paid, finals);
          GatheredStays(p, begin.jobs, db, store.Content(), cs, i, evaluated);
          AllSucceeded(p, store.jobs, Candidates([next]), replaced);
          GatheredNext(p, begin.jobs, store.jobs, cs, i, evaluated, replaced[0]);
          evaluated := evaluated + replaced;
          repaired := repaired + {SlotId(p, replaced[0])};
      }
    }
    CollectedSoFar(begin, store.Content(), p, cs, |trials|, evaluated, repaired, paid, finals);
    CollectingEnds(begin, store.Content(), p, cs, evaluated, repaired, paid, finals);
    GatheredNow(p, begin, store.Content(), cs, evaluated);
    status := Fine;
  }

  lemma NothingGathered(p: Plan, ended: map<Id, Job>, jobs: map<Id, Job>, cs: seq<Id>)
    ensures Gathered(p, ended, jobs, cs, 0, [])
  {
  }

  lemma GatheredDrop(p: Plan, ended: map<Id, Job>, jobs: map<Id, Job>, cs: seq<Id>, i: nat, evaluated: seq<Id>)
    requires i < |cs| && Gathered(p, ended, jobs, cs, i, evaluated) && !Succeeded(p, ended, cs[i])
    ensures Gathered(p, ended, jobs, cs, i + 1, evaluated)
  {
    hide Succeeded;
  }

  lemma AllSucceeded(p: Plan, jobs: map<Id, Job>, cs: seq<Id>, evaluated: seq<Id>)
    requires Gathered(p, jobs, jobs, cs, |cs|, evaluated)
    ensures forall k :: 0 <= k < |evaluated| ==> Succeeded(p, jobs, evaluated[k])
  {
  }

  lemma CollectedSoFar(begin: Db, db: Db, p: Plan, cs: seq<Id>, i: nat, evaluated: seq<Id>, repaired: set<Id>, paid: set<Id>, finals: set<Id>)
    requires Collecting(begin, db, p, cs, i, evaluated, repaired, paid, finals)
    ensures |evaluated| <= i <= |cs| && Later(begin, db)
  {
  }

  lemma OneTrial(p: Plan, next: Trial, wait: Wait)
    requires TrialOk(p, next) && WaitOk(p, wait)
    ensures BatchOk(p, Batch([next], wait), 1) && LongestChain([next]) == Chain(next)
  {
    assert [next][..0] == [];
  }

  lemma NoneReplaced(p: Plan, taken: set<Id>, replaced: seq<Id>)
    requires |replaced| <= 1 && |replaced| != 1
    ensures taken + Slots(p, replaced) == taken
  {
  }

  // ---------------------------------------------------------------- the run

  /** The candidates of the first `n` batches have been submitted. */
  ghost predicate SubmittedTo(p: Plan, jobs: map<Id, Job>, bs: seq<Batch>, n: nat) {
    n <= |bs| && forall i {:trigger bs[i]} :: 0 <= i < n ==> Submitted(p, jobs, Candidates(bs[i].trials))
  }

  lemma SubmittedToStays(db: Db, d: Db, p: Plan, bs: seq<Batch>, n: nat)
    requires PlanOk(p) && InProgress(d, p) && Later(db, d) && SubmittedTo(p, db.jobs, bs, n)
    ensures SubmittedTo(p, d.jobs, bs, n)
  {
    forall i | 0 <= i < n ensures Submitted(p, d.jobs, Candidates(bs[i].trials)) {
      SubmittedStays(db, d, p, Candidates(bs[i].trials));
    }
  }

  lemma SubmittedNext(db: Db, d: Db, p: Plan, bs: seq<Batch>, n: nat)
    requires PlanOk(p) && InProgress(d, p) && Later(db, d) && SubmittedTo(p, db.jobs, bs, n)
    requires n < |bs| && Submitted(p, d.jobs, Candidates(bs[n].trials))
    ensures SubmittedTo(p, d.jobs, bs, n + 1)
  {
    SubmittedToStays(db, d, p, bs, n);
  }

  predicate SomeMayRaise(bs: seq<Batch>) {
    exists i :: 0 <= i < |bs| && AnyMayRaise(bs[i].trials)
  }

  lemma GrownPaid(p: Plan, paid: set<Id>, evaluated: seq<Id>, n: nat)
    requires |paid| <= n
    ensures |paid + Slots(p, evaluated)| <= n + |evaluated|
  {
    UnionSize(paid, Slots(p, evaluated));
  }

  /** The evolution slots, with some more for jobs that were given up. */
  ghost predicate Enough(p: Plan, used: nat) {
    used <= EvolutionSlots(p.population, p.generations)
  }

  /**
   * The initial population; failed prior seeds are skipped, failed i1 attempts repeated.
   * `stuck` counts the seeds that were rejected while a job of theirs was live.
   */
  method Initialise(store: Store, p: Plan, start: Start) returns (size: nat, status: Status, stuck: nat, ghost paid: set<Id>)
    requires PlanOk(p) && Within(store.Content(), p, {}, {}) && StartOk(p, start)
    modifies store
    ensures stuck <= p.population && (!p.mode.Shared? ==> stuck == 0)
    ensures Enough(p, p.population + stuck) ==> status != Refused
    ensures status == Fine ==> Within(store.Content(), p, paid, {}) && |paid| <= p.population + stuck
    ensures status == Fine && start.OneByOne? ==> size == p.population
    ensures Later(old(store.Content()), store.Content()) && (status == Fine ==> StartSubmitted(p, store.jobs, start))
    ensures status == Raised ==> StartMayRaise(start) || (start.OneByOne? && SubmittedTo(p, store.jobs, start.attempts, |start.attempts|))
    ensures (status == Waiting ==> p.mode.External?) && (status == Stuck ==> p.mode.Shared?)
  {
    hide Within;
    hide PlanOk;
    hide BatchOk;
    hide Slots;
    hide Later;
    hide Submitted;
    hide SubmittedTo;
    hide InProgress;
    hide AnyMayRaise;
    hide SomeMayRaise;
    PopulationFits(p, 0);
    match start {
      case AtOnce(all) =>
        IsBatch(p, all, p.population);
        var evaluated: seq<Id>;
        ghost var left;
        evaluated, status, left := EvaluateNew(store, p, all, {}, {});
        GrownPaid(p, {}, evaluated, 0);
        size, stuck, paid := |evaluated|, 0, {} + Slots(p, evaluated);
      case OneByOne(seeds, attempts) =>
        ghost var begin := store.Content();
        size, status, stuck, paid := TrySeeds(store, p, seeds);
        if status != Fine { return; }
        ghost var seeded := store.Content();
        size, status, paid := FillUp(store, p, attempts, size, paid, stuck);
        LaterChain(begin, seeded, store.Content());
        if status == Fine {
          WithinIsValid(store.Content(), p, paid, {});
          SubmittedToStays(seeded, store.Content(), p, seeds, |seeds|);
        }
    }
  }

  /** Everything that is proposed at once, or every prior seed, has been submitted. */
  ghost predicate StartSubmitted(p: Plan, jobs: map<Id, Job>, start: Start) {
    match start
    case AtOnce(all) => Submitted(p, jobs, Candidates(all.trials))
    case OneByOne(seeds, _) => SubmittedTo(p, jobs, seeds, |seeds|)
  }

  predicate StartMayRaise(start: Start) {
    match start
    case AtOnce(all) => AnyMayRaise(all.trials)
    case OneByOne(_, attempts) => SomeMayRaise(attempts)
  }

  lemma StartStays(db: Db, d: Db, p: Plan, start: Start)
    requires PlanOk(p) && InProgress(d, p) && Later(db, d) && StartSubmitted(p, db.jobs, start)
    ensures StartSubmitted(p, d.jobs, start)
  {
    match start
    case AtOnce(all) => SubmittedStays(db, d, p, Candidates(all.trials));
    case OneByOne(seeds, _) => SubmittedToStays(db, d, p, seeds, |seeds|);
  }

  lemma IsBatch(p: Plan, b: Batch, n: nat)
    requires BatchOk(p, b, n)
    ensures |b.trials| <= n && BatchOk(p, b, |b.trials|)
  {
  }

  /**
   * The prior seeds. A seed whose evaluation raises is rejected, also when the driver gave up
   * while its job was live; that job keeps its slot. There are no more seeds than slots, so
   * none is ever refused.
   */
  method TrySeeds(store: Store, p: Plan, seeds: seq<Batch>) returns (size: nat, status: Status, stuck: nat, ghost paid: set<Id>)
    requires PlanOk(p) && Within(store.Content(), p, {}, {}) && SinglesOk(p, seeds) && |seeds| <= p.population
    modifies store
    ensures status == Fine || (status == Waiting && p.mode.External?)
    ensures Later(old(store.Content()), store.Content())
    ensures status == Fine ==> SubmittedTo(p, store.jobs, seeds, |seeds|)
    ensures size + stuck <= |seeds| && (!p.mode.Shared? ==> stuck == 0)
    ensures status == Fine ==> Within(store.Content(), p, paid, {}) && |paid| <= size + stuck
  {
    hide Within;
    hide PlanOk;
    hide BatchOk;
    hide Slots;
    hide Later;
    hide Submitted;
    hide SubmittedTo;
    hide Leaves;
    hide InProgress;
    ghost var begin := store.Content();
    LaterItself(begin);
    NothingSubmitted(p, store.jobs, seeds);
    size, stuck, paid := 0, 0, {};
    for i := 0 to |seeds|
      invariant Within(store.Content(), p, paid, {}) && |paid| <= size + stuck <= i
      invariant !p.mode.Shared? ==> stuck == 0
      invariant Later(begin, store.Content()) && SubmittedTo(p, store.jobs, seeds, i)
    {
      PopulationFits(p, i + 1);
      ghost var db := store.Content();
      var evaluated, tried, left := EvaluateNew(store, p, seeds[i], paid, {});
      LaterChain(begin, db, store.Content());
      if tried == Waiting || tried == Refused { return size, tried, stuck, paid; }
      if tried == Fine {
        WithinIsValid(store.Content(), p, paid + Slots(p, evaluated), {});
        GrownPaid(p, paid, evaluated, size + stuck);
        paid := paid + Slots(p, evaluated);
        if evaluated != [] { size := size + 1; }
      } else {
        LeavesIsValid(store.Content(), p, tried, paid, left, {});
        LeftBehind(store.Content(), p, tried, paid, left);
        if tried == Stuck {
          paid := paid + left;
          stuck := stuck + 1;
        }
      }
      SubmittedNext(db, store.Content(), p, seeds, i);
      if size >= p.population { assert i + 1 == |seeds|; }
    }
    status := Fine;
  }

  lemma NothingSubmitted(p: Plan, jobs: map<Id, Job>, bs: seq<Batch>)
    ensures SubmittedTo(p, jobs, bs, 0)
  {
  }

  lemma LeftBehind(db: Db, p: Plan, status: Status, paid: set<Id>, left: set<Id>)
    requires Leaves(db, p, status, paid, left, {})
    ensures status == Raised ==> Within(db, p, paid, {})
    ensures status == Stuck ==> Within(db, p, paid + left, {}) && |paid + left| <= |paid| + 1
  {
    UnionSize(paid, left);
  }

  method FillUp(store: Store, p: Plan, attempts: seq<Batch>, filled: nat, ghost taken: set<Id>, ghost stuck: nat)
    returns (size: nat, status: Status, ghost paid: set<Id>)
    requires PlanOk(p) && SinglesOk(p, attempts) && |attempts| == MaxAttempts(p.population)
    requires Within(store.Content(), p, taken, {}) && |taken| <= filled + stuck && filled <= p.population
    modifies store
    ensures Enough(p, p.population + stuck) ==> status != Refused
    ensures Later(old(store.Content()), store.Content())
    ensures status == Fine ==> Within(store.Content(), p, paid, {}) && |paid| <= size + stuck && size == p.population
    ensures status == Raised ==> SomeMayRaise(attempts) || SubmittedTo(p, store.jobs, attempts, |attempts|)
    ensures (status == Waiting ==> p.mode.External?) && (status == Stuck ==> p.mode.Shared?)
  {
    hide Within;
    hide PlanOk;
    hide BatchOk;
    hide Slots;
    hide Later;
    hide Submitted;
    hide SubmittedTo;
    hide InProgress;
    hide AnyMayRaise;
    ghost var begin := store.Content();
    LaterItself(begin);
    NothingSubmitted(p, store.jobs, attempts);
    size, paid := filled, taken;
    var tries := 0;
    while size < p.population
      invariant Within(store.Content(), p, paid, {}) && |paid| <= size + stuck && size <= p.population && tries <= |attempts|
      invariant Later(begin, store.Content()) && SubmittedTo(p, store.jobs, attempts, tries)
      decreases |attempts| - tries
    {
      if tries >= MaxAttempts(p.population) { return size, Raised, paid; }
      ghost var db := store.Content();
      var evaluated, tried, left := EvaluateNew(store, p, attempts[tries], paid, {});
      LaterChain(begin, db, store.Content());
      if tried != Fine { return size, tried, paid; }
      WithinIsValid(store.Content(), p, paid + Slots(p, evaluated), {});
      SubmittedNext(db, store.Content(), p, attempts, tries);
      tries := tries + 1;
      GrownPaid(p, paid, evaluated, size + stuck);
      paid := paid + Slots(p, evaluated);
      size := size + |evaluated|;
    }
    status := Fine;
  }

  /** The population has slots of its own. */
  lemma PopulationFits(p: Plan, used: nat)
    requires used <= p.population
    ensures Enough(p, used) && p.population <= EvolutionSlots(p.population, p.generations)
  {
    SlotsGrow(p.population, 0, p.generations);
  }

  /** The four batches of one generation, paid from the slots of that generation. */
  method EvaluateGeneration(store: Store, p: Plan, batches: seq<Batch>, g: nat, ghost taken: set<Id>, ghost stuck: nat)
    returns (status: Status, ghost paid: set<Id>)
    requires PlanOk(p) && |batches| == 4 && BatchesOk(p, batches, p.population) && g < p.generations
    requires Within(store.Content(), p, taken, {}) && |taken| <= EvolutionSlots(p.population, g) + stuck
    modifies store
    ensures Enough(p, EvolutionSlots(p.population, g + 1) + stuck) ==> status != Refused
    ensures status == Fine ==> Within(store.Content(), p, paid, {}) && |paid| <= EvolutionSlots(p.population, g + 1) + stuck
    ensures Later(old(store.Content()), store.Content()) && (status == Fine ==> SubmittedTo(p, store.jobs, batches, 4))
    ensures status == Raised ==> SomeMayRaise(batches)
    ensures (status == Waiting ==> p.mode.External?) && (status == Stuck ==> p.mode.Shared?)
  {
    hide Within;
    hide PlanOk;
    hide BatchOk;
    hide Slots;
    hide EvolutionSlots;
    hide Later;
    hide Submitted;
    hide SubmittedTo;
    hide InProgress;
    hide AnyMayRaise;
    ghost var begin := store.Content();
    LaterItself(begin);
    NothingSubmitted(p, store.jobs, batches);
    paid := taken;
    BatchesFit(p, g, 4);
    for o := 0 to 4
      invariant Within(store.Content(), p, paid, {})
      invariant |paid| <= EvolutionSlots(p.population, g) + o * p.population + stuck
      invariant Later(begin, store.Content()) && SubmittedTo(p, store.jobs, batches, o)
    {
      IsBatch(p, batches[o], p.population);
      BatchesFit(p, g, o);
      BatchesFit(p, g, o + 1);
      ghost var db := store.Content();
      var evaluated, batch, left := EvaluateNew(store, p, batches[o], paid, {});
      LaterChain(begin, db, store.Content());
      if batch != Fine { return batch, paid; }
      WithinIsValid(store.Content(), p, paid + Slots(p, evaluated), {});
      SubmittedNext(db, store.Content(), p, batches, o);
      GrownPaid(p, paid, evaluated, EvolutionSlots(p.population, g) + o * p.population + stuck);
      paid := paid + Slots(p, evaluated);
    }
    status := Fine;
  }

  lemma BatchesFit(p: Plan, g: nat, o: nat)
    requires g < p.generations && o <= 4
    ensures EvolutionSlots(p.population, g) + o * p.population <= EvolutionSlots(p.population, g + 1)
    ensures o > 0 ==> o * p.population == (o - 1) * p.population + p.population
    ensures o == 4 ==> EvolutionSlots(p.population, g) + o * p.population == EvolutionSlots(p.population, g + 1)
  {
    SlotsGrow(p.population, g + 1, p.generations);
  }

  /** Even with a stuck seed for every member only the last generation can run out. */
  lemma EarlierGenerationsFit(p: Plan, g: nat, stuck: nat)
    requires stuck <= p.population && g < p.generations
    ensures g > 0 ==> Enough(p, EvolutionSlots(p.population, g) + stuck)
    ensures Enough(p, p.population + stuck)
    ensures stuck == 0 ==> Enough(p, EvolutionSlots(p.population, g + 1) + stuck)
    ensures g + 1 < p.generations ==> Enough(p, EvolutionSlots(p.population, g + 1) + stuck)
  {
    SlotsGrow(p.population, 1, p.generations);
    SlotsGrow(p.population, g + 1, p.generations);
    if g + 1 < p.generations { SlotsGrow(p.population, g + 2, p.generations); }
  }

  /** The final trials: clones are stored, the budget for the missing ones is checked, they are submitted. */
  method FinalTrials(store: Store, p: Plan, clones: seq<Trial>, ghost paid: set<Id>) returns (status: Status)
    requires PlanOk(p) && ClonesOk(p, clones) && Within(store.Content(), p, paid, {})
    modifies store
    ensures status == Fine || status == Refused
    ensures Enough(p, |paid|) ==> status == Fine
    ensures Later(old(store.Content()), store.Content()) && InProgress(store.Content(), p)
    ensures status == Fine ==> forall i :: 0 <= i < |clones| ==> SlotId(p, clones[i].candidate) in store.jobs
  {
    hide Within;
    hide Later;
    hide PlanOk;
    hide Quiet;
    hide JobsOfCandidate;
    hide InProgress;
    ghost var begin := store.Content();
    LaterItself(begin);
    for i := 0 to |clones|
      invariant Within(store.Content(), p, paid, {}) && Later(begin, store.Content())
      invariant forall k :: 0 <= k < i ==> clones[k].candidate in store.candidates
    {
      ghost var db := store.Content();
      StoreCandidate(store, p, clones[i].candidate, clones[i].ahead, paid, {});
      LaterChain(begin, db, store.Content());
      AllStillStored(db, store.Content(), clones, i);
    }
    var missing := Missing(store, clones);
    WithinIsValid(store.Content(), p, paid, {});
    TotalIsKnown(store.Content(), p);
    if Enough(p, |paid|) { PreflightHolds(store.Content(), p, paid, |missing|); }
    var needed := |missing| * FinalPrice(p.cost);
    if needed > 0 && needed > Available(store.Content(), p.r) { return Refused; }
    ghost var stored := store.Content();
    status := SubmitClones(store, p, clones, missing, paid);
    LaterChain(begin, stored, store.Content());
  }

  lemma TotalIsKnown(db: Db, p: Plan)
    requires InProgress(db, p)
    ensures p.r in db.runs && db.runs[p.r].taskId in db.totals
  {
  }

  lemma AllStillStored(db: Db, d: Db, clones: seq<Trial>, i: nat)
    requires Later(db, d) && i < |clones| && clones[i].candidate in d.candidates
    requires forall k :: 0 <= k < i ==> clones[k].candidate in db.candidates
    ensures forall k :: 0 <= k < i + 1 ==> clones[k].candidate in d.candidates
  {
    forall k | 0 <= k < i ensures clones[k].candidate in d.candidates { StillStored(db, d, clones[k].candidate); }
  }

  /** The clones that have no job yet. */
  method Missing(store: Store, clones: seq<Trial>) returns (missing: seq<Trial>)
    ensures |missing| <= |clones|
    ensures forall t :: t in missing <==> t in clones && JobsOfCandidate(store.Content(), t.candidate) == {}
  {
    missing := [];
    for i := 0 to |clones|
      invariant |missing| <= i
      invariant forall t :: t in missing <==> t in clones[..i] && JobsOfCandidate(store.Content(), t.candidate) == {}
    {
      assert clones[..i + 1] == clones[..i] + [clones[i]];
      if JobsOfCandidate(store.Content(), clones[i].candidate) == {} { missing := missing + [clones[i]]; }
    }
    assert clones[..|clones|] == clones;
  }

  lemma PreflightHolds(db: Db, p: Plan, paid: set<Id>, missing: nat)
    requires PlanOk(p) && Within(db, p, paid, {}) && |paid| <= EvolutionSlots(p.population, p.generations)
    requires missing <= p.seeds
    ensures p.r in db.runs && db.runs[p.r].taskId in db.totals && missing * FinalPrice(p.cost) <= Available(db, p.r)
  {
    hide FundedRun;
    hide SlotsUsed;
    hide EvolutionSlots;
    WithinSlots(db, p, paid, {});
    PreflightPasses(db, p.r, p.cost, p.population, p.generations, p.seeds, missing);
  }

  method SubmitClones(store: Store, p: Plan, clones: seq<Trial>, missing: seq<Trial>, ghost paid: set<Id>)
    returns (status: Status)
    requires PlanOk(p) && ClonesOk(p, clones) && |missing| <= |clones| && Within(store.Content(), p, paid, {})
    requires forall i :: 0 <= i < |clones| ==> clones[i].candidate in store.candidates
    requires forall t :: t in missing <==> t in clones && JobsOfCandidate(store.Content(), t.candidate) == {}
    modifies store
    ensures status == Fine || status == Refused
    ensures Enough(p, |paid|) ==> status == Fine
    ensures Later(old(store.Content()), store.Content()) && InProgress(store.Content(), p)
    ensures status == Fine ==> forall i :: 0 <= i < |clones| ==> SlotId(p, clones[i].candidate) in store.jobs
  {
    hide Within;
    hide Later;
    hide PlanOk;
    hide Quiet;
    hide JobsOfCandidate;
    ghost var begin := store.Content();
    ghost var finals: set<Id> := {};
    LaterItself(begin);
    for i := 0 to |missing|
      invariant Within(store.Content(), p, paid, finals) && |finals| <= i && Later(begin, store.Content())
      invariant forall k :: 0 <= k < i ==> SlotId(p, missing[k].candidate) in store.jobs
    {
      ghost var db := store.Content();
      var c := missing[i].candidate;
      assert missing[i] in missing;
      CloneHasSlot(begin, db, p, clones, missing[i], paid, finals);
      var reply := Submit(store, p, c, missing[i].between, paid, finals);
      LaterChain(begin, db, store.Content());
      if reply != Done && !reply.Duplicate? {
        WithinIsValid(store.Content(), p, paid, finals);
        return Refused;
      }
      UnionSize(finals, {SlotId(p, c)});
      finals := finals + {SlotId(p, c)};
      forall k | 0 <= k < i ensures SlotId(p, missing[k].candidate) in store.jobs {
        JobStays(db, store.Content(), SlotId(p, missing[k].candidate));
      }
    }
    forall i | 0 <= i < |clones| ensures SlotId(p, clones[i].candidate) in store.jobs {
      if clones[i] !in missing {
        HadJob(begin, p, clones[i].candidate, paid);
        JobStays(begin, store.Content(), SlotId(p, clones[i].candidate));
      }
    }
    WithinIsValid(store.Content(), p, paid, finals);
    status := Fine;
  }

  lemma CloneHasSlot(begin: Db, db: Db, p: Plan, clones: seq<Trial>, t: Trial, paid: set<Id>, finals: set<Id>)
    requires PlanOk(p) && ClonesOk(p, clones) && t in clones && Later(begin, db)
    requires forall i :: 0 <= i < |clones| ==> clones[i].candidate in begin.candidates
    requires |finals| < |clones|
    ensures Own(p, t.candidate) && Quiet(p, t.between) && t.candidate in db.candidates
    ensures (Enough(p, |paid|) ==> FreeSlot(p, t.candidate, paid, finals)) && PaidWith(p, paid, t.candidate) == paid
    ensures FinalsWith(p, finals, t.candidate) == finals + {SlotId(p, t.candidate)}
  {
    var i :| 0 <= i < |clones| && clones[i] == t;
    assert CloneOk(p, clones[i]);
    StillStored(begin, db, t.candidate);
  }

  lemma JobStays(db: Db, d: Db, id: Id)
    requires Later(db, d) && id in db.jobs
    ensures id in d.jobs
  {
  }

  lemma HadJob(db: Db, p: Plan, c: Id, paid: set<Id>)
    requires PlanOk(p) && Within(db, p, paid, {}) && JobsOfCandidate(db, c) != {}
    ensures SlotId(p, c) in db.jobs
  {
    SiblingIsOwn(db, p, c);
    assert SlotId(p, c) in JobsOfCandidate(db, c);
  }

  /**
   * A whole uninterrupted run, from its first candidate to its last final trial, while others
   * use the store at every point. Unless a prior seed was rejected with its job live, no
   * submission is ever refused and the final check passes, and a run that gets that far has a
   * job for every final trial. With external workers, or with a sole inline worker, no seed
   * gets stuck. Stuck seeds cost at most their slots: `generation` generations are through
   * when the run ends, and at most the last one or the final trials can be refused.
   */
  method RunWithin(store: Store, p: Plan, s: Script) returns (status: Status, stuck: nat, generation: nat)
    requires PlanOk(p) && ScriptOk(p, s) && store.Valid() && InProgress(store.Content(), p)
    requires forall id :: id in store.jobs ==> store.jobs[id].runId != p.r
    modifies store
    ensures stuck <= p.population && (p.mode.External? || p.mode.Sole? ==> stuck == 0)
    ensures stuck == 0 ==> status != Refused
    ensures status == Refused ==> generation + 1 >= p.generations
    ensures status == Fine ==> generation == p.generations && RunSubmitted(p, store.jobs, s)
    ensures status == Raised ==>
              || StartMayRaise(s.start) || (exists g :: 0 <= g < |s.generations| && SomeMayRaise(s.generations[g]))
              || (s.start.OneByOne? && SubmittedTo(p, store.jobs, s.start.attempts, |s.start.attempts|))
    ensures (status == Waiting ==> p.mode.External?) && (status == Stuck ==> p.mode.Shared?)
  {
    hide PlanOk;
    hide StartOk;
    hide ClonesOk;
    hide BatchesOk;
    hide EvolutionSlots;
    hide Enough;
    hide Later;
    hide Submitted;
    hide SubmittedTo;
    hide StartSubmitted;
    hide StartMayRaise;
    hide SomeMayRaise;
    FreshRunIsWithin(store.Content(), p);
    hide Within;
    hide InProgress;
    var size;
    ghost var paid: set<Id>;
    generation := 0;
    PopulationFits(p, p.population);
    size, status, stuck, paid := Initialise(store, p, s.start);
    if status != Fine {
      if 0 < p.generations { EarlierGenerationsFit(p, 0, stuck); }
      return;
    }
    SlotsGrow(p.population, 0, p.generations);
    for g := 0 to p.generations
      invariant Within(store.Content(), p, paid, {}) && |paid| <= EvolutionSlots(p.population, g) + stuck && generation == g
      invariant EvolutionSubmitted(p, store.jobs, s, g)
    {
      ghost var db := store.Content();
      EarlierGenerationsFit(p, g, stuck);
      status, paid := EvaluateGeneration(store, p, s.generations[g], g, paid, stuck);
      if status != Fine { return; }
      WithinIsValid(store.Content(), p, paid, {});
      EvolutionStays(db, store.Content(), p, s, g);
      generation := g + 1;
    }
    if stuck == 0 { AllSlotsAreEnough(p, |paid|); }
    ghost var db := store.Content();
    status := FinalTrials(store, p, s.clones, paid);
    EvolutionStays(db, store.Content(), p, s, p.generations);
  }

  /** The candidates of the start and of the first `n` generations have been submitted. */
  ghost predicate EvolutionSubmitted(p: Plan, jobs: map<Id, Job>, s: Script, n: nat) {
    && StartSubmitted(p, jobs, s.start)
    && forall g {:trigger s.generations[g]} :: 0 <= g < n && g < |s.generations| ==>
         SubmittedTo(p, jobs, s.generations[g], |s.generations[g]|)
  }

  /** So has every candidate of the run, to its last final trial. */
  ghost predicate RunSubmitted(p: Plan, jobs: map<Id, Job>, s: Script) {
    && EvolutionSubmitted(p, jobs, s, |s.generations|)
    && forall i :: 0 <= i < |s.clones| ==> SlotId(p, s.clones[i].candidate) in jobs
  }

  lemma EvolutionStays(db: Db, d: Db, p: Plan, s: Script, n: nat)
    requires PlanOk(p) && InProgress(d, p) && Later(db, d) && EvolutionSubmitted(p, db.jobs, s, n)
    ensures EvolutionSubmitted(p, d.jobs, s, n)
  {
    hide Later;
    StartStays(db, d, p, s.start);
    forall g | 0 <= g < n && g < |s.generations| ensures SubmittedTo(p, d.jobs, s.generations[g], |s.generations[g]|) {
      SubmittedToStays(db, d, p, s.generations[g], |s.generations[g]|);
    }
  }

  lemma AllSlotsAreEnough(p: Plan, used: nat)
    requires used <= EvolutionSlots(p.population, p.generations)
    ensures Enough(p, used)
  {
  }

  lemma FreshRunIsWithin(db: Db, p: Plan)
    requires Inv(db) && InProgress(db, p) && forall id :: id in db.jobs ==> db.jobs[id].runId != p.r
    ensures Within(db, p, {}, {})
  {
  }

  /** From creation: the budget is chosen, a runtime claims the run, starts it and carries it out. */
  method CreateAndRun(store: Store, p: Plan, s: Script, owner: Id, now: int, seconds: int) returns (status: Status, stuck: nat, generation: nat)
    requires PlanOk(p) && ScriptOk(p, s) && store.Valid() && seconds > 0
    requires p.taskId !in store.totals && p.r !in store.runs
    requires JobsBuilt(p, store.jobs) && OwnCandidates(p, store.candidates)
    modifies store
    ensures stuck <= p.population && (p.mode.External? || p.mode.Sole? ==> stuck == 0)
    ensures stuck == 0 ==> status != Refused
    ensures status == Refused ==> generation + 1 >= p.generations
    ensures status == Fine ==> generation == p.generations && RunSubmitted(p, store.jobs, s)
    ensures status == Raised ==>
              || StartMayRaise(s.start) || (exists g :: 0 <= g < |s.generations| && SomeMayRaise(s.generations[g]))
              || (s.start.OneByOne? && SubmittedTo(p, store.jobs, s.start.attempts, |s.start.attempts|))
    ensures (status == Waiting ==> p.mode.External?) && (status == Stuck ==> p.mode.Shared?)
  {
    hide PlanOk;
    hide ScriptOk;
    hide Inv;
    hide TotalBudget;
    NoJobsYet(store.Content(), p);
    TotalIsPositive(p);
    var total := TotalBudget(p.cost, p.population, p.generations, p.seeds);
    var created := store.CreateTaskRun(p.taskId, total, p.r);
    var claimed := store.ClaimRunLease(p.r, owner, now, seconds);
    var started := store.StartRun(p.r, RunStatus.Pending, now, Some(owner), false);
    status, stuck, generation := RunWithin(store, p, s);
  }

  lemma NoJobsYet(db: Db, p: Plan)
    requires Inv(db) && p.r !in db.runs
    ensures forall id :: id in db.jobs ==> db.jobs[id].runId != p.r
  {
    forall id | id in db.jobs ensures db.jobs[id].runId != p.r { assert JobRefs(db.runs, db.candidates, db.jobs[id]); }
  }

  lemma TotalIsPositive(p: Plan)
    requires PlanOk(p)
    ensures TotalBudget(p.cost, p.population, p.generations, p.seeds) > 0
  {
  }
}
