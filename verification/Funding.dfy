/**
 * The budget chosen when a run is created, and what the jobs of a run can have spent of it
 * in any state of the store: while a slot of its size is free, no evaluation is refused for
 * want of budget, and final optimization can be afforded.
 */
module Funding {
  import opened Common
  import opened StoreModel
  import opened StoreInvariants

  // ---------------------------------------------------------------- the chosen total

  const FINAL_MULTIPLIER := 2

  /** The price of `n` evaluations. */
  function Cost(price: int, n: int): int {
    price * n
  }

  lemma CostAdds(price: int, m: int, n: int)
    ensures Cost(price, m + n) == Cost(price, m) + Cost(price, n)
    ensures Cost(price, 1) == price && Cost(price, 0) == 0
  {
  }

  lemma CostGrows(price: int, m: int, n: int)
    requires price >= 0 && m <= n
    ensures Cost(price, m) <= Cost(price, n)
  {
  }

  function EvolutionSlots(population: nat, generations: nat): nat {
    population * (1 + 4 * generations)
  }

  function FinalPrice(cost: int): int {
    cost * FINAL_MULTIPLIER
  }

  /** The total budget of a run created for a data set; two final seeds by default. */
  function TotalBudget(cost: int, population: nat, generations: nat, seeds: nat): int {
    var evolution := cost * population * (1 + 4 * generations);
    var final := seeds * cost * FINAL_MULTIPLIER;
    Max(evolution + final, cost)
  }

  lemma TotalBySlots(cost: int, population: nat, generations: nat, seeds: nat)
    ensures TotalBudget(cost, population, generations, seeds) >=
            Cost(cost, EvolutionSlots(population, generations)) + Cost(FinalPrice(cost), seeds)
  {
    ProductsAgree(cost, population, 1 + 4 * generations);
    ProductsAgree(seeds, cost, FINAL_MULTIPLIER);
  }

  lemma ProductsAgree(a: int, b: int, c: int)
    ensures a * b * c == a * (b * c) == (b * c) * a
  {
  }

  // ---------------------------------------------------------------- what a reachable ledger has spent

  /** A job that uses up its slot: settled successfully, or still live. Dead and cancelled ones do not. */
  predicate Occupies(j: Job, r: Id) {
    j.runId == r && (j.status.Success? || Live(j.status))
  }

  function SlotColumn(jobs: map<Id, Job>, r: Id, budget: int): map<Id, int> {
    map id | id in jobs :: if Occupies(jobs[id], r) && jobs[id].budget == budget then 1 else 0
  }

  /** How many slots of one size the jobs of a run use up. */
  ghost function SlotsUsed(jobs: map<Id, Job>, r: Id, budget: int): int {
    Total(SlotColumn(jobs, r, budget))
  }

  function OccupiedColumn(jobs: map<Id, Job>, r: Id): map<Id, int> {
    map id | id in jobs :: if Occupies(jobs[id], r) then jobs[id].budget else 0
  }

  function SuccessColumn(jobs: map<Id, Job>, r: Id): map<Id, int> {
    map id | id in jobs :: if jobs[id].runId == r && jobs[id].status.Success? then jobs[id].budget else 0
  }

  function Scaled(m: map<Id, int>, c: int): map<Id, int> {
    map id | id in m :: c * m[id]
  }

  lemma {:induction false} TotalScales(m: map<Id, int>, c: int)
    ensures Total(Scaled(m, c)) == c * Total(m)
    decreases |m|
  {
    assert Scaled(m, c).Keys == m.Keys;
    if |m| == 0 {
      TotalZero(Scaled(m, c));
    } else {
      var k := AnyKey(m);
      DropShrinks(m, k);
      TotalRemove(m, k);
      TotalRemove(Scaled(m, c), k);
      assert Scaled(m, c) - {k} == Scaled(m - {k}, c);
      TotalScales(m - {k}, c);
      assert c * (m[k] + Total(m - {k})) == c * m[k] + c * Total(m - {k});
    }
  }

  /** Rows of one table charged to different rows of another. */
  lemma {:induction false} TotalRekeyed(a: map<Id, int>, b: map<Id, int>, f: map<Id, Id>)
    requires f.Keys == a.Keys && forall k :: k in f ==> f[k] in b && a[k] <= b[f[k]]
    requires forall k, m :: k in f && m in f && f[k] == f[m] ==> k == m
    requires forall k :: k in b ==> 0 <= b[k]
    ensures Total(a) <= Total(b)
    decreases |a|
  {
    if |a| == 0 {
      TotalNonNegative(b);
    } else {
      var k := AnyKey(a);
      DropShrinks(a, k);
      TotalRemove(a, k);
      TotalRemove(b, f[k]);
      TotalRekeyed(a - {k}, b - {f[k]}, f - {k});
    }
  }

  ghost function SettlingJob(db: Db, rid: Id): (id: Id)
    requires Settled(db.jobs, db.results, rid)
    ensures Settles(db.jobs, db.results, rid, id)
  {
    var id :| Settles(db.jobs, db.results, rid, id);
    id
  }

  ghost function SettlingJobs(db: Db, r: Id): map<Id, Id>
    requires ResultsOk(db.jobs, db.results)
  {
    map rid | rid in db.results && db.results[rid].runId == r :: SettledThenJob(db, rid)
  }

  ghost function SettledThenJob(db: Db, rid: Id): (id: Id)
    requires ResultsOk(db.jobs, db.results) && rid in db.results
    ensures Settles(db.jobs, db.results, rid, id)
  {
    assert Settled(db.jobs, db.results, rid);
    SettlingJob(db, rid)
  }

  function UsedOf(results: map<Id, Result>, r: Id): map<Id, int> {
    map rid | rid in results && results[rid].runId == r :: results[rid].usedBudget
  }

  /** What a run consumed is covered by the budgets of its successful jobs. */
  lemma ConsumedWithinSuccesses(db: Db, r: Id)
    requires Inv(db)
    ensures UsedBudget(db.results, r) <= Total(SuccessColumn(db.jobs, r))
  {
    var used, f, b := UsedOf(db.results, r), SettlingJobs(db, r), SuccessColumn(db.jobs, r);
    forall rid | rid in UsedWeights(db.results, r)
      ensures UsedWeights(db.results, r)[rid] <= if rid in used then used[rid] else 0
    {
    }
    forall rid | rid in used ensures 0 <= used[rid] && f[rid] in b && used[rid] <= b[f[rid]] {
      var id := f[rid];
      assert Settles(db.jobs, db.results, rid, id) && JobRowOk(db.jobs[id]);
    }
    forall k, m | k in f && m in f && f[k] == f[m] ensures k == m {
      assert Settles(db.jobs, db.results, k, f[k]) && Settles(db.jobs, db.results, m, f[m]);
    }
    forall id | id in b ensures 0 <= b[id] { assert JobRowOk(db.jobs[id]); }
    TotalDominated(UsedWeights(db.results, r), used);
    TotalRekeyed(used, b, f);
  }

  /** Every job of the run costs one of two prices. */
  ghost predicate Priced(db: Db, r: Id, cost: int) {
    forall id :: id in db.jobs && db.jobs[id].runId == r ==>
      db.jobs[id].budget == cost || db.jobs[id].budget == FinalPrice(cost)
  }

  /** In every reachable state a run has spent or reserved no more than its slots cost. */
  lemma SpentBySlots(db: Db, r: Id, cost: int)
    requires Inv(db) && r in db.runs && cost > 0 && Priced(db, r, cost)
    ensures db.runs[r].consumed + db.runs[r].reserved <=
            Cost(cost, SlotsUsed(db.jobs, r, cost)) + Cost(FinalPrice(cost), SlotsUsed(db.jobs, r, FinalPrice(cost)))
  {
    assert Balanced(db.totals, db.runs[r], r, db.jobs, db.results);
    ConsumedWithinSuccesses(db, r);
    OccupiedSplits(db.jobs, r);
    OccupiedBySize(db, r, cost);
    TotalScales(SlotColumn(db.jobs, r, cost), cost);
    TotalScales(SlotColumn(db.jobs, r, FinalPrice(cost)), FinalPrice(cost));
  }

  lemma OccupiedSplits(jobs: map<Id, Job>, r: Id)
    ensures Total(OccupiedColumn(jobs, r)) == Total(SuccessColumn(jobs, r)) + LiveBudget(jobs, r)
  {
    TotalAdds(OccupiedColumn(jobs, r), SuccessColumn(jobs, r), LiveWeights(jobs, r));
  }

  lemma OccupiedBySize(db: Db, r: Id, cost: int)
    requires Priced(db, r, cost) && cost > 0
    ensures Total(OccupiedColumn(db.jobs, r)) ==
            Total(Scaled(SlotColumn(db.jobs, r, cost), cost)) +
            Total(Scaled(SlotColumn(db.jobs, r, FinalPrice(cost)), FinalPrice(cost)))
  {
    var small, large := SlotColumn(db.jobs, r, cost), SlotColumn(db.jobs, r, FinalPrice(cost));
    TotalAdds(OccupiedColumn(db.jobs, r), Scaled(small, cost), Scaled(large, FinalPrice(cost)));
  }

  /** A run created with this total, whose jobs have one of the two prices. */
  ghost predicate FundedRun(db: Db, r: Id, cost: int, population: nat, generations: nat, seeds: nat) {
    && Inv(db) && r in db.runs && cost > 0 && Priced(db, r, cost)
    && db.runs[r].taskId in db.totals
    && db.totals[db.runs[r].taskId] == TotalBudget(cost, population, generations, seeds)
  }

  lemma AvailableBySlots(db: Db, r: Id, cost: int, population: nat, generations: nat, seeds: nat, small: nat, large: nat)
    requires FundedRun(db, r, cost, population, generations, seeds)
    requires SlotsUsed(db.jobs, r, cost) + small <= EvolutionSlots(population, generations)
    requires SlotsUsed(db.jobs, r, FinalPrice(cost)) + large <= seeds
    ensures Cost(cost, small) + Cost(FinalPrice(cost), large) <= Available(db, r)
  {
    hide Cost;
    SpentBySlots(db, r, cost);
    TotalBySlots(cost, population, generations, seeds);
    CostAdds(cost, SlotsUsed(db.jobs, r, cost), small);
    CostAdds(FinalPrice(cost), SlotsUsed(db.jobs, r, FinalPrice(cost)), large);
    CostGrows(cost, SlotsUsed(db.jobs, r, cost) + small, EvolutionSlots(population, generations));
    CostGrows(FinalPrice(cost), SlotsUsed(db.jobs, r, FinalPrice(cost)) + large, seeds);
  }

  /**
   * With the total chosen at creation an evaluation is never refused for budget while a slot
   * of its size is free - in any state any interleaving can reach.
   */
  lemma NeverExhausted(db: Db, n: NewJob, cost: int, population: nat, generations: nat, seeds: nat)
    requires FundedRun(db, n.runId, cost, population, generations, seeds)
    requires n.budget == cost || n.budget == FinalPrice(cost)
    requires SlotsUsed(db.jobs, n.runId, cost) + (if n.budget == cost then 1 else 0) <=
             EvolutionSlots(population, generations)
    requires SlotsUsed(db.jobs, n.runId, FinalPrice(cost)) + (if n.budget == cost then 0 else 1) <= seeds
    ensures EnqueueJob(db, n).reply != Rejected(BudgetExhausted)
  {
    var small := if n.budget == cost then 1 else 0;
    AvailableBySlots(db, n.runId, cost, population, generations, seeds, small, 1 - small);
    CostAdds(cost, 1, 0);
    CostAdds(FinalPrice(cost), 1, 0);
    assert n.budget <= Available(db, n.runId);
  }

  /** Nor does the final-optimization check fail while the evolution slots are not overrun. */
  lemma PreflightPasses(db: Db, r: Id, cost: int, population: nat, generations: nat, seeds: nat, missing: nat)
    requires FundedRun(db, r, cost, population, generations, seeds)
    requires SlotsUsed(db.jobs, r, cost) <= EvolutionSlots(population, generations)
    requires SlotsUsed(db.jobs, r, FinalPrice(cost)) + missing <= seeds
    ensures missing * FinalPrice(cost) <= Available(db, r)
  {
    AvailableBySlots(db, r, cost, population, generations, seeds, 0, missing);
    CostAdds(cost, 1, 0);
  }

  /**
   * The total is exact: after `n` evaluations that used their whole budget, with `k` jobs still
   * live, the final trials can be afforded if and only if together they do not exceed the
   * evolution slots.
   */
  lemma PreflightIff(db: Db, r: Id, cost: int, population: nat, generations: nat, seeds: nat, n: nat, k: nat)
    requires r in db.runs && db.runs[r].taskId in db.totals && cost > 0 && seeds > 0
    requires db.totals[db.runs[r].taskId] == TotalBudget(cost, population, generations, seeds)
    requires db.runs[r].consumed == Cost(cost, n) && db.runs[r].reserved == Cost(cost, k)
    ensures seeds * FinalPrice(cost) <= Available(db, r) <==> n + k <= EvolutionSlots(population, generations)
  {
    var slots := EvolutionSlots(population, generations);
    TotalIsExact(cost, population, generations, seeds);
    NeededIsCost(FinalPrice(cost), seeds);
    CostAdds(cost, n, k);
    if n + k <= slots {
      CostGrows(cost, n + k, slots);
    } else {
      CostAdds(cost, slots, n + k - slots);
      CostGrows(cost, 1, n + k - slots);
      CostAdds(cost, 1, 0);
    }
  }

  /**
   * One job too many, as a prior seed leaves it that was rejected while its job was live: with
   * one member, one generation and two final seeds, five used evaluations and that job leave
   * three times the cost of an evaluation, where the final trials need four.
   */
  lemma StuckSeedIsRefused(db: Db, r: Id, cost: int)
    requires r in db.runs && db.runs[r].taskId in db.totals && cost > 0
    requires db.totals[db.runs[r].taskId] == TotalBudget(cost, 1, 1, 2)
    requires db.runs[r].consumed == 5 * cost && db.runs[r].reserved == cost
    ensures Available(db, r) == 3 * cost && 2 * FinalPrice(cost) == 4 * cost
    ensures !(2 * FinalPrice(cost) <= Available(db, r))
  {
    CostAdds(cost, 1, 0);
    FiveCosts(cost);
    PreflightIff(db, r, cost, 1, 1, 2, 5, 1);
  }

  lemma FiveCosts(cost: int)
    ensures Cost(cost, 5) == 5 * cost
  {
  }

  lemma TotalIsExact(cost: int, population: nat, generations: nat, seeds: nat)
    requires cost > 0 && seeds > 0
    ensures TotalBudget(cost, population, generations, seeds) ==
            Cost(cost, EvolutionSlots(population, generations)) + Cost(FinalPrice(cost), seeds)
  {
    ProductsAgree(cost, population, 1 + 4 * generations);
    ProductsAgree(seeds, cost, FINAL_MULTIPLIER);
    CostGrows(cost, 0, EvolutionSlots(population, generations));
    CostGrows(FinalPrice(cost), 1, seeds);
    CostAdds(cost, 0, 0);
    CostAdds(FinalPrice(cost), 1, 0);
  }

  lemma NeededIsCost(price: int, seeds: nat)
    ensures seeds * price == Cost(price, seeds)
  {
  }

  /** A generation takes four batches of slots. */
  lemma SlotsGrow(population: nat, g: nat, generations: nat)
    requires g <= generations
    ensures g > 0 ==> EvolutionSlots(population, g) == EvolutionSlots(population, g - 1) + 4 * population
    ensures EvolutionSlots(population, g) <= EvolutionSlots(population, generations)
    ensures EvolutionSlots(population, 0) == population
    decreases generations - g
  {
    Distributes(population, 1 + 4 * g);
    if g < generations {
      Distributes(population, 1 + 4 * (g + 1));
      SlotsGrow(population, g + 1, generations);
    }
  }

  lemma Distributes(a: int, b: int)
    ensures a * b == a * (b - 4) + 4 * a
    ensures a * 1 == a
  {
  }
}
