/**
 * The generation loop with crashes. Memory is lost at any step; checkpoint rows and the
 * cursor stay. However often the loop is interrupted and resumed, and by however many
 * runtimes, a run that completes gives the answer of the loop without interruptions.
 */
module GenerationLoop {
  import opened Common

  // ---------------------------------------------------------------- the schedule

  datatype Operator = I1 | E1 | E2 | M1 | M2

  const OPERATORS_PER_GENERATION := 4

  predicate IsEarly(generation: nat, total: nat)
    requires 1 <= generation <= total
  {
    generation <= Max(1, total / 2)
  }

  function OperatorsFor(generation: nat, total: nat): (ops: seq<Operator>)
    requires 1 <= generation <= total
    ensures |ops| == OPERATORS_PER_GENERATION
  {
    if IsEarly(generation, total) then [I1, E1, E2, M1] else [E1, E2, M1, M2]
  }

  /** Every run explores first: its early generations are a non-empty prefix, m2 comes only later. */
  lemma EarlyIsPrefix(g: nat, total: nat)
    requires 1 <= g <= total
    ensures IsEarly(1, total)
    ensures I1 in OperatorsFor(g, total) <==> M2 !in OperatorsFor(g, total)
    ensures forall f :: 1 <= f <= g && IsEarly(g, total) ==> IsEarly(f, total)
    ensures total >= 2 ==> !IsEarly(total, total)
  {
  }

  /** The first half of the generations is early, and the first one always. */
  lemma EarlyIsFirstHalf(g: nat, total: nat)
    requires 1 <= g <= total
    ensures IsEarly(g, total) <==> g == 1 || 2 * g <= total
    ensures OperatorsFor(g, total) == if g == 1 || 2 * g <= total then [I1, E1, E2, M1] else [E1, E2, M1, M2]
  {
  }

  // ---------------------------------------------------------------- one uninterrupted run

  /** `core` is the exported state of the evolution core: random generator and counters. */
  type CoreState = nat

  datatype Batch = Batch(core: CoreState, offspring: seq<Id>)

  /**
   * What determines a run: the state of a fresh core, the selected initial population,
   * generation and evaluation of one operator's batch, and selection.
   */
  datatype Setup = Setup(
    total: nat, core: CoreState, initial: seq<Id>,
    batch: (CoreState, seq<Id>, nat, Operator) -> Batch,
    select: (bool, seq<Id>) -> seq<Id>,
    objective: Id -> real)

  datatype Outcome = Outcome(core: CoreState, population: seq<Id>, best: Option<Id>)

  /** The batches of the operators from index `op` on; all of them see the same base population. */
  function Batches(s: Setup, core: CoreState, base: seq<Id>, generation: nat, op: nat): Batch
    requires 1 <= generation <= s.total && op <= OPERATORS_PER_GENERATION
    decreases OPERATORS_PER_GENERATION - op
  {
    if op == OPERATORS_PER_GENERATION then Batch(core, [])
    else
      var b := s.batch(core, base, generation, OperatorsFor(generation, s.total)[op]);
      var rest := Batches(s, b.core, base, generation, op + 1);
      Batch(rest.core, b.offspring + rest.offspring)
  }

  function BestOf(s: Setup, population: seq<Id>): (best: Option<Id>)
    ensures best.None? <==> population == []
    ensures best.Some? ==> best.value in population
    ensures best.Some? ==> forall c :: c in population ==> s.objective(best.value) <= s.objective(c)
  {
    if population == [] then None
    else
      var k := |population| - 1;
      var before := BestOf(s, population[..k]);
      if before.Some? && s.objective(before.value) <= s.objective(population[k]) then before
      else Some(population[k])
  }

  /** Generations `generation`..`total`, each with one selection out of parents and offspring. */
  function Generations(s: Setup, generation: nat, core: CoreState, population: seq<Id>): Outcome
    requires 1 <= generation
    decreases s.total + 1 - generation
  {
    if generation > s.total then Outcome(core, population, BestOf(s, population))
    else
      var b := Batches(s, core, population, generation, 0);
      Generations(s, generation + 1, b.core, s.select(IsEarly(generation, s.total), population + b.offspring))
  }

  function Uninterrupted(s: Setup): Outcome {
    Generations(s, 1, s.core, s.initial)
  }

  /** Every candidate before position `k` is worse. */
  predicate WorseBefore(s: Setup, population: seq<Id>, k: nat)
    requires k < |population|
  {
    forall j :: 0 <= j < k ==> s.objective(population[k]) < s.objective(population[j])
  }

  /** It stands at some position, and all before it are worse. */
  ghost predicate FirstOfLeast(s: Setup, population: seq<Id>, best: Id) {
    exists k :: 0 <= k < |population| && population[k] == best && WorseBefore(s, population, k)
  }

  lemma {:induction false} BestIsFirst(s: Setup, population: seq<Id>)
    requires population != []
    ensures BestOf(s, population).Some? && FirstOfLeast(s, population, BestOf(s, population).value)
  {
    var k := |population| - 1;
    var before := BestOf(s, population[..k]);
    if before.Some? && s.objective(before.value) <= s.objective(population[k]) {
      BestIsFirst(s, population[..k]);
      var i :| 0 <= i < k && population[..k][i] == before.value && WorseBefore(s, population[..k], i);
      assert population[i] == before.value;
      forall j | 0 <= j < i ensures s.objective(population[i]) < s.objective(population[j]) {
        assert population[..k][j] == population[j];
      }
      assert WorseBefore(s, population, i);
    } else {
      forall j | 0 <= j < k ensures s.objective(population[k]) < s.objective(population[j]) {
        assert population[..k][j] == population[j] && population[j] in population[..k];
      }
      assert WorseBefore(s, population, k);
    }
  }

  // ---------------------------------------------------------------- the loop written out

  /**
   * The same run, generation by generation, with the four operators of each written out: i1,
   * e1, e2, m1 and early selection in the first half, e1, e2, m1, m2 and late selection after it.
   */
  function WrittenOut(s: Setup, generation: nat, core: CoreState, population: seq<Id>): (CoreState, seq<Id>)
    requires 1 <= generation
    decreases s.total + 1 - generation
  {
    if generation > s.total then (core, population)
    else
      var early := generation == 1 || 2 * generation <= s.total;
      var first := s.batch(core, population, generation, if early then I1 else E1);
      var second := s.batch(first.core, population, generation, if early then E1 else E2);
      var third := s.batch(second.core, population, generation, if early then E2 else M1);
      var fourth := s.batch(third.core, population, generation, if early then M1 else M2);
      var offspring := first.offspring + second.offspring + third.offspring + fourth.offspring;
      WrittenOut(s, generation + 1, fourth.core, s.select(early, population + offspring))
  }

  lemma {:induction false} GenerationsWrittenOut(s: Setup, generation: nat, core: CoreState, population: seq<Id>)
    requires 1 <= generation
    ensures var o := Generations(s, generation, core, population);
            (o.core, o.population) == WrittenOut(s, generation, core, population) && o.best == BestOf(s, o.population)
    decreases s.total + 1 - generation
  {
    hide Batches;
    hide OperatorsFor;
    hide IsEarly;
    hide BestOf;
    if generation <= s.total {
      EarlyIsFirstHalf(generation, s.total);
      BatchesWrittenOut(s, core, population, generation);
      var b := Batches(s, core, population, generation, 0);
      GenerationsWrittenOut(s, generation + 1, b.core, s.select(IsEarly(generation, s.total), population + b.offspring));
    }
  }

  lemma BatchesWrittenOut(s: Setup, core: CoreState, base: seq<Id>, g: nat)
    requires 1 <= g <= s.total
    ensures var ops := OperatorsFor(g, s.total);
            var first := s.batch(core, base, g, ops[0]);
            var second := s.batch(first.core, base, g, ops[1]);
            var third := s.batch(second.core, base, g, ops[2]);
            var fourth := s.batch(third.core, base, g, ops[3]);
            Batches(s, core, base, g, 0) ==
              Batch(fourth.core, first.offspring + second.offspring + third.offspring + fourth.offspring)
  {
    var ops := OperatorsFor(g, s.total);
    var first := s.batch(core, base, g, ops[0]);
    var second := s.batch(first.core, base, g, ops[1]);
    var third := s.batch(second.core, base, g, ops[2]);
    var fourth := s.batch(third.core, base, g, ops[3]);
    assert Batches(s, fourth.core, base, g, 4) == Batch(fourth.core, []);
    assert Batches(s, third.core, base, g, 3) == Batch(fourth.core, fourth.offspring + []);
    assert Batches(s, second.core, base, g, 2).core == fourth.core;
    assert Batches(s, first.core, base, g, 1).core == fourth.core;
    assert first.offspring + (second.offspring + (third.offspring + (fourth.offspring + []))) ==
           first.offspring + second.offspring + third.offspring + fourth.offspring;
  }

  /** What the loop written out ends with, and the first best candidate it retains. */
  ghost predicate IsWrittenOut(s: Setup, o: Outcome) {
    && (o.core, o.population) == WrittenOut(s, 1, s.core, s.initial)
    && (o.best.None? <==> o.population == [])
    && (o.best.Some? ==> FirstOfLeast(s, o.population, o.best.value))
  }

  lemma UninterruptedWrittenOut(s: Setup)
    ensures IsWrittenOut(s, Uninterrupted(s))
  {
    GenerationsWrittenOut(s, 1, s.core, s.initial);
    var population := Uninterrupted(s).population;
    if population != [] { BestIsFirst(s, population); }
  }

  // ---------------------------------------------------------------- checkpoints

  /** The state a checkpoint stores: where the loop stands and what it needs to go on. */
  datatype Snapshot = Snapshot(
    core: CoreState, population: seq<Id>, nextGeneration: nat, nextOperator: nat, offspring: seq<Id>)

  predicate WellFormed(s: Setup, c: Snapshot) {
    && 1 <= c.nextGeneration && c.nextOperator <= OPERATORS_PER_GENERATION
    && (c.nextGeneration > s.total ==> c.nextOperator == 0 && c.offspring == [])
  }

  /** The answer of the run that goes on from a checkpoint. */
  function AnswerFrom(s: Setup, c: Snapshot): Outcome
    requires WellFormed(s, c)
  {
    if c.nextGeneration > s.total then Outcome(c.core, c.population, BestOf(s, c.population))
    else
      var b := Batches(s, c.core, c.population, c.nextGeneration, c.nextOperator);
      Generations(s, c.nextGeneration + 1, b.core,
                  s.select(IsEarly(c.nextGeneration, s.total), c.population + (c.offspring + b.offspring)))
  }

  /** A checkpoint that leads to the answer of the uninterrupted run. */
  predicate OnTrack(s: Setup, c: Snapshot) {
    WellFormed(s, c) && AnswerFrom(s, c) == Uninterrupted(s)
  }

  function Initial(s: Setup): Snapshot {
    Snapshot(s.core, s.initial, 1, 0, [])
  }

  lemma InitialOnTrack(s: Setup)
    ensures OnTrack(s, Initial(s))
  {
    if s.total >= 1 {
      var b := Batches(s, s.core, s.initial, 1, 0);
      assert [] + b.offspring == b.offspring;
    }
  }

  /** One boundary later: the next operator's batch, or the selection of the generation. */
  function Next(s: Setup, c: Snapshot): Snapshot
    requires WellFormed(s, c) && c.nextGeneration <= s.total
  {
    var g := c.nextGeneration;
    if c.nextOperator < OPERATORS_PER_GENERATION then
      var b := s.batch(c.core, c.population, g, OperatorsFor(g, s.total)[c.nextOperator]);
      Snapshot(b.core, c.population, g, c.nextOperator + 1, c.offspring + b.offspring)
    else
      Snapshot(c.core, s.select(IsEarly(g, s.total), c.population + c.offspring), g + 1, 0, [])
  }

  /** Neither the operator in progress nor the selection is lost or repeated. */
  lemma NextOnTrack(s: Setup, c: Snapshot)
    requires OnTrack(s, c) && c.nextGeneration <= s.total
    ensures OnTrack(s, Next(s, c))
  {
    if c.nextOperator < OPERATORS_PER_GENERATION {
      BatchKeepsAnswer(s, c);
    } else {
      assert c.offspring + [] == c.offspring;
      SelectionOnTrack(s, c);
    }
  }

  lemma BatchKeepsAnswer(s: Setup, c: Snapshot)
    requires WellFormed(s, c) && c.nextGeneration <= s.total && c.nextOperator < OPERATORS_PER_GENERATION
    ensures WellFormed(s, Next(s, c)) && AnswerFrom(s, Next(s, c)) == AnswerFrom(s, c)
  {
    hide Generations;
    var n := Next(s, c);
    var b := s.batch(c.core, c.population, c.nextGeneration, OperatorsFor(c.nextGeneration, s.total)[c.nextOperator]);
    var rest := Batches(s, b.core, c.population, c.nextGeneration, c.nextOperator + 1);
    assert c.offspring + (b.offspring + rest.offspring) == n.offspring + rest.offspring;
  }

  lemma SelectionOnTrack(s: Setup, c: Snapshot)
    requires WellFormed(s, c) && c.nextGeneration <= s.total && c.nextOperator == OPERATORS_PER_GENERATION
    ensures AnswerFrom(s, Next(s, c)) == Generations(s, c.nextGeneration + 1, c.core, Next(s, c).population)
  {
    var n := Next(s, c);
    if n.nextGeneration <= s.total {
      var b := Batches(s, n.core, n.population, n.nextGeneration, 0);
      assert [] + b.offspring == b.offspring;
    }
  }

  lemma TrackBounds(s: Setup, c: Snapshot)
    requires OnTrack(s, c)
    ensures 1 <= c.nextGeneration && c.nextOperator <= OPERATORS_PER_GENERATION
    ensures c.nextGeneration > s.total ==>
              c.nextOperator == 0 && Outcome(c.core, c.population, BestOf(s, c.population)) == Uninterrupted(s)
  {
  }

  /** After `op` batches of a generation that has not ended. */
  lemma BatchOnTrack(s: Setup, core: CoreState, base: seq<Id>, g: nat, op: nat, offspring: seq<Id>)
    requires OnTrack(s, Snapshot(core, base, g, op, offspring)) && 1 <= g <= s.total && op < OPERATORS_PER_GENERATION
    ensures var b := s.batch(core, base, g, OperatorsFor(g, s.total)[op]);
            OnTrack(s, Snapshot(b.core, base, g, op + 1, offspring + b.offspring))
  {
    hide AnswerFrom;
    NextOnTrack(s, Snapshot(core, base, g, op, offspring));
  }

  lemma GenerationOnTrack(s: Setup, core: CoreState, base: seq<Id>, g: nat, offspring: seq<Id>)
    requires OnTrack(s, Snapshot(core, base, g, OPERATORS_PER_GENERATION, offspring)) && 1 <= g <= s.total
    ensures OnTrack(s, Snapshot(core, s.select(IsEarly(g, s.total), base + offspring), g + 1, 0, []))
  {
    hide AnswerFrom;
    NextOnTrack(s, Snapshot(core, base, g, OPERATORS_PER_GENERATION, offspring));
  }

  // ---------------------------------------------------------------- many runtimes

  /** What any number of runtimes do to their memories, the rows and the cursor. */
  datatype Step =
    | Begins(owner: Id, restarts: Option<nat>)   // from a row, or afresh when there is none
    | Advances(owner: Id)                        // one batch or one selection, in memory
    | Writes(owner: Id)                          // a checkpoint row, by owners and former owners
    | MovesCursor(owner: Id, row: nat)           // by whoever passes the fence
    | Crashes(owner: Id)
    | Completes(owner: Id)

  datatype System = System(
    memories: map<Id, Snapshot>, rows: seq<Snapshot>, cursor: Option<nat>, answers: seq<Outcome>)

  const NOTHING := System(map[], [], None, [])

  predicate Enabled(s: Setup, y: System, step: Step) {
    match step
    case Begins(o, from) =>
      (match from case None => y.rows == [] case Some(k) => k < |y.rows|)
    case Advances(o) =>
      o in y.memories && WellFormed(s, y.memories[o]) && y.memories[o].nextGeneration <= s.total
    case Writes(o) => o in y.memories
    case MovesCursor(o, k) => k < |y.rows|
    case Crashes(o) => true
    case Completes(o) => o in y.memories && y.memories[o].nextGeneration > s.total
  }

  function Taken(s: Setup, y: System, step: Step): System
    requires Enabled(s, y, step)
  {
    match step
    case Begins(o, from) =>
      y.(memories := y.memories[o := match from case None => Initial(s) case Some(k) => y.rows[k]])
    case Advances(o) => y.(memories := y.memories[o := Next(s, y.memories[o])])
    case Writes(o) => y.(rows := y.rows + [y.memories[o]])
    case MovesCursor(o, k) => y.(cursor := Some(k))
    case Crashes(o) => y.(memories := y.memories - {o})
    case Completes(o) =>
      var c := y.memories[o];
      y.(answers := y.answers + [Outcome(c.core, c.population, BestOf(s, c.population))])
  }

  function After(s: Setup, steps: seq<Step>): Option<System> {
    if steps == [] then Some(NOTHING)
    else
      var y := After(s, steps[..|steps| - 1]);
      if y.Some? && Enabled(s, y.value, steps[|steps| - 1])
      then Some(Taken(s, y.value, steps[|steps| - 1])) else None
  }

  predicate Sound(s: Setup, y: System) {
    && (forall o :: o in y.memories ==> OnTrack(s, y.memories[o]))
    && (forall k :: 0 <= k < |y.rows| ==> OnTrack(s, y.rows[k]))
    && (forall k :: 0 <= k < |y.answers| ==> y.answers[k] == Uninterrupted(s))
  }

  lemma StepIsSound(s: Setup, y: System, step: Step)
    requires Sound(s, y) && Enabled(s, y, step)
    ensures Sound(s, Taken(s, y, step))
  {
    hide AnswerFrom;
    match step
    case Begins(o, from) => InitialOnTrack(s);
    case Advances(o) => NextOnTrack(s, y.memories[o]);
    case Writes(o) =>
    case MovesCursor(o, k) =>
    case Crashes(o) =>
    case Completes(o) => FinishedAnswer(s, y.memories[o]);
  }

  lemma FinishedAnswer(s: Setup, c: Snapshot)
    requires WellFormed(s, c) && c.nextGeneration > s.total
    ensures AnswerFrom(s, c) == Outcome(c.core, c.population, BestOf(s, c.population))
  {
  }

  /**
   * In every interleaving of starts, work, row writes, cursor moves and crashes of any
   * number of runtimes - even ones resuming from a row that no cursor names - every runtime
   * that completes reports the core state, ordered population and best candidate of the
   * uninterrupted run.
   */
  lemma {:induction false} EveryAnswerAgrees(s: Setup, steps: seq<Step>)
    requires After(s, steps).Some?
    ensures Sound(s, After(s, steps).value)
  {
    if steps != [] {
      var k := |steps| - 1;
      EveryAnswerAgrees(s, steps[..k]);
      StepIsSound(s, After(s, steps[..k]).value, steps[k]);
    }
  }
}
