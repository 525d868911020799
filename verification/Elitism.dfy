/**
 * A whole run keeps the best: whatever the offspring and however early and late selections
 * alternate, the least objective retained is the least ever merged.
 */
module Elitism {
  import opened Common
  import opened Selection
  import opened SelectionRules
  import opened GenerationLoop

  function Pick(pop: seq<Candidate>, picked: seq<nat>): (chosen: seq<Candidate>)
    requires AllValid(pop, picked)
    ensures |chosen| == |picked| && forall k :: 0 <= k < |picked| ==> chosen[k] == pop[picked[k]]
  {
    if picked == [] then []
    else Pick(pop, picked[..|picked| - 1]) + [pop[picked[|picked| - 1]]]
  }

  /** Everything merged up to generation `n`. */
  function Merged(initial: seq<Candidate>, batches: seq<seq<Candidate>>, n: nat): seq<Candidate>
    requires n <= |batches|
  {
    if n == 0 then initial else Merged(initial, batches, n - 1) + batches[n - 1]
  }

  /** The objectives that occur in a population. */
  ghost function Scores(pop: seq<Candidate>): set<real> {
    set c | c in pop && c.objective.Some? :: c.objective.value
  }

  ghost predicate IsLeast(scores: set<real>, v: real) {
    v in scores && forall w :: w in scores ==> v <= w
  }

  ghost predicate IsEmpty(scores: set<real>) {
    forall v :: v !in scores
  }

  /** The same least objective, or none in either. */
  ghost predicate SameLeast(a: set<real>, b: set<real>) {
    forall v :: IsLeast(a, v) <==> IsLeast(b, v)
  }

  lemma ScoresMerge(a: seq<Candidate>, b: seq<Candidate>)
    ensures Scores(a + b) == Scores(a) + Scores(b)
  {
    assert forall c :: c in a + b <==> c in a || c in b;
  }

  lemma {:induction false} LeastOf(a: set<real>, x: real) returns (v: real)
    requires x in a
    ensures IsLeast(a, v)
    decreases |a|
  {
    v := x;
    var rest := a - {x};
    if y :| y in rest {
      var w := LeastOf(rest, y);
      if w < x { v := w; }
      forall z | z in a ensures v <= z { assert z == x || z in rest; }
    } else {
      forall z | z in a ensures v <= z { assert z == x || z in rest; }
    }
  }

  lemma SameLeastMerges(a: set<real>, b: set<real>, c: set<real>)
    requires SameLeast(a, b)
    ensures SameLeast(a + c, b + c)
  {
    forall v ensures IsLeast(a + c, v) <==> IsLeast(b + c, v) {
      LeastMoves(a, b, c, v);
      LeastMoves(b, a, c, v);
    }
  }

  lemma LeastMoves(a: set<real>, b: set<real>, c: set<real>, v: real)
    requires SameLeast(a, b)
    ensures IsLeast(a + c, v) ==> IsLeast(b + c, v)
  {
    if IsLeast(a + c, v) {
      if v in a {
        assert IsLeast(a, v) by { assert forall w :: w in a ==> w in a + c; }
        assert IsLeast(b, v);
      }
      forall w | w in b + c ensures v <= w {
        if w in b {
          var m := LeastOf(b, w);
          assert IsLeast(a, m) && m in a + c;
        } else {
          assert w in a + c;
        }
      }
    }
  }

  lemma SameLeastChain(a: set<real>, b: set<real>, c: set<real>)
    requires SameLeast(a, b) && SameLeast(b, c)
    ensures SameLeast(a, c)
  {
  }

  /** A selection that keeps a best candidate keeps the least objective. */
  lemma SelectionKeepsLeast(pop: seq<Candidate>, picked: seq<nat>)
    requires KeepsBest(pop, picked)
    ensures SameLeast(Scores(Pick(pop, picked)), Scores(pop))
  {
    var chosen := Pick(pop, picked);
    var k :| 0 <= k < |picked| && forall p :: Valid(pop, p) ==> Score(pop, picked[k]) <= Score(pop, p);
    assert chosen[k] == pop[picked[k]] && Valid(pop, picked[k]);
    var v := Score(pop, picked[k]);
    forall w | w in Scores(pop) ensures v <= w {
      var c :| c in pop && c.objective == Some(w);
      var p: nat :| p < |pop| && pop[p] == c;
      assert Valid(pop, p);
    }
    assert Scores(chosen) <= Scores(pop);
    assert chosen[k] in chosen && v in Scores(chosen);
    assert IsLeast(Scores(pop), v) && IsLeast(Scores(chosen), v);
  }

  lemma NothingToKeep(pop: seq<Candidate>)
    requires ValidPositions(pop) == []
    ensures Scores(pop) == {}
  {
    forall c | c in pop ensures c.objective.None? {
      var p: nat :| p < |pop| && pop[p] == c;
      assert p !in ValidPositions(pop);
    }
  }

  /** What is kept of a population is what the early or the late selection chooses. */
  ghost predicate Chosen(pop: seq<Candidate>, size: nat, early: bool, kept: seq<Candidate>) {
    exists picked: seq<nat> :: AllValid(pop, picked) && kept == Pick(pop, picked) && ChosenAt(pop, size, early, picked)
  }

  ghost predicate ChosenAt(pop: seq<Candidate>, size: nat, early: bool, picked: seq<nat>) {
    if size >= |ValidPositions(pop)| then picked == ValidPositions(pop)
    else if early then exists heads :: EarlyRule(pop, picked, size, heads)
    else LateRule(pop, picked)
  }

  /** One selection of `size` survivors. */
  method Retain(pop: seq<Candidate>, size: nat, early: bool) returns (kept: seq<Candidate>)
    requires size > 0
    ensures |kept| == Min(size, |ValidPositions(pop)|) && SameLeast(Scores(kept), Scores(pop))
    ensures forall c :: c in kept ==> c in pop && c.objective.Some?
    ensures Chosen(pop, size, early, kept)
  {
    hide EarlyRule;
    hide LateRule;
    var picked: seq<nat>;
    if early {
      ghost var heads;
      picked, heads := RetainEarly(pop, size);
    } else {
      picked := RetainLate(pop, size);
    }
    if ValidPositions(pop) == [] { NothingToKeep(pop); } else { SelectionKeepsLeast(pop, picked); }
    kept := Pick(pop, picked);
    assert ChosenAt(pop, size, early, picked);
  }

  /** It stands at some position, and every candidate before that is worse. */
  ghost predicate FirstOfLeast(population: seq<Candidate>, best: Candidate) {
    best.objective.Some? && exists k :: 0 <= k < |population| && population[k] == best && WorseBefore(population, k, best)
  }

  predicate WorseBefore(population: seq<Candidate>, k: nat, best: Candidate)
    requires best.objective.Some?
  {
    forall j :: 0 <= j < k && j < |population| && population[j].objective.Some? ==>
      best.objective.value < population[j].objective.value
  }

  /** The first candidate of least objective. */
  method Best(population: seq<Candidate>) returns (best: Option<Candidate>)
    requires forall c :: c in population ==> c.objective.Some?
    ensures best.None? <==> population == []
    ensures best.Some? ==> best.value in population && best.value.objective.Some?
    ensures best.Some? ==> IsLeast(Scores(population), best.value.objective.value)
    ensures best.Some? ==> FirstOfLeast(population, best.value)
  {
    if population == [] { return None; }
    assert population[0] in population;
    best := Some(population[0]);
    ghost var at := 0;
    for k := 1 to |population|
      invariant best.Some? && best.value in population && best.value.objective.Some?
      invariant 0 <= at < k && population[at] == best.value
      invariant WorseBefore(population, at, best.value)
      invariant forall m :: 0 <= m < k ==> population[m] in population && best.value.objective.value <= population[m].objective.value
    {
      assert population[k] in population;
      if population[k].objective.value < best.value.objective.value {
        best := Some(population[k]);
        at := k;
      }
    }
  }

  /**
   * The evolution of a run without final selection: `batches[g - 1]` holds the offspring of
   * generation `g`, `line` the populations retained one after another. The first half of the
   * generations selects early, the others late. The best candidate it returns has the least
   * objective of everything ever merged.
   */
  method Evolve(initial: seq<Candidate>, batches: seq<seq<Candidate>>, size: nat)
    returns (population: seq<Candidate>, best: Option<Candidate>, ghost line: seq<seq<Candidate>>)
    requires size > 0
    ensures |line| == |batches| + 1 && population == line[|batches|] && Chosen(initial, size, true, line[0])
    ensures forall g :: 1 <= g <= |batches| ==>
              Chosen(line[g - 1] + batches[g - 1], size, g == 1 || 2 * g <= |batches|, line[g])
    ensures best.Some? ==> FirstOfLeast(population, best.value)
    ensures |population| <= size
    ensures SameLeast(Scores(population), Scores(Merged(initial, batches, |batches|)))
    ensures best.None? <==> IsEmpty(Scores(Merged(initial, batches, |batches|)))
    ensures best.Some? ==> best.value in population && best.value.objective.Some?
    ensures best.Some? ==> IsLeast(Scores(Merged(initial, batches, |batches|)), best.value.objective.value)
  {
    hide Chosen;
    population := Retain(initial, size, true);
    line := [population];
    for g := 1 to |batches| + 1
      invariant |population| <= size && SameLeast(Scores(population), Scores(Merged(initial, batches, g - 1)))
      invariant forall c :: c in population ==> c.objective.Some?
      invariant |line| == g && population == line[g - 1] && Chosen(initial, size, true, line[0])
      invariant forall f :: 1 <= f < g ==>
        Chosen(line[f - 1] + batches[f - 1], size, f == 1 || 2 * f <= |batches|, line[f])
    {
      EarlyIsFirstHalf(g, |batches|);
      var combined := population + batches[g - 1];
      ScoresMerge(population, batches[g - 1]);
      ScoresMerge(Merged(initial, batches, g - 1), batches[g - 1]);
      SameLeastMerges(Scores(population), Scores(Merged(initial, batches, g - 1)), Scores(batches[g - 1]));
      population := Retain(combined, size, IsEarly(g, |batches|));
      SameLeastChain(Scores(population), Scores(combined), Scores(Merged(initial, batches, g)));
      line := line + [population];
    }
    best := Best(population);
    ghost var kept, merged := Scores(population), Scores(Merged(initial, batches, |batches|));
    EmptyAlike(kept, merged);
    if best.None? {
      assert IsEmpty(kept);
    } else {
      assert IsLeast(kept, best.value.objective.value) && IsLeast(merged, best.value.objective.value);
    }
  }

  lemma EmptyAlike(a: set<real>, b: set<real>)
    requires SameLeast(a, b)
    ensures IsEmpty(a) <==> IsEmpty(b)
  {
    if x :| x in a {
      var v := LeastOf(a, x);
      assert IsLeast(b, v);
    }
    if x :| x in b {
      var v := LeastOf(b, x);
      assert IsLeast(a, v);
    }
  }
}
