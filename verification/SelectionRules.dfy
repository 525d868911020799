/**
 * What early selection chooses, said of the population and the chosen positions alone: one
 * head per objective, best objectives first, each with the most operators that the heads
 * before it lack; then round after round, every tier in the order of the same gain.
 */
module SelectionRules {
  import opened Common
  import opened Selection

  /** The operators of some candidates. */
  ghost function NamesOf(pop: seq<Candidate>, s: seq<nat>): set<Id> {
    set k, n | 0 <= k < |s| && s[k] < |pop| && n in pop[s[k]].names :: n
  }

  /** `p` adds more to the operators `u` than `q` does, or as many and stands earlier. */
  predicate Prefers(pop: seq<Candidate>, u: set<Id>, p: nat, q: nat)
    requires p < |pop| && q < |pop|
  {
    var a, b := |pop[p].names - u|, |pop[q].names - u|;
    b < a || (a == b && p < q)
  }

  predicate SameObjective(pop: seq<Candidate>, p: nat, q: nat) {
    Valid(pop, p) && Valid(pop, q) && pop[p].objective.value == pop[q].objective.value
  }

  predicate BetterObjective(pop: seq<Candidate>, p: nat, q: nat) {
    Valid(pop, p) && Valid(pop, q) && pop[p].objective.value < pop[q].objective.value
  }

  /**
   * The `k`-th choice is the head of its objective: no other candidate of that objective adds
   * more to the operators of the choices before it, and those of its objective that are chosen
   * later, and those that are not, follow in the same order.
   */
  ghost predicate HeadRule(pop: seq<Candidate>, picked: seq<nat>, k: nat)
    requires k < |picked| && AllValid(pop, picked)
  {
    var u := NamesOf(pop, picked[..k]);
    && (forall q: nat :: SameObjective(pop, picked[k], q) && q != picked[k] ==> Prefers(pop, u, picked[k], q))
    && (forall a, b :: 0 <= a < b < |picked| && SameObjective(pop, picked[k], picked[a]) && SameObjective(pop, picked[k], picked[b]) ==>
          Prefers(pop, u, picked[a], picked[b]))
    && (forall a, q: nat :: 0 <= a < |picked| && SameObjective(pop, picked[k], picked[a]) && SameObjective(pop, picked[k], q) && q !in picked ==>
          Prefers(pop, u, picked[a], q))
  }

  /** The heads come best objective first, and no better objective is passed over. */
  ghost predicate ObjectiveRule(pop: seq<Candidate>, picked: seq<nat>, k: nat)
    requires k < |picked| && AllValid(pop, picked)
  {
    && (forall j :: 0 <= j < k ==> BetterObjective(pop, picked[j], picked[k]))
    && (forall q: nat :: BetterObjective(pop, q, picked[k]) ==> exists j :: 0 <= j < k && SameObjective(pop, picked[j], q))
  }

  /** The first `m` choices are heads; there are `size` of them, or one for every objective. */
  ghost predicate EarlyRule(pop: seq<Candidate>, picked: seq<nat>, size: nat, m: nat) {
    && AllValid(pop, picked) && m <= |picked|
    && (forall k: nat {:trigger HeadRule(pop, picked, k)} :: k < m ==> HeadRule(pop, picked, k))
    && (forall k: nat {:trigger ObjectiveRule(pop, picked, k)} :: k < m ==> ObjectiveRule(pop, picked, k))
    && (m == size || forall q: nat :: Valid(pop, q) ==> exists j :: 0 <= j < m && SameObjective(pop, picked[j], q))
  }

  // ---------------------------------------------------------------- order within a tier

  /** Members of one tier are read in the order of their ranking. */
  lemma {:induction false} UptoInOrder(ranked: seq<seq<nat>>, level: nat, cut: nat, i: nat, x: nat, y: nat, n: nat, o: nat)
    requires cut <= |ranked| && OnePlaceEach(ranked) && n < o < |Upto(ranked, level, cut)|
    requires i < |ranked| && x < |ranked[i]| && y < |ranked[i]|
    requires Upto(ranked, level, cut)[n] == ranked[i][x] && Upto(ranked, level, cut)[o] == ranked[i][y]
    ensures x < y
    decreases level, cut
  {
    if cut > 0 {
      var before := Upto(ranked, level, cut - 1);
      if o < |before| {
        UptoInOrder(ranked, level, cut - 1, i, x, y, n, o);
      } else {
        assert ranked[i][y] == ranked[cut - 1][level];
        var j, k := UptoPlace(ranked, level, cut - 1, before[n]);
      }
    } else {
      UptoInOrder(ranked, level - 1, |ranked|, i, x, y, n, o);
    }
  }

  /** A member that is not read stands behind those that are. */
  lemma UnreadIsBehind(ranked: seq<seq<nat>>, level: nat, cut: nat, i: nat, x: nat, y: nat)
    requires cut <= |ranked| && OnePlaceEach(ranked) && i < |ranked| && x < |ranked[i]| && y < |ranked[i]|
    requires ranked[i][x] in Upto(ranked, level, cut) && ranked[i][y] !in Upto(ranked, level, cut)
    ensures x < y
  {
    var j, k := UptoPlace(ranked, level, cut, ranked[i][x]);
    if y <= x && y != x { UptoContains(ranked, level, cut, i, y); }
  }

  // ---------------------------------------------------------------- what the ranking means

  lemma {:induction false} CoveredIsNames(pop: seq<Candidate>, ranked: seq<seq<nat>>, picked: seq<nat>, k: nat)
    requires k <= |ranked| && k <= |picked|
    requires forall i :: 0 <= i < k ==> ranked[i] != [] && picked[i] == ranked[i][0] && picked[i] < |pop|
    ensures Covered(pop, ranked[..k]) == NamesOf(pop, picked[..k])
  {
    if k > 0 {
      var j := k - 1;
      CoveredIsNames(pop, ranked, picked, j);
      assert ranked[..k][..j] == ranked[..j];
      NamesNext(pop, picked, j);
    }
  }

  lemma NamesNext(pop: seq<Candidate>, s: seq<nat>, k: nat)
    requires k < |s| && s[k] < |pop|
    ensures NamesOf(pop, s[..k + 1]) == NamesOf(pop, s[..k]) + pop[s[k]].names
  {
    assert s[..k + 1] == s[..k] + [s[k]];
    forall n | n in NamesOf(pop, s[..k]) + pop[s[k]].names ensures n in NamesOf(pop, s[..k + 1]) {
      if n in NamesOf(pop, s[..k]) {
        var i :| 0 <= i < k && s[..k][i] < |pop| && n in pop[s[..k][i]].names;
        assert s[..k + 1][i] == s[i];
      } else {
        assert s[..k + 1][k] == s[k];
      }
    }
    forall n | n in NamesOf(pop, s[..k + 1]) ensures n in NamesOf(pop, s[..k]) + pop[s[k]].names {
      var i :| 0 <= i < k + 1 && s[..k + 1][i] < |pop| && n in pop[s[..k + 1][i]].names;
      if i < k { assert s[..k][i] == s[i]; }
    }
  }

  /** Ranking by the key of a tier is preferring what adds more. */
  lemma OutranksIsPrefers(pop: seq<Candidate>, first: bool, u: set<Id>, p: nat, q: nat)
    requires p < |pop| && q < |pop| && (first ==> u == {})
    ensures Outranks(pop, first, u, p, q) <==> Prefers(pop, u, p, q)
  {
    assert pop[p].names - {} == pop[p].names && pop[q].names - {} == pop[q].names;
  }

  lemma TierHasHead(
    pop: seq<Candidate>, tiers: seq<seq<nat>>, ranked: seq<seq<nat>>, level: nat, cut: nat, size: nat, picked: seq<nat>)
    requires FilledSelection(pop, tiers, ranked, level, cut, size, picked)
    ensures AllValid(pop, picked) && |ranked| <= |picked|
    ensures forall i :: 0 <= i < |ranked| ==> ranked[i] != [] && picked[i] == ranked[i][0]
  {
    UptoValid(pop, tiers, ranked, level, cut);
    FirstColumn(pop, tiers, ranked, |ranked|);
    FirstColumn(pop, tiers, ranked, cut);
    if level >= 1 { UptoExtends(ranked, level, cut); }
  }

  /** A candidate of the objective of a ranked tier stands in it. */
  lemma MemberOf(pop: seq<Candidate>, tiers: seq<seq<nat>>, ranked: seq<seq<nat>>, i: nat, q: nat) returns (y: nat)
    requires Tiers(pop, tiers) && RankedTiers(pop, tiers, ranked) && i < |ranked| && ranked[i] != []
    requires SameObjective(pop, ranked[i][0], q)
    ensures y < |ranked[i]| && ranked[i][y] == q
  {
    RankedEntry(pop, tiers, ranked, i);
    assert Valid(pop, q);
    var j: nat :| InTier(tiers, q, j);
    assert TierAt(pop, tiers, i) && TierAt(pop, tiers, j) && RankedAt(pop, tiers, ranked, i);
    if i < j { TiersDiffer(pop, tiers, i, j); }
    if j < i { TiersDiffer(pop, tiers, j, i); }
    assert q in multiset(tiers[i]);
    assert q in multiset(ranked[i]);
    y :| 0 <= y < |ranked[i]| && ranked[i][y] == q;
  }

  lemma RankedPrefers(pop: seq<Candidate>, tiers: seq<seq<nat>>, ranked: seq<seq<nat>>, i: nat, x: nat, y: nat)
    requires Tiers(pop, tiers) && RankedTiers(pop, tiers, ranked) && i < |ranked| && x < y < |ranked[i]|
    ensures AllValid(pop, ranked[i]) && Prefers(pop, Covered(pop, ranked[..i]), ranked[i][x], ranked[i][y])
  {
    RankedEntry(pop, tiers, ranked, i);
    assert RankedAt(pop, tiers, ranked, i);
    assert ranked[..0] == [];
    OutranksIsPrefers(pop, i == 0, Covered(pop, ranked[..i]), ranked[i][x], ranked[i][y]);
  }

  lemma HeadFollowsRule(
    pop: seq<Candidate>, tiers: seq<seq<nat>>, ranked: seq<seq<nat>>, level: nat, cut: nat, size: nat, picked: seq<nat>, k: nat)
    requires FilledSelection(pop, tiers, ranked, level, cut, size, picked) && k < |ranked|
    ensures AllValid(pop, picked) && k < |picked| && HeadRule(pop, picked, k)
  {
    hide Prefers;
    hide Tiers;
    hide RankedTiers;
    hide Upto;
    TierHasHead(pop, tiers, ranked, level, cut, size, picked);
    RankedPlaces(pop, tiers, ranked);
    CoveredIsNames(pop, ranked, picked, k);
    var u := NamesOf(pop, picked[..k]);
    forall q: nat | SameObjective(pop, picked[k], q) && q != picked[k] ensures Prefers(pop, u, picked[k], q) {
      var y := MemberOf(pop, tiers, ranked, k, q);
      RankedPrefers(pop, tiers, ranked, k, 0, y);
    }
    forall a: nat, b: nat | a < b < |picked| && SameObjective(pop, picked[k], picked[a]) && SameObjective(pop, picked[k], picked[b])
      ensures Prefers(pop, u, picked[a], picked[b])
    {
      var x := MemberOf(pop, tiers, ranked, k, picked[a]);
      var y := MemberOf(pop, tiers, ranked, k, picked[b]);
      UptoInOrder(ranked, level, cut, k, x, y, a, b);
      RankedPrefers(pop, tiers, ranked, k, x, y);
    }
    forall a: nat, q: nat |
      a < |picked| && SameObjective(pop, picked[k], picked[a]) && SameObjective(pop, picked[k], q) && q !in picked
      ensures Prefers(pop, u, picked[a], q)
    {
      var x := MemberOf(pop, tiers, ranked, k, picked[a]);
      var y := MemberOf(pop, tiers, ranked, k, q);
      UnreadIsBehind(ranked, level, cut, k, x, y);
      RankedPrefers(pop, tiers, ranked, k, x, y);
    }
  }

  /** The head of a tier has the objective of the tier. */
  lemma HeadObjective(
    pop: seq<Candidate>, tiers: seq<seq<nat>>, ranked: seq<seq<nat>>, level: nat, cut: nat, size: nat, picked: seq<nat>, i: nat)
    requires FilledSelection(pop, tiers, ranked, level, cut, size, picked) && i < |ranked|
    ensures i < |picked| && tiers[i] != [] && SameObjective(pop, tiers[i][0], picked[i])
  {
    hide Upto;
    TierHasHead(pop, tiers, ranked, level, cut, size, picked);
    RankedEntry(pop, tiers, ranked, i);
  }

  lemma TierOf(pop: seq<Candidate>, tiers: seq<seq<nat>>, q: nat) returns (i: nat)
    requires Tiers(pop, tiers) && Valid(pop, q)
    ensures i < |tiers| && tiers[i] != [] && SameObjective(pop, tiers[i][0], q)
  {
    i :| InTier(tiers, q, i);
    assert TierAt(pop, tiers, i);
  }

  lemma ObjectivesFollowRule(
    pop: seq<Candidate>, tiers: seq<seq<nat>>, ranked: seq<seq<nat>>, level: nat, cut: nat, size: nat, picked: seq<nat>, k: nat)
    requires FilledSelection(pop, tiers, ranked, level, cut, size, picked) && k < |ranked|
    ensures AllValid(pop, picked) && k < |picked| && ObjectiveRule(pop, picked, k)
  {
    hide Upto;
    hide Tiers;
    hide RankedTiers;
    TierHasHead(pop, tiers, ranked, level, cut, size, picked);
    HeadObjective(pop, tiers, ranked, level, cut, size, picked, k);
    forall j: nat | j < k ensures BetterObjective(pop, picked[j], picked[k]) {
      HeadObjective(pop, tiers, ranked, level, cut, size, picked, j);
      TiersDiffer(pop, tiers, j, k);
    }
    forall q: nat | BetterObjective(pop, q, picked[k]) ensures exists j :: 0 <= j < k && SameObjective(pop, picked[j], q) {
      var i := TierOf(pop, tiers, q);
      if k < i { TiersDiffer(pop, tiers, k, i); }
      HeadObjective(pop, tiers, ranked, level, cut, size, picked, i);
      assert SameObjective(pop, picked[i], q);
    }
  }

  /** Early selection follows the rule, with a head for each of the best `min(size, tiers)` objectives. */
  lemma EarlyFollowsRule(
    pop: seq<Candidate>, tiers: seq<seq<nat>>, ranked: seq<seq<nat>>, level: nat, cut: nat, size: nat, picked: seq<nat>)
    requires FilledSelection(pop, tiers, ranked, level, cut, size, picked)
    ensures EarlyRule(pop, picked, size, Min(size, |tiers|))
  {
    hide HeadRule;
    hide ObjectiveRule;
    hide Upto;
    hide RankedTiers;
    TierHasHead(pop, tiers, ranked, level, cut, size, picked);
    forall k: nat | k < |ranked| ensures HeadRule(pop, picked, k) && ObjectiveRule(pop, picked, k) {
      HeadFollowsRule(pop, tiers, ranked, level, cut, size, picked, k);
      ObjectivesFollowRule(pop, tiers, ranked, level, cut, size, picked, k);
    }
    if |ranked| != size {
      forall q: nat | Valid(pop, q) ensures exists j :: 0 <= j < |ranked| && SameObjective(pop, picked[j], q) {
        var i := TierOf(pop, tiers, q);
        HeadObjective(pop, tiers, ranked, level, cut, size, picked, i);
        assert SameObjective(pop, picked[i], q);
      }
    }
  }

  // ---------------------------------------------------------------- round after round

  /** Reading one candidate less. */
  lemma {:induction false} UptoDropLast(ranked: seq<seq<nat>>, level: nat, cut: nat) returns (level': nat, cut': nat)
    requires cut <= |ranked| && Upto(ranked, level, cut) != []
    ensures cut' <= |ranked| && Upto(ranked, level', cut') == Upto(ranked, level, cut)[..|Upto(ranked, level, cut)| - 1]
    ensures level' <= level
    decreases level, cut
  {
    if cut > 0 {
      if level < |ranked[cut - 1]| {
        level', cut' := level, cut - 1;
      } else {
        assert Upto(ranked, level, cut) == Upto(ranked, level, cut - 1);
        level', cut' := UptoDropLast(ranked, level, cut - 1);
      }
    } else {
      level', cut' := UptoDropLast(ranked, level - 1, |ranked|);
    }
  }

  /**
   * What is selected of a population up to a size is selected first up to any larger size. So
   * the water level holds after every single choice, which fixes the order of the rounds.
   */
  lemma {:induction false} FewerIsPrefix(
    pop: seq<Candidate>, tiers: seq<seq<nat>>, ranked: seq<seq<nat>>, level: nat, cut: nat, size: nat, picked: seq<nat>, n: nat)
    returns (ranked': seq<seq<nat>>, level': nat, cut': nat)
    requires FilledSelection(pop, tiers, ranked, level, cut, size, picked) && 0 < n <= size
    ensures FilledSelection(pop, tiers, ranked', level', cut', n, picked[..n])
    decreases size
  {
    hide Tiers;
    hide RankedTiers;
    ranked', level', cut' := ranked, level, cut;
    assert picked[..size] == picked;
    if n < size {
      var r, l, c := OneFewer(pop, tiers, ranked, level, cut, size, picked);
      ranked', level', cut' := FewerIsPrefix(pop, tiers, r, l, c, size - 1, picked[..size - 1], n);
      assert picked[..size - 1][..n] == picked[..n];
    }
  }

  lemma OneFewer(
    pop: seq<Candidate>, tiers: seq<seq<nat>>, ranked: seq<seq<nat>>, level: nat, cut: nat, size: nat, picked: seq<nat>)
    returns (ranked': seq<seq<nat>>, level': nat, cut': nat)
    requires FilledSelection(pop, tiers, ranked, level, cut, size, picked) && 1 < size
    ensures FilledSelection(pop, tiers, ranked', level', cut', size - 1, picked[..size - 1])
  {
    hide Tiers;
    FirstColumn(pop, tiers, ranked, |ranked|);
    if |ranked| == size {
      var k := size - 1;
      if level > 0 { UptoExtends(ranked, level, cut); }
      FirstColumn(pop, tiers, ranked, cut);
      assert picked == Upto(ranked, 0, size);
      ranked', level', cut' := ranked[..k], 0, k;
      FewerRanked(pop, tiers, ranked, k);
      assert ranked[..k] + [ranked[k]] == ranked;
      UptoFirstColumn(ranked[..k], ranked[k], k);
      assert Upto(ranked, 0, k) == picked[..k];
    } else {
      ranked' := ranked;
      level', cut' := UptoDropLast(ranked, level, cut);
    }
  }

  lemma FewerRanked(pop: seq<Candidate>, tiers: seq<seq<nat>>, ranked: seq<seq<nat>>, k: nat)
    requires RankedTiers(pop, tiers, ranked) && k <= |ranked|
    ensures RankedTiers(pop, tiers, ranked[..k])
  {
    forall i: nat | i < k ensures RankedAt(pop, tiers, ranked[..k], i) {
      assert RankedAt(pop, tiers, ranked, i);
      assert ranked[..k][..i] == ranked[..i];
    }
  }

  /** The rule, on what the selection returns. */
  method RetainEarly(pop: seq<Candidate>, size: int) returns (picked: seq<nat>, ghost heads: nat)
    ensures AllValid(pop, picked) && Distinct(picked) && |picked| == Min(Max(size, 0), |ValidPositions(pop)|)
    ensures size >= |ValidPositions(pop)| ==> picked == ValidPositions(pop)
    ensures 0 < size < |ValidPositions(pop)| ==> EarlyRule(pop, picked, size, heads)
    ensures 0 < size && ValidPositions(pop) != [] ==> KeepsBest(pop, picked)
  {
    hide EarlyRule;
    ghost var tiers, ranked, level, cut;
    picked, tiers, ranked, level, cut := SelectEarly(pop, size);
    heads := 0;
    if 0 < size < |ValidPositions(pop)| {
      heads := Min(size, |tiers|);
      EarlyFollowsRule(pop, tiers, ranked, level, cut, size, picked);
      EarlyKeepsBest(pop, tiers, ranked, level, cut, size, picked);
    } else if ValidPositions(pop) != [] {
      AllKeepBest(pop);
    }
  }

  // ---------------------------------------------------------------- late selection

  /** Lower objective first; among equals more operators; among those the earlier position. */
  predicate ComesBefore(pop: seq<Candidate>, p: nat, q: nat)
    requires Valid(pop, p) && Valid(pop, q)
  {
    if pop[p].objective.value != pop[q].objective.value then pop[p].objective.value < pop[q].objective.value
    else if |pop[p].names| != |pop[q].names| then |pop[q].names| < |pop[p].names|
    else p < q
  }

  /** The chosen ones in this order, and every other candidate behind all of them. */
  ghost predicate LateRule(pop: seq<Candidate>, picked: seq<nat>) {
    && AllValid(pop, picked)
    && (forall a, b :: 0 <= a < b < |picked| ==> ComesBefore(pop, picked[a], picked[b]))
    && (forall a, q: nat :: 0 <= a < |picked| && Valid(pop, q) && q !in picked ==> ComesBefore(pop, picked[a], q))
  }

  lemma LateFollowsRule(pop: seq<Candidate>, sorted: seq<nat>, size: nat)
    requires LateSorted(pop, ValidPositions(pop), sorted) && size <= |sorted|
    ensures LateRule(pop, sorted[..size])
  {
    var picked := sorted[..size];
    assert forall i :: 0 <= i < size ==> picked[i] == sorted[i] && sorted[i] in picked;
    forall a, q: nat | 0 <= a < |picked| && Valid(pop, q) && q !in picked ensures ComesBefore(pop, picked[a], q) {
      assert q in ValidPositions(pop) && q in multiset(ValidPositions(pop));
      assert q in multiset(sorted);
      var b :| 0 <= b < |sorted| && sorted[b] == q;
      assert LatePrecedes(pop, sorted[a], sorted[b]);
    }
  }

  method RetainLate(pop: seq<Candidate>, size: int) returns (picked: seq<nat>)
    ensures AllValid(pop, picked) && Distinct(picked) && |picked| == Min(Max(size, 0), |ValidPositions(pop)|)
    ensures size >= |ValidPositions(pop)| ==> picked == ValidPositions(pop)
    ensures 0 < size < |ValidPositions(pop)| ==> LateRule(pop, picked)
    ensures 0 < size && ValidPositions(pop) != [] ==> KeepsBest(pop, picked)
  {
    hide LateRule;
    hide LateSorted;
    ghost var sorted;
    picked, sorted := SelectLate(pop, size);
    if 0 < size < |ValidPositions(pop)| {
      LateFollowsRule(pop, sorted, size);
      LateKeepsBest(pop, sorted, size);
    } else if ValidPositions(pop) != [] {
      AllKeepBest(pop);
    }
  }
}
