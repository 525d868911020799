/**
 * Selection leaves nothing to chance: what `SelectEarly` and `SelectLate` promise is met by
 * one list only. So a resumed run that selects from the same merged population retains the
 * same candidates in the same order.
 */
module SelectionDetermined {
  import opened Common
  import opened Selection

  // ---------------------------------------------------------------- sequences fixed by their elements

  lemma {:induction false} IncreasingUnique(s: seq<nat>, t: seq<nat>)
    requires Increasing(s) && Increasing(t) && forall p :: p in s <==> p in t
    ensures s == t
    decreases |s|
  {
    assert t == [] || t[0] in s;
    if s != [] {
      var m, n := |s| - 1, |t| - 1;
      assert s[m] in s && s[m] in t;
      assert t[n] in t && t[n] in s;
      forall p ensures p in s[..m] <==> p in t[..n] {
        LastLeaves(s, p);
        LastLeaves(t, p);
      }
      IncreasingUnique(s[..m], t[..n]);
      assert s == s[..m] + [s[m]] && t == t[..n] + [t[n]];
    }
  }

  lemma LastLeaves(s: seq<nat>, p: nat)
    requires s != [] && Increasing(s)
    ensures p in s[..|s| - 1] <==> p in s && p != s[|s| - 1]
  {
    if p in s && p != s[|s| - 1] {
      var i :| 0 <= i < |s| && s[i] == p;
      assert s[..|s| - 1][i] == p;
    }
  }

  // ---------------------------------------------------------------- tiers

  /** A tier of one list is a tier of the other, with the same members. */
  lemma TierElsewhere(pop: seq<Candidate>, a: seq<seq<nat>>, b: seq<seq<nat>>, i: nat) returns (j: nat)
    requires Tiers(pop, a) && Tiers(pop, b) && i < |a|
    ensures j < |b| && b[j] == a[i]
  {
    assert TierAt(pop, a, i);
    var p := a[i][0];
    assert Valid(pop, p);
    j :| InTier(b, p, j);
    assert TierAt(pop, b, j);
    SameScoreSameTier(pop, b, j, p);
    forall q ensures q in a[i] <==> q in b[j] {
      if q in a[i] { OfScore(pop, b, j, q); }
      if q in b[j] { OfScore(pop, a, i, q); }
    }
    IncreasingUnique(a[i], b[j]);
  }

  lemma SameScoreSameTier(pop: seq<Candidate>, tiers: seq<seq<nat>>, j: nat, p: nat)
    requires Tiers(pop, tiers) && InTier(tiers, p, j)
    ensures TierAt(pop, tiers, j) && Valid(pop, p) && Score(pop, p) == Score(pop, tiers[j][0])
  {
    assert TierAt(pop, tiers, j);
    var k :| 0 <= k < |tiers[j]| && tiers[j][k] == p;
  }

  /** A tier holds every valid candidate of its score. */
  lemma OfScore(pop: seq<Candidate>, tiers: seq<seq<nat>>, j: nat, q: nat)
    requires Tiers(pop, tiers) && j < |tiers| && Valid(pop, q)
    requires TierAt(pop, tiers, j) && Score(pop, q) == Score(pop, tiers[j][0])
    ensures q in tiers[j]
  {
    var m: nat :| InTier(tiers, q, m);
    SameScoreSameTier(pop, tiers, m, q);
    if m < j { TiersDiffer(pop, tiers, m, j); }
    if j < m { TiersDiffer(pop, tiers, j, m); }
  }

  lemma {:induction false} TiersAgreeUpTo(pop: seq<Candidate>, a: seq<seq<nat>>, b: seq<seq<nat>>, n: nat)
    requires Tiers(pop, a) && Tiers(pop, b) && n <= |a| && n <= |b|
    ensures a[..n] == b[..n]
  {
    if n > 0 {
      var i := n - 1;
      TiersAgreeUpTo(pop, a, b, i);
      var j := TierElsewhere(pop, a, b, i);
      var k := TierElsewhere(pop, b, a, i);
      if j < i { SameTierOnce(pop, a, j, i, b[..i][j]); }
      if k < i { SameTierOnce(pop, b, k, i, a[..i][k]); }
      if j > i && k > i {
        TiersDiffer(pop, b, i, j);
        TiersDiffer(pop, a, i, k);
      }
      assert a[..n] == a[..i] + [a[i]] && b[..n] == b[..i] + [b[i]];
    }
  }

  lemma SameTierOnce(pop: seq<Candidate>, tiers: seq<seq<nat>>, i: nat, j: nat, t: seq<nat>)
    requires Tiers(pop, tiers) && i < j < |tiers|
    ensures !(tiers[i] == t && tiers[j] == t)
  {
    TiersDiffer(pop, tiers, i, j);
  }

  lemma TiersUnique(pop: seq<Candidate>, a: seq<seq<nat>>, b: seq<seq<nat>>)
    requires Tiers(pop, a) && Tiers(pop, b)
    ensures a == b
  {
    var n := Min(|a|, |b|);
    TiersAgreeUpTo(pop, a, b, n);
    if |a| > n {
      var j := TierElsewhere(pop, a, b, n);
      SameTierOnce(pop, a, j, n, b[..n][j]);
    } else if |b| > n {
      var j := TierElsewhere(pop, b, a, n);
      SameTierOnce(pop, b, j, n, a[..n][j]);
    }
    assert a[..|a|] == a && b[..|b|] == b;
  }

  // ---------------------------------------------------------------- ranking

  ghost predicate InOrder(before: (nat, nat) -> bool, s: seq<nat>) {
    forall i, j :: 0 <= i < j < |s| ==> before(s[i], s[j])
  }

  ghost predicate Asymmetric(before: (nat, nat) -> bool) {
    forall p, q :: !(before(p, q) && before(q, p))
  }

  lemma TailElements(s: seq<nat>)
    requires s != []
    ensures multiset(s[1..]) == multiset(s) - multiset{s[0]}
  {
    assert s == [s[0]] + s[1..];
  }

  lemma TailInOrder(before: (nat, nat) -> bool, s: seq<nat>)
    requires s != [] && InOrder(before, s)
    ensures InOrder(before, s[1..])
  {
  }

  /** A list sorted by a strict order is fixed by its elements. */
  lemma {:induction false} SortedUnique(before: (nat, nat) -> bool, s: seq<nat>, t: seq<nat>)
    requires Asymmetric(before) && InOrder(before, s) && InOrder(before, t) && multiset(s) == multiset(t)
    ensures s == t
    decreases |s|
  {
    assert |multiset(s)| == |multiset(t)|;
    if s != [] {
      SameFirst(before, s, t);
      TailElements(s);
      TailElements(t);
      TailInOrder(before, s);
      TailInOrder(before, t);
      SortedUnique(before, s[1..], t[1..]);
      assert s == [s[0]] + s[1..] && t == [t[0]] + t[1..];
    }
  }

  lemma SameFirst(before: (nat, nat) -> bool, s: seq<nat>, t: seq<nat>)
    requires Asymmetric(before) && InOrder(before, s) && InOrder(before, t) && multiset(s) == multiset(t)
    requires s != [] && t != []
    ensures s[0] == t[0]
  {
    SameElements(s, t, 0);
    SameElements(t, s, 0);
    var i :| 0 <= i < |t| && t[i] == s[0];
    var j :| 0 <= j < |s| && s[j] == t[0];
  }

  lemma RankedUnique(pop: seq<Candidate>, first: bool, covered: set<Id>, tier: seq<nat>, s: seq<nat>, t: seq<nat>)
    requires RankedTier(pop, first, covered, tier, s) && RankedTier(pop, first, covered, tier, t)
    ensures s == t
  {
    var before := (p: nat, q: nat) => p < |pop| && q < |pop| && Outranks(pop, first, covered, p, q);
    assert Asymmetric(before);
    SortedUnique(before, s, t);
  }

  lemma {:induction false} RankedTiersAgree(
    pop: seq<Candidate>, tiers: seq<seq<nat>>, r: seq<seq<nat>>, s: seq<seq<nat>>, n: nat)
    requires RankedTiers(pop, tiers, r) && RankedTiers(pop, tiers, s) && n <= |r| && n <= |s|
    ensures r[..n] == s[..n]
  {
    if n > 0 {
      var i := n - 1;
      RankedTiersAgree(pop, tiers, r, s, i);
      assert RankedAt(pop, tiers, r, i) && RankedAt(pop, tiers, s, i);
      RankedUnique(pop, i == 0, Covered(pop, r[..i]), tiers[i], r[i], s[i]);
      assert r[..n] == r[..i] + [r[i]] && s[..n] == s[..i] + [s[i]];
    }
  }

  // ---------------------------------------------------------------- reading by columns

  /** Of two readings of the same tiers the one that went less far is a prefix of the other. */
  lemma {:induction false} ReadsOn(ranked: seq<seq<nat>>, level: nat, cut: nat, level': nat, cut': nat)
    requires cut <= |ranked| && cut' <= |ranked| && (level < level' || (level == level' && cut <= cut'))
    ensures Upto(ranked, level, cut) <= Upto(ranked, level', cut')
    decreases level', cut'
  {
    if level != level' || cut != cut' {
      if cut' > 0 {
        ReadsOn(ranked, level, cut, level', cut' - 1);
      } else {
        ReadsOn(ranked, level, cut, level' - 1, |ranked|);
      }
    }
  }

  /** Early selection has exactly one outcome. */
  lemma EarlySelectionUnique(
    pop: seq<Candidate>, size: nat,
    tiers: seq<seq<nat>>, ranked: seq<seq<nat>>, level: nat, cut: nat, picked: seq<nat>,
    tiers': seq<seq<nat>>, ranked': seq<seq<nat>>, level': nat, cut': nat, picked': seq<nat>)
    requires FilledSelection(pop, tiers, ranked, level, cut, size, picked)
    requires FilledSelection(pop, tiers', ranked', level', cut', size, picked')
    ensures picked == picked'
  {
    hide Tiers;
    hide RankedTiers;
    TiersUnique(pop, tiers, tiers');
    RankedTiersAgree(pop, tiers, ranked, ranked', |ranked|);
    assert ranked[..|ranked|] == ranked && ranked'[..|ranked|] == ranked';
    if level < level' || (level == level' && cut <= cut') {
      ReadsOn(ranked, level, cut, level', cut');
    } else {
      ReadsOn(ranked, level', cut', level, cut);
    }
  }

  /** Late selection has exactly one outcome. */
  lemma LateSortUnique(pop: seq<Candidate>, valid: seq<nat>, s: seq<nat>, t: seq<nat>)
    requires LateSorted(pop, valid, s) && LateSorted(pop, valid, t)
    ensures s == t
  {
    var before := (p: nat, q: nat) => Valid(pop, p) && Valid(pop, q) && LatePrecedes(pop, p, q);
    assert Asymmetric(before);
    SortedUnique(before, s, t);
  }

  /** Selecting twice from the same population retains the same candidates in the same order. */
  method SelectTwice(pop: seq<Candidate>, size: int, early: bool) returns (first: seq<nat>, second: seq<nat>)
    ensures first == second && |first| == Min(Max(size, 0), |ValidPositions(pop)|)
  {
    hide FilledSelection;
    hide LateSorted;
    if early {
      var a, t, r, l, c := SelectEarly(pop, size);
      var b, t', r', l', c' := SelectEarly(pop, size);
      if 0 < size < |ValidPositions(pop)| { EarlySelectionUnique(pop, size, t, r, l, c, a, t', r', l', c', b); }
      return a, b;
    }
    var a, s := SelectLate(pop, size);
    var b, s' := SelectLate(pop, size);
    if 0 < size < |ValidPositions(pop)| { LateSortUnique(pop, ValidPositions(pop), s, s'); }
    return a, b;
  }
}
