/**
 * Choosing the retained population out of parents and offspring. A candidate is named by its
 * position in the merged population, since equal candidates are still different candidates.
 */
module Selection {
  import opened Common

  /** `names` holds the distinct non-blank operator names; an unevaluated candidate has no objective. */
  datatype Candidate = Candidate(objective: Option<real>, names: set<Id>)

  predicate Valid(pop: seq<Candidate>, p: nat) {
    p < |pop| && pop[p].objective.Some?
  }

  /** The positions with an objective, in order. */
  function ValidPositions(pop: seq<Candidate>): (s: seq<nat>)
    ensures forall p :: p in s <==> Valid(pop, p)
    ensures AllValid(pop, s) && Increasing(s)
  {
    if pop == [] then []
    else
      var k := |pop| - 1;
      var s := ValidPositions(pop[..k]);
      if pop[k].objective.Some? then s + [k] else s
  }

  function Score(pop: seq<Candidate>, p: nat): real
    requires Valid(pop, p)
  {
    pop[p].objective.value
  }

  predicate AllValid(pop: seq<Candidate>, s: seq<nat>) {
    forall k :: 0 <= k < |s| ==> Valid(pop, s[k])
  }

  predicate Increasing(s: seq<nat>) {
    forall i, j :: 0 <= i < j < |s| ==> s[i] < s[j]
  }

  predicate Distinct(s: seq<nat>) {
    forall i, j :: 0 <= i < j < |s| ==> s[i] != s[j]
  }

  // ---------------------------------------------------------------- fitness tiers

  /** Some candidates of objective `v` among the first `n`, in population order. */
  predicate IsTier(pop: seq<Candidate>, n: nat, v: real, tier: seq<nat>) {
    && tier != [] && AllValid(pop, tier) && Increasing(tier)
    && forall j :: 0 <= j < |tier| ==> tier[j] < n && Score(pop, tier[j]) == v
  }

  predicate Filed(pop: seq<Candidate>, groups: map<real, seq<nat>>, p: nat)
    requires Valid(pop, p)
  {
    Score(pop, p) in groups && p in groups[Score(pop, p)]
  }

  /** The dictionary holds exactly the first `n` candidates that have an objective. */
  ghost predicate Grouped(pop: seq<Candidate>, n: nat, groups: map<real, seq<nat>>) {
    && (forall v {:trigger IsTier(pop, n, v, groups[v])} :: v in groups ==> IsTier(pop, n, v, groups[v]))
    && (forall p: nat {:trigger Filed(pop, groups, p)} :: p < n && Valid(pop, p) ==> Filed(pop, groups, p))
  }

  function WithNext(groups: map<real, seq<nat>>, v: real, n: nat): map<real, seq<nat>> {
    groups[v := (if v in groups then groups[v] else []) + [n]]
  }

  lemma FileNext(pop: seq<Candidate>, n: nat, groups: map<real, seq<nat>>)
    requires Grouped(pop, n, groups) && Valid(pop, n)
    ensures Grouped(pop, n + 1, WithNext(groups, Score(pop, n), n))
  {
    var next := WithNext(groups, Score(pop, n), n);
    forall w | w in next ensures IsTier(pop, n + 1, w, next[w]) {
      if w in groups { assert IsTier(pop, n, w, groups[w]); }
      NextTier(pop, n, groups, w);
    }
    forall p: nat | p < n + 1 && Valid(pop, p) ensures Filed(pop, next, p) {
      if p < n {
        assert Filed(pop, groups, p);
      } else {
        assert next[Score(pop, n)][|next[Score(pop, n)]| - 1] == n;
      }
    }
  }

  lemma NextTier(pop: seq<Candidate>, n: nat, groups: map<real, seq<nat>>, w: real)
    requires Valid(pop, n) && w in WithNext(groups, Score(pop, n), n)
    requires w in groups ==> IsTier(pop, n, w, groups[w])
    ensures IsTier(pop, n + 1, w, WithNext(groups, Score(pop, n), n)[w])
  {
  }

  lemma SkipNext(pop: seq<Candidate>, n: nat, groups: map<real, seq<nat>>)
    requires Grouped(pop, n, groups) && !Valid(pop, n)
    ensures Grouped(pop, n + 1, groups)
  {
    forall w | w in groups ensures IsTier(pop, n + 1, w, groups[w]) { assert IsTier(pop, n, w, groups[w]); }
    forall p: nat | p < n + 1 && Valid(pop, p) ensures Filed(pop, groups, p) { assert p < n; }
  }

  /** A dictionary by objective; `order` lists its keys as they were first met. */
  method GroupByObjective(pop: seq<Candidate>) returns (groups: map<real, seq<nat>>, order: seq<real>)
    ensures Grouped(pop, |pop|, groups) && forall v :: v in order <==> v in groups
    ensures forall i, j :: 0 <= i < j < |order| ==> order[i] != order[j]
  {
    hide Grouped;
    groups, order := map[], [];
    NothingGrouped(pop);
    for n := 0 to |pop|
      invariant Grouped(pop, n, groups) && forall v :: v in order <==> v in groups
      invariant forall i, j :: 0 <= i < j < |order| ==> order[i] != order[j]
    {
      if pop[n].objective.Some? {
        FileNext(pop, n, groups);
        var v := pop[n].objective.value;
        ghost var before := groups;
        if v !in groups {
          order := order + [v];
          groups := groups[v := []];
        }
        groups := groups[v := groups[v] + [n]];
        assert groups == WithNext(before, v, n);
      } else {
        SkipNext(pop, n, groups);
      }
    }
  }

  lemma NothingGrouped(pop: seq<Candidate>)
    ensures Grouped(pop, 0, map[])
  {
  }

  predicate Ascending(s: seq<real>) {
    forall i, j :: 0 <= i < j < |s| ==> s[i] < s[j]
  }

  method SortedKeys(keys: seq<real>) returns (sorted: seq<real>)
    requires forall i, j :: 0 <= i < j < |keys| ==> keys[i] != keys[j]
    ensures Ascending(sorted) && forall v :: v in sorted <==> v in keys
  {
    sorted := [];
    for n := 0 to |keys|
      invariant Ascending(sorted) && forall v :: v in sorted <==> v in keys[..n]
    {
      var at := |sorted|;
      while 0 < at && keys[n] < sorted[at - 1]
        invariant 0 <= at <= |sorted|
        invariant forall i :: at <= i < |sorted| ==> keys[n] < sorted[i]
      {
        at := at - 1;
      }
      assert keys[n] !in keys[..n] && (at > 0 ==> sorted[at - 1] in sorted);
      assert keys[..n + 1] == keys[..n] + [keys[n]];
      InsertAscending(sorted, at, keys[n]);
      InsertedElements(sorted, at, keys[n]);
      sorted := Inserted(sorted, at, keys[n]);
    }
    assert keys[..|keys|] == keys;
  }

  lemma InsertAscending(s: seq<real>, at: nat, v: real)
    requires Ascending(s) && at <= |s|
    requires forall i :: 0 <= i < at ==> s[i] < v
    requires forall i :: at <= i < |s| ==> v < s[i]
    ensures Ascending(Inserted(s, at, v))
  {
  }

  lemma InsertedElements(s: seq<real>, at: nat, v: real)
    requires at <= |s|
    ensures forall w :: w in Inserted(s, at, v) <==> w in s || w == v
  {
    var t := Inserted(s, at, v);
    forall w | w in s ensures w in t {
      var i :| 0 <= i < |s| && s[i] == w;
      assert t[if i < at then i else i + 1] == w;
    }
    assert t[at] == v;
  }

  predicate TierAt(pop: seq<Candidate>, tiers: seq<seq<nat>>, i: nat)
    requires i < |tiers|
  {
    && tiers[i] != [] && AllValid(pop, tiers[i])
    && IsTier(pop, |pop|, Score(pop, tiers[i][0]), tiers[i])
  }

  predicate InTier(tiers: seq<seq<nat>>, p: nat, i: nat) {
    i < |tiers| && p in tiers[i]
  }

  /** Candidates of equal objective, best objective first, each tier in population order. */
  ghost predicate Tiers(pop: seq<Candidate>, tiers: seq<seq<nat>>) {
    && (forall i: nat {:trigger TierAt(pop, tiers, i)} :: i < |tiers| ==> TierAt(pop, tiers, i))
    && (forall i: nat, j: nat {:trigger TierAt(pop, tiers, i), TierAt(pop, tiers, j)} ::
          i < j < |tiers| && TierAt(pop, tiers, i) && TierAt(pop, tiers, j) ==>
            Score(pop, tiers[i][0]) < Score(pop, tiers[j][0]))
    && (forall p: nat {:trigger Valid(pop, p)} :: Valid(pop, p) ==> exists i :: InTier(tiers, p, i))
  }

  method FitnessTiers(pop: seq<Candidate>) returns (tiers: seq<seq<nat>>)
    ensures Tiers(pop, tiers)
  {
    var groups, order := GroupByObjective(pop);
    var values := SortedKeys(order);
    tiers := [];
    for i := 0 to |values|
      invariant |tiers| == i && forall k :: 0 <= k < i ==> values[k] in groups && tiers[k] == groups[values[k]]
    {
      assert values[i] in values;
      tiers := tiers + [groups[values[i]]];
    }
    CollectedTiers(pop, groups, values, tiers);
  }

  lemma CollectedTiers(pop: seq<Candidate>, groups: map<real, seq<nat>>, values: seq<real>, tiers: seq<seq<nat>>)
    requires Grouped(pop, |pop|, groups) && Ascending(values) && forall v :: v in values <==> v in groups
    requires |tiers| == |values|
    requires forall k :: 0 <= k < |values| ==> values[k] in groups && tiers[k] == groups[values[k]]
    ensures Tiers(pop, tiers)
  {
    forall i: nat | i < |tiers| ensures TierAt(pop, tiers, i) && Score(pop, tiers[i][0]) == values[i] {
      assert IsTier(pop, |pop|, values[i], groups[values[i]]);
    }
    forall p | Valid(pop, p) ensures exists i :: InTier(tiers, p, i) {
      assert Filed(pop, groups, p);
      assert Score(pop, p) in values;
      var i :| 0 <= i < |values| && values[i] == Score(pop, p);
      assert InTier(tiers, p, i);
    }
  }

  // ---------------------------------------------------------------- ranking one tier

  /** The sort key of a candidate: tier 0 looks at its own operators first. */
  function Key(pop: seq<Candidate>, first: bool, covered: set<Id>, p: nat): (nat, nat)
    requires p < |pop|
  {
    var gain := |pop[p].names - covered|;
    if first then (|pop[p].names|, gain) else (gain, 0)
  }

  predicate Greater(a: (nat, nat), b: (nat, nat)) {
    a.0 > b.0 || (a.0 == b.0 && a.1 > b.1)
  }

  /** Descending by key; equal keys keep their order, which is the order of positions. */
  predicate Outranks(pop: seq<Candidate>, first: bool, covered: set<Id>, p: nat, q: nat)
    requires p < |pop| && q < |pop|
  {
    var a, b := Key(pop, first, covered, p), Key(pop, first, covered, q);
    Greater(a, b) || (a == b && p < q)
  }

  /** The one stable descending order of a tier. */
  ghost predicate RankedTier(pop: seq<Candidate>, first: bool, covered: set<Id>, tier: seq<nat>, ranked: seq<nat>) {
    && AllValid(pop, ranked) && multiset(ranked) == multiset(tier)
    && forall i, j :: 0 <= i < j < |ranked| ==> Outranks(pop, first, covered, ranked[i], ranked[j])
  }

  /** A stable insertion sort, in descending order of the key. */
  method RankTier(pop: seq<Candidate>, first: bool, covered: set<Id>, tier: seq<nat>) returns (ranked: seq<nat>)
    requires AllValid(pop, tier) && Increasing(tier)
    ensures RankedTier(pop, first, covered, tier, ranked)
  {
    ranked := [];
    for n := 0 to |tier|
      invariant RankedTier(pop, first, covered, tier[..n], ranked)
    {
      var at := |ranked|;
      while 0 < at && Greater(Key(pop, first, covered, tier[n]), Key(pop, first, covered, ranked[at - 1]))
        invariant 0 <= at <= |ranked|
        invariant forall i :: at <= i < |ranked| ==> Outranks(pop, first, covered, tier[n], ranked[i])
      {
        at := at - 1;
      }
      InsertRanked(pop, first, covered, tier, n, ranked, at);
      ranked := Inserted(ranked, at, tier[n]);
    }
    assert tier[..|tier|] == tier;
  }

  lemma InsertRanked(
    pop: seq<Candidate>, first: bool, covered: set<Id>, tier: seq<nat>, n: nat, ranked: seq<nat>, at: nat)
    requires AllValid(pop, tier) && n < |tier| && Increasing(tier)
    requires RankedTier(pop, first, covered, tier[..n], ranked) && at <= |ranked|
    requires at > 0 ==> !Greater(Key(pop, first, covered, tier[n]), Key(pop, first, covered, ranked[at - 1]))
    requires forall i :: at <= i < |ranked| ==> Outranks(pop, first, covered, tier[n], ranked[i])
    ensures RankedTier(pop, first, covered, tier[..n + 1], Inserted(ranked, at, tier[n]))
  {
    hide Outranks;
    assert tier[..n + 1] == tier[..n] + [tier[n]];
    InsertOne(ranked, at, tier[n]);
    if at > 0 {
      SameElements(ranked, tier[..n], at - 1);
      OutrankedOrLater(pop, first, covered, ranked[at - 1], tier[n]);
    }
    forall i | 0 <= i < at ensures Outranks(pop, first, covered, ranked[i], tier[n]) {
      if i < at - 1 { OutranksChain(pop, first, covered, ranked[i], ranked[at - 1], tier[n]); }
    }
    InsertInOrder(pop, first, covered, ranked, at, tier[n]);
  }

  lemma InsertOne(s: seq<nat>, at: nat, p: nat)
    requires at <= |s|
    ensures multiset(Inserted(s, at, p)) == multiset(s) + multiset{p}
  {
    assert s == s[..at] + s[at..];
  }

  lemma SameElements(s: seq<nat>, t: seq<nat>, i: nat)
    requires multiset(s) == multiset(t) && i < |s|
    ensures s[i] in t
  {
    assert s[i] in multiset(s);
  }

  lemma OutrankedOrLater(pop: seq<Candidate>, first: bool, covered: set<Id>, p: nat, q: nat)
    requires p < q < |pop| && !Greater(Key(pop, first, covered, q), Key(pop, first, covered, p))
    ensures Outranks(pop, first, covered, p, q)
  {
  }

  lemma OutranksChain(pop: seq<Candidate>, first: bool, covered: set<Id>, p: nat, q: nat, r: nat)
    requires p < |pop| && q < |pop| && r < |pop|
    requires Outranks(pop, first, covered, p, q) && Outranks(pop, first, covered, q, r)
    ensures Outranks(pop, first, covered, p, r)
  {
  }

  lemma InsertInOrder(pop: seq<Candidate>, first: bool, covered: set<Id>, s: seq<nat>, at: nat, p: nat)
    requires AllValid(pop, s) && at <= |s| && Valid(pop, p)
    requires forall i, j :: 0 <= i < j < |s| ==> Outranks(pop, first, covered, s[i], s[j])
    requires forall i :: 0 <= i < at ==> Outranks(pop, first, covered, s[i], p)
    requires forall i :: at <= i < |s| ==> Outranks(pop, first, covered, p, s[i])
    ensures var t := Inserted(s, at, p);
            AllValid(pop, t) && forall i, j :: 0 <= i < j < |t| ==> Outranks(pop, first, covered, t[i], t[j])
  {
    hide Outranks;
  }

  // ---------------------------------------------------------------- filling by columns

  /** The operators of the best-ranked candidate of each tier. */
  function Covered(pop: seq<Candidate>, ranked: seq<seq<nat>>): set<Id> {
    if ranked == [] then {}
    else
      var last := ranked[|ranked| - 1];
      Covered(pop, ranked[..|ranked| - 1]) +
      if last != [] && last[0] < |pop| then pop[last[0]].names else {}
  }

  /** The best tiers, each ranked by what it adds to the heads of the tiers before it. */
  ghost predicate RankedAt(pop: seq<Candidate>, tiers: seq<seq<nat>>, ranked: seq<seq<nat>>, i: nat)
    requires i < |ranked| <= |tiers|
  {
    RankedTier(pop, i == 0, Covered(pop, ranked[..i]), tiers[i], ranked[i])
  }

  ghost predicate RankedTiers(pop: seq<Candidate>, tiers: seq<seq<nat>>, ranked: seq<seq<nat>>) {
    |ranked| <= |tiers| &&
    forall i: nat {:trigger RankedAt(pop, tiers, ranked, i)} :: i < |ranked| ==> RankedAt(pop, tiers, ranked, i)
  }

  /** The first `level` columns of the tiers, and of the next column the tiers before `cut`. */
  function Upto(ranked: seq<seq<nat>>, level: nat, cut: nat): seq<nat>
    requires cut <= |ranked|
    decreases level, cut
  {
    if cut > 0 then
      Upto(ranked, level, cut - 1) + if level < |ranked[cut - 1]| then [ranked[cut - 1][level]] else []
    else if level > 0 then Upto(ranked, level - 1, |ranked|)
    else []
  }

  lemma {:induction false} UptoFirstColumn(ranked: seq<seq<nat>>, r: seq<nat>, cut: nat)
    requires cut <= |ranked|
    ensures Upto(ranked + [r], 0, cut) == Upto(ranked, 0, cut)
  {
    if cut > 0 { UptoFirstColumn(ranked, r, cut - 1); }
  }

  /** The places whose candidates are in `Upto(ranked, level, cut)`. */
  predicate Filled(ranked: seq<seq<nat>>, level: nat, cut: nat, i: nat, k: nat) {
    i < |ranked| && k < |ranked[i]| && (k < level || (k == level && i < cut))
  }

  lemma {:induction false} UptoContains(ranked: seq<seq<nat>>, level: nat, cut: nat, i: nat, k: nat)
    requires cut <= |ranked| && Filled(ranked, level, cut, i, k)
    ensures ranked[i][k] in Upto(ranked, level, cut)
    decreases level, cut
  {
    if cut > 0 {
      if i != cut - 1 || k != level { UptoContains(ranked, level, cut - 1, i, k); }
    } else {
      UptoContains(ranked, level - 1, |ranked|, i, k);
    }
  }

  lemma {:induction false} UptoPlace(ranked: seq<seq<nat>>, level: nat, cut: nat, p: nat) returns (i: nat, k: nat)
    requires cut <= |ranked| && p in Upto(ranked, level, cut)
    ensures Filled(ranked, level, cut, i, k) && ranked[i][k] == p
    decreases level, cut
  {
    if cut > 0 {
      if p in Upto(ranked, level, cut - 1) {
        i, k := UptoPlace(ranked, level, cut - 1, p);
      } else {
        i, k := cut - 1, level;
      }
    } else {
      i, k := UptoPlace(ranked, level - 1, |ranked|, p);
    }
  }

  /** No candidate stands at two places. */
  ghost predicate OnePlaceEach(ranked: seq<seq<nat>>) {
    forall i, k, j, m {:trigger ranked[i][k], ranked[j][m]} ::
      (0 <= i < |ranked| && 0 <= k < |ranked[i]| && 0 <= j < |ranked| && 0 <= m < |ranked[j]| &&
       ranked[i][k] == ranked[j][m]) ==> i == j && k == m
  }

  lemma {:induction false} UptoDistinct(ranked: seq<seq<nat>>, level: nat, cut: nat)
    requires cut <= |ranked| && OnePlaceEach(ranked)
    ensures Distinct(Upto(ranked, level, cut))
    decreases level, cut
  {
    if cut > 0 {
      UptoDistinct(ranked, level, cut - 1);
      if level < |ranked[cut - 1]| && ranked[cut - 1][level] in Upto(ranked, level, cut - 1) {
        var i, k := UptoPlace(ranked, level, cut - 1, ranked[cut - 1][level]);
        assert false;
      }
    } else if level > 0 {
      UptoDistinct(ranked, level - 1, |ranked|);
    }
  }

  // ---------------------------------------------------------------- what ranking keeps

  lemma RankedEntry(pop: seq<Candidate>, tiers: seq<seq<nat>>, ranked: seq<seq<nat>>, i: nat)
    requires Tiers(pop, tiers) && RankedTiers(pop, tiers, ranked) && i < |ranked|
    ensures tiers[i] != [] && AllValid(pop, tiers[i]) && |ranked[i]| == |tiers[i]| && AllValid(pop, ranked[i])
    ensures forall k :: 0 <= k < |ranked[i]| ==> Score(pop, ranked[i][k]) == Score(pop, tiers[i][0])
    ensures Distinct(ranked[i])
  {
    assert TierAt(pop, tiers, i) && RankedAt(pop, tiers, ranked, i);
    assert |multiset(ranked[i])| == |multiset(tiers[i])|;
    forall k: nat | k < |ranked[i]| ensures Score(pop, ranked[i][k]) == Score(pop, tiers[i][0]) {
      SameElements(ranked[i], tiers[i], k);
    }
    forall j, k | 0 <= j < k < |ranked[i]| ensures ranked[i][j] != ranked[i][k] {
      assert Outranks(pop, i == 0, Covered(pop, ranked[..i]), ranked[i][j], ranked[i][k]);
    }
  }

  lemma TiersDiffer(pop: seq<Candidate>, tiers: seq<seq<nat>>, i: nat, j: nat)
    requires Tiers(pop, tiers) && i < j < |tiers|
    ensures tiers[i] != [] && tiers[j] != [] && Valid(pop, tiers[i][0]) && Valid(pop, tiers[j][0])
    ensures Score(pop, tiers[i][0]) < Score(pop, tiers[j][0])
  {
    assert TierAt(pop, tiers, i) && TierAt(pop, tiers, j);
  }

  lemma RankedPlaces(pop: seq<Candidate>, tiers: seq<seq<nat>>, ranked: seq<seq<nat>>)
    requires Tiers(pop, tiers) && RankedTiers(pop, tiers, ranked)
    ensures OnePlaceEach(ranked)
  {
    forall i: nat, k: nat, j: nat, m: nat |
      i < |ranked| && k < |ranked[i]| && j < |ranked| && m < |ranked[j]| && ranked[i][k] == ranked[j][m]
      ensures i == j && k == m
    {
      RankedEntry(pop, tiers, ranked, i);
      RankedEntry(pop, tiers, ranked, j);
      if i < j { TiersDiffer(pop, tiers, i, j); }
      if j < i { TiersDiffer(pop, tiers, j, i); }
    }
  }

  lemma UptoValid(pop: seq<Candidate>, tiers: seq<seq<nat>>, ranked: seq<seq<nat>>, level: nat, cut: nat)
    requires Tiers(pop, tiers) && RankedTiers(pop, tiers, ranked) && cut <= |ranked|
    ensures AllValid(pop, Upto(ranked, level, cut)) && Distinct(Upto(ranked, level, cut))
  {
    RankedPlaces(pop, tiers, ranked);
    UptoDistinct(ranked, level, cut);
    forall n | 0 <= n < |Upto(ranked, level, cut)| ensures Valid(pop, Upto(ranked, level, cut)[n]) {
      var i, k := UptoPlace(ranked, level, cut, Upto(ranked, level, cut)[n]);
      RankedEntry(pop, tiers, ranked, i);
    }
  }

  lemma {:induction false} DistinctFits(s: seq<nat>, t: seq<nat>)
    requires Distinct(s) && forall k :: 0 <= k < |s| ==> s[k] in t
    ensures |s| <= |t|
    decreases |s|
  {
    if s != [] {
      var n := |s| - 1;
      var at :| 0 <= at < |t| && t[at] == s[n];
      var rest := t[..at] + t[at + 1..];
      forall k | 0 <= k < n ensures s[..n][k] in rest {
        var m :| 0 <= m < |t| && t[m] == s[k];
        assert t[m] == if m < at then rest[m] else rest[m - 1];
      }
      DistinctFits(s[..n], rest);
    }
  }

  /** Once every tier is used up, every candidate with an objective is picked. */
  lemma ExhaustedPicksAll(pop: seq<Candidate>, tiers: seq<seq<nat>>, ranked: seq<seq<nat>>, level: nat)
    requires Tiers(pop, tiers) && RankedTiers(pop, tiers, ranked) && |ranked| == |tiers|
    requires forall i :: 0 <= i < |ranked| ==> |ranked[i]| <= level
    ensures |ValidPositions(pop)| <= |Upto(ranked, level, 0)|
  {
    var valid := ValidPositions(pop);
    forall n | 0 <= n < |valid| ensures valid[n] in Upto(ranked, level, 0) {
      assert Valid(pop, valid[n]);
      var i: nat :| InTier(tiers, valid[n], i);
      assert RankedAt(pop, tiers, ranked, i);
      assert valid[n] in multiset(tiers[i]);
      var k :| 0 <= k < |ranked[i]| && ranked[i][k] == valid[n];
      UptoContains(ranked, level, 0, i, k);
    }
    DistinctFits(valid, Upto(ranked, level, 0));
  }

  // ---------------------------------------------------------------- early selection

  ghost predicate UsedTo(used: set<nat>, n: nat) {
    forall k: nat {:trigger k in used} :: k in used <==> k < n
  }

  /** How many of tier `i` are picked. */
  function FillOf(ranked: seq<seq<nat>>, level: nat, cut: nat, i: nat): nat
    requires i < |ranked|
  {
    Min(|ranked[i]|, if i < cut then level + 1 else level)
  }

  ghost predicate UsesMatch(ranked: seq<seq<nat>>, used: seq<set<nat>>, level: nat, cut: nat) {
    |used| == |ranked| &&
    forall i: nat {:trigger used[i]} :: i < |ranked| ==> UsedTo(used[i], FillOf(ranked, level, cut, i))
  }

  lemma NothingRanked(pop: seq<Candidate>, tiers: seq<seq<nat>>)
    ensures RankedTiers(pop, tiers, []) && Covered(pop, []) == {}
  {
  }

  lemma TierFacts(pop: seq<Candidate>, tiers: seq<seq<nat>>, i: nat)
    requires Tiers(pop, tiers) && i < |tiers|
    ensures tiers[i] != [] && AllValid(pop, tiers[i]) && Increasing(tiers[i])
  {
    assert TierAt(pop, tiers, i);
  }

  lemma RankedLength(pop: seq<Candidate>, first: bool, covered: set<Id>, tier: seq<nat>, ranked: seq<nat>)
    requires RankedTier(pop, first, covered, tier, ranked)
    ensures |ranked| == |tier| && AllValid(pop, ranked)
  {
    assert |multiset(ranked)| == |multiset(tier)|;
  }

  lemma NextRanked(pop: seq<Candidate>, tiers: seq<seq<nat>>, ranked: seq<seq<nat>>, r: seq<nat>)
    requires RankedTiers(pop, tiers, ranked) && |ranked| < |tiers|
    requires RankedTier(pop, ranked == [], Covered(pop, ranked), tiers[|ranked|], r) && r != []
    ensures RankedTiers(pop, tiers, ranked + [r])
    ensures Covered(pop, ranked + [r]) == Covered(pop, ranked) + pop[r[0]].names
  {
    var next := ranked + [r];
    assert next[..|next| - 1] == ranked;
    forall i: nat | i < |next| ensures RankedAt(pop, tiers, next, i) {
      if i < |ranked| {
        assert RankedAt(pop, tiers, ranked, i);
        assert next[..i] == ranked[..i];
      }
    }
  }

  lemma FirstUse(ranked: seq<seq<nat>>, used: seq<set<nat>>, r: seq<nat>)
    requires UsesMatch(ranked, used, 0, |ranked|) && r != []
    ensures UsesMatch(ranked + [r], used + [{0}], 0, |ranked| + 1)
  {
    var ranked', used' := ranked + [r], used + [{0}];
    forall i: nat | i < |ranked'| ensures UsedTo(used'[i], FillOf(ranked', 0, |ranked'|, i)) {
      if i < |ranked| { assert UsedTo(used[i], FillOf(ranked, 0, |ranked|, i)); }
    }
  }

  lemma NextColumn(ranked: seq<seq<nat>>, used: seq<set<nat>>, level: nat)
    requires UsesMatch(ranked, used, level, |ranked|)
    ensures UsesMatch(ranked, used, level + 1, 0)
  {
    forall i: nat | i < |ranked| ensures UsedTo(used[i], FillOf(ranked, level + 1, 0, i)) {
      assert UsedTo(used[i], FillOf(ranked, level, |ranked|, i));
    }
  }

  /** The first unused index of a tier is `level`, and using it moves the cut past the tier. */
  lemma UseNext(ranked: seq<seq<nat>>, used: seq<set<nat>>, level: nat, cut: nat)
    requires UsesMatch(ranked, used, level, cut) && cut < |ranked|
    ensures level < |ranked[cut]| ==> UsesMatch(ranked, used[cut := used[cut] + {level}], level, cut + 1)
    ensures level >= |ranked[cut]| ==> UsesMatch(ranked, used, level, cut + 1)
  {
    var used' := if level < |ranked[cut]| then used[cut := used[cut] + {level}] else used;
    forall i: nat | i < |ranked| ensures UsedTo(used'[i], FillOf(ranked, level, cut + 1, i)) {
      assert UsedTo(used[i], FillOf(ranked, level, cut, i));
    }
  }

  /**
   * Between all and none: one candidate from each of the best tiers, then round after round
   * one more from every tier that has any left. The result is exactly the ranked tiers read
   * column by column, cut off at `size`.
   */
  method SelectEarly(pop: seq<Candidate>, size: int)
    returns (picked: seq<nat>, ghost tiers: seq<seq<nat>>, ghost ranked: seq<seq<nat>>, ghost level: nat, ghost cut: nat)
    ensures AllValid(pop, picked) && Distinct(picked) && |picked| == Min(Max(size, 0), |ValidPositions(pop)|)
    ensures size >= |ValidPositions(pop)| ==> picked == ValidPositions(pop)
    ensures 0 < size < |ValidPositions(pop)| ==>
              FilledSelection(pop, tiers, ranked, level, cut, size, picked)
  {
    hide Tiers;
    hide RankedTiers;
    hide Covered;
    tiers, ranked, level, cut := [], [], 0, 0;
    var valid := ValidPositions(pop);
    if size <= 0 || valid == [] { return [], tiers, ranked, level, cut; }
    if size >= |valid| { return valid, tiers, ranked, level, cut; }
    var groups := FitnessTiers(pop);
    tiers := groups;
    picked := [];
    var covered := {};
    var processed: seq<seq<nat>> := [];
    var used: seq<set<nat>> := [];
    NothingRanked(pop, groups);
    while |processed| < |groups| && |picked| < size
      invariant |processed| <= |groups| && |picked| == |processed| <= size
      invariant RankedTiers(pop, groups, processed) && picked == Upto(processed, 0, |processed|)
      invariant covered == Covered(pop, processed) && UsesMatch(processed, used, 0, |processed|)
      decreases |groups| - |processed|
    {
      TierFacts(pop, groups, |processed|);
      var pairs := RankTier(pop, processed == [], covered, groups[|processed|]);
      RankedLength(pop, processed == [], covered, groups[|processed|], pairs);
      UptoFirstColumn(processed, pairs, |processed|);
      NextRanked(pop, groups, processed, pairs);
      FirstUse(processed, used, pairs);
      picked := picked + [pairs[0]];
      covered := covered + pop[pairs[0]].names;
      processed := processed + [pairs];
      used := used + [{0}];
    }
    level, cut := 0, |processed|;
    while |picked| < size
      invariant cut <= |processed| && UsesMatch(processed, used, level, cut) && |used| == |processed|
      invariant |picked| <= size && picked == Upto(processed, level, cut)
      invariant |picked| < size ==> cut == |processed|
      invariant |processed| < |groups| ==> level == 0 && cut == |processed| && |picked| == size
      decreases size - |picked|
    {
      var found := false;
      level, cut := level + 1, 0;
      NextColumn(processed, used, level - 1);
      ghost var before := picked;
      var tier := 0;
      while tier < |processed| && |picked| < size
        invariant cut == tier <= |processed| && UsesMatch(processed, used, level, cut) && |used| == |processed|
        invariant |before| <= |picked| <= size && picked == Upto(processed, level, cut)
        invariant found ==> |picked| > |before|
        invariant !found ==> picked == before && forall i :: 0 <= i < cut ==> |processed[i]| <= level
        decreases |processed| - tier
      {
        var index := 0;
        assert UsedTo(used[tier], FillOf(processed, level, cut, tier));
        while index < |processed[tier]| && index in used[tier]
          invariant index <= FillOf(processed, level, cut, tier)
        {
          index := index + 1;
        }
        UseNext(processed, used, level, cut);
        if index < |processed[tier]| {
          picked := picked + [processed[tier][index]];
          used := used[tier := used[tier] + {index}];
          found := true;
        }
        tier := tier + 1;
        cut := cut + 1;
      }
      if !found {
        ExhaustedPicksAll(pop, groups, processed, level);
        break;
      }
    }
    UptoValid(pop, groups, processed, level, cut);
    ranked := processed;
  }

  // ---------------------------------------------------------------- what early selection gives

  /** How many of the listed candidates have objective `v`. */
  function CountOf(pop: seq<Candidate>, s: seq<nat>, v: real): nat
    requires AllValid(pop, s)
  {
    if s == [] then 0
    else CountOf(pop, s[..|s| - 1], v) + if Score(pop, s[|s| - 1]) == v then 1 else 0
  }

  lemma CountNext(pop: seq<Candidate>, s: seq<nat>, p: nat, v: real)
    requires AllValid(pop, s) && Valid(pop, p)
    ensures CountOf(pop, s + [p], v) == CountOf(pop, s, v) + if Score(pop, p) == v then 1 else 0
  {
    assert (s + [p])[..|s|] == s;
  }

  function TierValue(pop: seq<Candidate>, tiers: seq<seq<nat>>, i: nat): real
    requires i < |tiers| && tiers[i] != [] && Valid(pop, tiers[i][0])
  {
    Score(pop, tiers[i][0])
  }

  /** Reading by columns up to a cut takes exactly the fill from each ranked tier, none from others. */
  lemma {:induction false} FillCount(
    pop: seq<Candidate>, tiers: seq<seq<nat>>, ranked: seq<seq<nat>>, level: nat, cut: nat, i: nat)
    requires Tiers(pop, tiers) && RankedTiers(pop, tiers, ranked) && cut <= |ranked| && i < |tiers|
    ensures tiers[i] != [] && Valid(pop, tiers[i][0]) && AllValid(pop, Upto(ranked, level, cut))
    ensures CountOf(pop, Upto(ranked, level, cut), TierValue(pop, tiers, i)) ==
            if i < |ranked| then FillOf(ranked, level, cut, i) else 0
    decreases level, cut
  {
    assert TierAt(pop, tiers, i);
    UptoValid(pop, tiers, ranked, level, cut);
    if cut > 0 {
      var t := cut - 1;
      FillCount(pop, tiers, ranked, level, t, i);
      RankedEntry(pop, tiers, ranked, t);
      if level < |ranked[t]| {
        CountNext(pop, Upto(ranked, level, t), ranked[t][level], TierValue(pop, tiers, i));
      } else {
        assert Upto(ranked, level, cut) == Upto(ranked, level, t);
      }
      if i < t { TiersDiffer(pop, tiers, i, t); }
      if t < i { TiersDiffer(pop, tiers, t, i); }
    } else if level > 0 {
      FillCount(pop, tiers, ranked, level - 1, |ranked|, i);
    }
  }

  /** What `SelectEarly` promises when it takes some candidates but not all. */
  ghost predicate FilledSelection(
    pop: seq<Candidate>, tiers: seq<seq<nat>>, ranked: seq<seq<nat>>, level: nat, cut: nat, size: nat, picked: seq<nat>)
  {
    && 0 < size && Tiers(pop, tiers) && RankedTiers(pop, tiers, ranked) && |ranked| == Min(size, |tiers|)
    && cut <= |ranked| && (|ranked| < |tiers| ==> level == 0 && cut == |ranked|)
    && picked == Upto(ranked, level, cut) && |picked| == size
  }

  /**
   * The water level: of two tiers the better one is filled at least as far as the other, and
   * at most one further, as long as their members last.
   */
  lemma WaterLevel(
    pop: seq<Candidate>, tiers: seq<seq<nat>>, ranked: seq<seq<nat>>, level: nat, cut: nat, size: nat,
    picked: seq<nat>, i: nat, j: nat)
    requires FilledSelection(pop, tiers, ranked, level, cut, size, picked) && i < j < |tiers|
    ensures tiers[i] != [] && Valid(pop, tiers[i][0]) && tiers[j] != [] && Valid(pop, tiers[j][0])
    ensures AllValid(pop, picked)
    ensures var better, worse := CountOf(pop, picked, TierValue(pop, tiers, i)), CountOf(pop, picked, TierValue(pop, tiers, j));
            && better >= Min(|tiers[i]|, worse)
            && worse >= Min(|tiers[j]|, better - 1)
  {
    FillCount(pop, tiers, ranked, level, cut, i);
    FillCount(pop, tiers, ranked, level, cut, j);
    if i < |ranked| { RankedEntry(pop, tiers, ranked, i); }
    if j < |ranked| { RankedEntry(pop, tiers, ranked, j); }
  }

  lemma {:induction false} FirstColumn(
    pop: seq<Candidate>, tiers: seq<seq<nat>>, ranked: seq<seq<nat>>, cut: nat)
    requires Tiers(pop, tiers) && RankedTiers(pop, tiers, ranked) && cut <= |ranked|
    ensures |Upto(ranked, 0, cut)| == cut
    ensures forall i :: 0 <= i < cut ==> ranked[i] != [] && Upto(ranked, 0, cut)[i] == ranked[i][0]
  {
    if cut > 0 {
      FirstColumn(pop, tiers, ranked, cut - 1);
      RankedEntry(pop, tiers, ranked, cut - 1);
    }
  }

  lemma {:induction false} UptoExtends(ranked: seq<seq<nat>>, level: nat, cut: nat)
    requires cut <= |ranked| && level >= 1
    ensures Upto(ranked, 0, |ranked|) <= Upto(ranked, level, cut)
    decreases level, cut
  {
    if cut > 0 {
      UptoExtends(ranked, level, cut - 1);
    } else if level > 1 {
      UptoExtends(ranked, level - 1, |ranked|);
    }
  }

  /** The first picks are one candidate of each of the best `min(size, tiers)` tiers, in order. */
  lemma BestTiersFirst(
    pop: seq<Candidate>, tiers: seq<seq<nat>>, ranked: seq<seq<nat>>, level: nat, cut: nat, size: nat,
    picked: seq<nat>, i: nat)
    requires FilledSelection(pop, tiers, ranked, level, cut, size, picked) && i < Min(size, |tiers|)
    ensures i < |picked| && picked[i] in tiers[i]
  {
    FirstColumn(pop, tiers, ranked, |ranked|);
    FirstColumn(pop, tiers, ranked, cut);
    if level >= 1 { UptoExtends(ranked, level, cut); }
    assert RankedAt(pop, tiers, ranked, i);
    RankedEntry(pop, tiers, ranked, i);
    SameElements(ranked[i], tiers[i], 0);
  }

  // ---------------------------------------------------------------- late selection

  /** Lower objective first, then more operators, then population order. */
  predicate LatePrecedes(pop: seq<Candidate>, p: nat, q: nat)
    requires Valid(pop, p) && Valid(pop, q)
  {
    Score(pop, p) < Score(pop, q) ||
    (Score(pop, p) == Score(pop, q) &&
      (|pop[p].names| > |pop[q].names| || (|pop[p].names| == |pop[q].names| && p < q)))
  }

  ghost predicate LateSorted(pop: seq<Candidate>, s: seq<nat>, sorted: seq<nat>) {
    && AllValid(pop, sorted) && multiset(sorted) == multiset(s)
    && forall i, j :: 0 <= i < j < |sorted| ==> LatePrecedes(pop, sorted[i], sorted[j])
  }

  lemma InsertLate(pop: seq<Candidate>, s: seq<nat>, sorted: seq<nat>, at: nat, p: nat)
    requires LateSorted(pop, s, sorted) && at <= |sorted| && Valid(pop, p)
    requires forall i :: 0 <= i < at ==> LatePrecedes(pop, sorted[i], p)
    requires forall i :: at <= i < |sorted| ==> LatePrecedes(pop, p, sorted[i])
    ensures LateSorted(pop, s + [p], Inserted(sorted, at, p))
  {
    hide LatePrecedes;
    InsertOne(sorted, at, p);
    var t := Inserted(sorted, at, p);
    assert AllValid(pop, t);
  }

  lemma LateChain(pop: seq<Candidate>, p: nat, q: nat, r: nat)
    requires Valid(pop, p) && Valid(pop, q) && Valid(pop, r)
    requires LatePrecedes(pop, p, q) && LatePrecedes(pop, q, r)
    ensures LatePrecedes(pop, p, r)
  {
  }

  lemma LateTotal(pop: seq<Candidate>, p: nat, q: nat)
    requires Valid(pop, p) && Valid(pop, q) && p != q
    ensures LatePrecedes(pop, p, q) || LatePrecedes(pop, q, p)
  {
  }

  lemma NothingLate(pop: seq<Candidate>, valid: seq<nat>)
    ensures LateSorted(pop, valid[..0], [])
  {
    assert valid[..0] == [];
  }

  /** The sorted part holds positions before the next one. */
  lemma LateFacts(pop: seq<Candidate>, valid: seq<nat>, n: nat, line: seq<nat>)
    requires n < |valid| && AllValid(pop, valid) && Increasing(valid) && LateSorted(pop, valid[..n], line)
    ensures AllValid(pop, line) && forall i :: 0 <= i < |line| ==> line[i] != valid[n]
    ensures forall i, j :: 0 <= i < j < |line| ==> LatePrecedes(pop, line[i], line[j])
  {
    hide LatePrecedes;
    forall i: nat | i < |line| ensures line[i] != valid[n] { SameElements(line, valid[..n], i); }
  }

  lemma LateIsDistinct(pop: seq<Candidate>, valid: seq<nat>, line: seq<nat>)
    requires LateSorted(pop, valid, line)
    ensures AllValid(pop, line) && Distinct(line) && |line| == |valid|
  {
    assert |multiset(line)| == |multiset(valid)|;
    forall i, j | 0 <= i < j < |line| ensures line[i] != line[j] {
      assert LatePrecedes(pop, line[i], line[j]);
    }
  }

  /** A stable insertion sort. */
  method SortLate(pop: seq<Candidate>, valid: seq<nat>) returns (line: seq<nat>)
    requires AllValid(pop, valid) && Increasing(valid)
    ensures LateSorted(pop, valid, line)
  {
    hide LatePrecedes;
    hide LateSorted;
    hide Increasing;
    line := [];
    NothingLate(pop, valid);
    for n := 0 to |valid|
      invariant LateSorted(pop, valid[..n], line)
    {
      LateFacts(pop, valid, n, line);
      var at := |line|;
      while 0 < at && !LatePrecedes(pop, line[at - 1], valid[n])
        invariant 0 <= at <= |line|
        invariant forall i :: at <= i < |line| ==> LatePrecedes(pop, valid[n], line[i])
      {
        LateTotal(pop, line[at - 1], valid[n]);
        at := at - 1;
      }
      BeforeAt(pop, line, at, valid[n]);
      InsertLate(pop, valid[..n], line, at, valid[n]);
      assert valid[..n + 1] == valid[..n] + [valid[n]];
      line := Inserted(line, at, valid[n]);
    }
    assert valid[..|valid|] == valid;
  }

  lemma BeforeAt(pop: seq<Candidate>, line: seq<nat>, at: nat, p: nat)
    requires AllValid(pop, line) && Valid(pop, p) && at <= |line|
    requires forall i, j :: 0 <= i < j < |line| ==> LatePrecedes(pop, line[i], line[j])
    requires at > 0 ==> LatePrecedes(pop, line[at - 1], p)
    ensures forall i :: 0 <= i < at ==> LatePrecedes(pop, line[i], p)
  {
    hide LatePrecedes;
    forall i | 0 <= i < at ensures LatePrecedes(pop, line[i], p) {
      if i < at - 1 { LateChain(pop, line[i], line[at - 1], p); }
    }
  }

  /** The `size` first candidates of the stable order, or all of them unsorted if they fit. */
  method SelectLate(pop: seq<Candidate>, size: int) returns (picked: seq<nat>, ghost sorted: seq<nat>)
    ensures AllValid(pop, picked) && Distinct(picked) && |picked| == Min(Max(size, 0), |ValidPositions(pop)|)
    ensures size >= |ValidPositions(pop)| ==> picked == ValidPositions(pop)
    ensures 0 < size < |ValidPositions(pop)| ==>
              LateSorted(pop, ValidPositions(pop), sorted) && size <= |sorted| && picked == sorted[..size]
  {
    hide LateSorted;
    sorted := [];
    var valid := ValidPositions(pop);
    if size <= 0 || valid == [] { return [], sorted; }
    if |valid| <= size { return valid, sorted; }
    var line := SortLate(pop, valid);
    LateIsDistinct(pop, valid, line);
    sorted := line;
    picked := line[..size];
  }

  // ---------------------------------------------------------------- elitism of one selection

  /** `picked` holds a candidate of the least objective of the population. */
  ghost predicate KeepsBest(pop: seq<Candidate>, picked: seq<nat>) {
    AllValid(pop, picked) &&
    exists k :: 0 <= k < |picked| && forall p :: Valid(pop, p) ==> Score(pop, picked[k]) <= Score(pop, p)
  }

  lemma FirstTierIsBest(pop: seq<Candidate>, tiers: seq<seq<nat>>, best: nat, p: nat)
    requires Tiers(pop, tiers) && tiers != [] && best in tiers[0] && Valid(pop, p)
    ensures Valid(pop, best) && Score(pop, best) <= Score(pop, p)
  {
    var i: nat :| InTier(tiers, p, i);
    assert TierAt(pop, tiers, 0) && TierAt(pop, tiers, i);
    if i > 0 { TiersDiffer(pop, tiers, 0, i); }
  }

  lemma EarlyKeepsBest(
    pop: seq<Candidate>, tiers: seq<seq<nat>>, ranked: seq<seq<nat>>, level: nat, cut: nat, size: nat, picked: seq<nat>)
    requires FilledSelection(pop, tiers, ranked, level, cut, size, picked) && ValidPositions(pop) != []
    ensures KeepsBest(pop, picked)
  {
    var p := ValidPositions(pop)[0];
    assert Valid(pop, p);
    var i: nat :| InTier(tiers, p, i);
    BestTiersFirst(pop, tiers, ranked, level, cut, size, picked, 0);
    UptoValid(pop, tiers, ranked, level, cut);
    forall q | Valid(pop, q) ensures Score(pop, picked[0]) <= Score(pop, q) {
      FirstTierIsBest(pop, tiers, picked[0], q);
    }
  }

  lemma LateKeepsBest(pop: seq<Candidate>, sorted: seq<nat>, size: nat)
    requires LateSorted(pop, ValidPositions(pop), sorted) && 0 < size <= |sorted|
    ensures KeepsBest(pop, sorted[..size])
  {
    var picked := sorted[..size];
    forall q | Valid(pop, q) ensures Score(pop, picked[0]) <= Score(pop, q) {
      assert q in ValidPositions(pop) && q in multiset(ValidPositions(pop));
      var k :| 0 <= k < |sorted| && sorted[k] == q;
      assert k > 0 ==> LatePrecedes(pop, sorted[0], sorted[k]);
    }
  }

  lemma {:induction false} LeastExists(pop: seq<Candidate>, s: seq<nat>) returns (k: nat)
    requires AllValid(pop, s) && s != []
    ensures k < |s| && forall i :: 0 <= i < |s| ==> Score(pop, s[k]) <= Score(pop, s[i])
    decreases |s|
  {
    k := |s| - 1;
    if |s| > 1 {
      var m := LeastExists(pop, s[..k]);
      if Score(pop, s[m]) <= Score(pop, s[k]) { k := m; }
    }
  }

  lemma AllKeepBest(pop: seq<Candidate>)
    requires ValidPositions(pop) != []
    ensures KeepsBest(pop, ValidPositions(pop))
  {
    var valid := ValidPositions(pop);
    var k := LeastExists(pop, valid);
    forall q | Valid(pop, q) ensures Score(pop, valid[k]) <= Score(pop, q) {
      assert q in valid;
    }
  }
}
