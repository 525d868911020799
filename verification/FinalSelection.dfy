/**
 * Choosing the final heuristic with a model that may answer anything. The objective of the
 * choice is the exact minimum of all qualified candidates whatever the model does; the model
 * only decides among a bounded list of equals.
 */
module FinalSelection {
  import opened Common

  datatype Objective = Finite(value: real) | NotFinite

  /** `lines` are the lines of the code; `used` is missing for older evaluations. */
  datatype Candidate = Candidate(
    id: Id, lines: seq<string>, objective: Objective, trajectory: nat, budget: int, used: Option<int>)

  datatype Mode = Reference | Engineering

  const MIN_EFFECTIVE_LINES := 50
  const REFERENCE_BUDGET := 20
  const MAX_TIED := 10

  // ---------------------------------------------------------------- qualification

  /** The white space of Unicode, as `str.strip` removes it. */
  predicate IsBlank(c: char) {
    var code := c as int;
    || 0x09 <= code <= 0x0D || 0x1C <= code <= 0x20 || code == 0x85 || code == 0xA0
    || code == 0x1680 || 0x2000 <= code <= 0x200A || code == 0x2028 || code == 0x2029
    || code == 0x202F || code == 0x205F || code == 0x3000
  }

  /** Something other than blanks stands before the first `#`. */
  predicate IsEffective(line: string) {
    exists k :: 0 <= k < |line| && !IsBlank(line[k]) && forall j :: 0 <= j <= k ==> line[j] != '#'
  }

  function EffectiveLines(lines: seq<string>): (n: nat)
    ensures n <= |lines|
  {
    if lines == [] then 0
    else EffectiveLines(lines[..|lines| - 1]) + if IsEffective(lines[|lines| - 1]) then 1 else 0
  }

  method StandsBeforeComment(line: string) returns (found: bool)
    ensures found <==> IsEffective(line)
  {
    var k := 0;
    while k < |line| && line[k] != '#'
      invariant 0 <= k <= |line| && forall j :: 0 <= j < k ==> IsBlank(line[j]) && line[j] != '#'
    {
      if !IsBlank(line[k]) { return true; }
      k := k + 1;
    }
    found := false;
  }

  method CountEffectiveLines(lines: seq<string>) returns (n: nat)
    ensures n == EffectiveLines(lines)
  {
    hide IsEffective;
    n := 0;
    for i := 0 to |lines|
      invariant n == EffectiveLines(lines[..i])
    {
      assert lines[..i + 1][..i] == lines[..i];
      var found := StandsBeforeComment(lines[i]);
      if found { n := n + 1; }
    }
    assert lines[..|lines|] == lines;
  }

  predicate CompleteEvaluation(mode: Mode, c: Candidate) {
    match mode
    case Reference => c.trajectory == REFERENCE_BUDGET
    case Engineering => c.used == Some(c.budget) || c.trajectory == c.budget
  }

  predicate Qualifies(mode: Mode, c: Candidate) {
    EffectiveLines(c.lines) >= MIN_EFFECTIVE_LINES && CompleteEvaluation(mode, c) && c.objective.Finite?
  }

  /**
   * Qualified are candidates with at least fifty effective lines, a finite objective and a
   * complete evaluation: twenty points in reference mode; the whole budget used, or a point
   * for each of it, otherwise.
   */
  lemma QualifiesIff(mode: Mode, c: Candidate)
    ensures Qualifies(mode, c) <==>
            && |EffectiveOnes(c.lines)| >= 50 && c.objective.Finite?
            && (mode.Reference? ==> c.trajectory == 20)
            && (mode.Engineering? ==> c.used == Some(c.budget) || c.trajectory == c.budget)
  {
    EffectiveCount(c.lines);
  }

  /** A line counts if some character before its first `#` is not white space. */
  ghost function EffectiveOnes(lines: seq<string>): set<nat> {
    set i: nat | i < |lines| && SaysSomething(lines[i])
  }

  predicate SaysSomething(line: string) {
    exists k :: 0 <= k < |line| && !IsBlank(line[k]) && '#' !in line[..k + 1]
  }

  lemma {:induction false} EffectiveCount(lines: seq<string>)
    ensures EffectiveLines(lines) == |EffectiveOnes(lines)|
  {
    if lines != [] {
      var n := |lines| - 1;
      EffectiveCount(lines[..n]);
      SaysIff(lines[n]);
      var before := EffectiveOnes(lines[..n]);
      assert forall i :: 0 <= i < n ==> lines[..n][i] == lines[i];
      assert EffectiveOnes(lines) == if SaysSomething(lines[n]) then before + {n} else before;
    }
  }

  lemma SaysIff(line: string)
    ensures IsEffective(line) <==> SaysSomething(line)
  {
    if k :| 0 <= k < |line| && !IsBlank(line[k]) && forall j :: 0 <= j <= k ==> line[j] != '#' {
      assert '#' !in line[..k + 1];
    }
    if k :| 0 <= k < |line| && !IsBlank(line[k]) && '#' !in line[..k + 1] {
      forall j | 0 <= j <= k ensures line[j] != '#' { assert line[..k + 1][j] == line[j]; }
    }
  }

  predicate DistinctIds(s: seq<Candidate>) {
    forall i, j :: 0 <= i < j < |s| ==> s[i].id != s[j].id
  }

  function Qualified(mode: Mode, s: seq<Candidate>): (q: seq<Candidate>)
    ensures forall c :: c in q <==> c in s && Qualifies(mode, c)
  {
    if s == [] then []
    else
      var last := s[|s| - 1];
      Qualified(mode, s[..|s| - 1]) + if Qualifies(mode, last) then [last] else []
  }

  // ---------------------------------------------------------------- ordering

  datatype Order = ById | ByObjective | ByObjectiveThenId

  predicate AllFinite(s: seq<Candidate>) {
    forall k :: 0 <= k < |s| ==> s[k].objective.Finite?
  }

  predicate Less(order: Order, a: Candidate, b: Candidate)
    requires a.objective.Finite? && b.objective.Finite?
  {
    match order
    case ById => a.id < b.id
    case ByObjective => a.objective.value < b.objective.value
    case ByObjectiveThenId =>
      a.objective.value < b.objective.value || (a.objective.value == b.objective.value && a.id < b.id)
  }

  predicate Sorted(order: Order, s: seq<Candidate>) {
    AllFinite(s) && forall i, j :: 0 <= i < j < |s| ==> !Less(order, s[j], s[i])
  }

  /** The candidates of one objective, in order. */
  function AtObjective(s: seq<Candidate>, v: real): (t: seq<Candidate>)
    ensures forall c :: c in t <==> c in s && c.objective == Finite(v)
  {
    if s == [] then []
    else
      var last := s[|s| - 1];
      AtObjective(s[..|s| - 1], v) + if last.objective == Finite(v) then [last] else []
  }

  lemma {:induction false} AtObjectiveSplits(a: seq<Candidate>, b: seq<Candidate>, v: real)
    ensures AtObjective(a + b, v) == AtObjective(a, v) + AtObjective(b, v)
    decreases |b|
  {
    if b == [] {
      assert a + b == a;
    } else {
      assert (a + b)[..|a + b| - 1] == a + b[..|b| - 1];
      AtObjectiveSplits(a, b[..|b| - 1], v);
    }
  }

  /** Sorted, the same candidates, and equal objectives in their old order. */
  ghost predicate StablySorted(order: Order, s: seq<Candidate>, sorted: seq<Candidate>) {
    && Sorted(order, sorted) && multiset(sorted) == multiset(s)
    && (order.ByObjective? ==> forall v :: AtObjective(sorted, v) == AtObjective(s, v))
  }

  lemma InsertSorted(order: Order, s: seq<Candidate>, at: nat, c: Candidate)
    requires Sorted(order, s) && at <= |s| && c.objective.Finite?
    requires forall i :: 0 <= i < at ==> !Less(order, c, s[i])
    requires forall i :: at <= i < |s| ==> Less(order, c, s[i])
    ensures Sorted(order, Inserted(s, at, c))
  {
  }

  lemma {:induction false} NoneAt(s: seq<Candidate>, v: real)
    requires forall k :: 0 <= k < |s| ==> s[k].objective != Finite(v)
    ensures AtObjective(s, v) == []
  {
    if s != [] { NoneAt(s[..|s| - 1], v); }
  }

  lemma InsertStable(s: seq<Candidate>, at: nat, c: Candidate, v: real)
    requires at <= |s| && AllFinite(s) && c.objective.Finite?
    requires forall i :: at <= i < |s| ==> c.objective.value < s[i].objective.value
    ensures AtObjective(Inserted(s, at, c), v) == AtObjective(s, v) + AtObjective([c], v)
  {
    hide AllFinite;
    hide AtObjective;
    EitherEmpty(s, at, c, v);
    InsertBetween(s[..at], c, s[at..], v);
    assert Inserted(s, at, c) == s[..at] + [c] + s[at..];
    assert s == s[..at] + s[at..];
  }

  lemma InsertBetween(p: seq<Candidate>, c: Candidate, q: seq<Candidate>, v: real)
    requires AtObjective([c], v) == [] || AtObjective(q, v) == []
    ensures AtObjective(p + [c] + q, v) == AtObjective(p + q, v) + AtObjective([c], v)
  {
    hide AtObjective;
    AtObjectiveSplits(p + [c], q, v);
    AtObjectiveSplits(p, [c], v);
    AtObjectiveSplits(p, q, v);
  }

  lemma EitherEmpty(s: seq<Candidate>, at: nat, c: Candidate, v: real)
    requires at <= |s| && AllFinite(s) && c.objective.Finite?
    requires forall i :: at <= i < |s| ==> c.objective.value < s[i].objective.value
    ensures AtObjective([c], v) == [] || AtObjective(s[at..], v) == []
  {
    if c.objective.value == v { NoneAt(s[at..], v); } else { NoneAt([c], v); }
  }

  lemma InsertKeeps(order: Order, s: seq<Candidate>, n: nat, sorted: seq<Candidate>, at: nat)
    requires n < |s| && AllFinite(s) && StablySorted(order, s[..n], sorted) && at <= |sorted|
    requires forall i :: 0 <= i < at ==> !Less(order, s[n], sorted[i])
    requires forall i :: at <= i < |sorted| ==> Less(order, s[n], sorted[i])
    ensures StablySorted(order, s[..n + 1], Inserted(sorted, at, s[n]))
  {
    assert s[..n + 1] == s[..n] + [s[n]];
    InsertSorted(order, sorted, at, s[n]);
    assert sorted == sorted[..at] + sorted[at..];
    if order.ByObjective? {
      forall v ensures AtObjective(Inserted(sorted, at, s[n]), v) == AtObjective(s[..n + 1], v) {
        InsertStable(sorted, at, s[n], v);
        AtObjectiveSplits(s[..n], [s[n]], v);
      }
    }
  }

  lemma LessChain(order: Order, a: Candidate, b: Candidate, c: Candidate)
    requires a.objective.Finite? && b.objective.Finite? && c.objective.Finite?
    ensures !Less(order, a, b) && !Less(order, b, c) ==> !Less(order, a, c)
    ensures Less(order, a, b) && !Less(order, c, b) ==> Less(order, a, c)
  {
  }

  method Sort(order: Order, s: seq<Candidate>) returns (sorted: seq<Candidate>)
    requires AllFinite(s)
    ensures StablySorted(order, s, sorted)
  {
    hide StablySorted;
    hide Less;
    sorted := [];
    NothingSorted(order, s);
    for n := 0 to |s|
      invariant StablySorted(order, s[..n], sorted)
    {
      IsSorted(order, s[..n], sorted);
      var at := |sorted|;
      while 0 < at && Less(order, s[n], sorted[at - 1])
        invariant 0 <= at <= |sorted|
        invariant forall i :: at <= i < |sorted| ==> Less(order, s[n], sorted[i])
      {
        at := at - 1;
      }
      forall i | 0 <= i < at ensures !Less(order, s[n], sorted[i]) {
        if i < at - 1 { LessChain(order, s[n], sorted[at - 1], sorted[i]); }
      }
      InsertKeeps(order, s, n, sorted, at);
      sorted := Inserted(sorted, at, s[n]);
    }
    assert s[..|s|] == s;
  }

  lemma NothingSorted(order: Order, s: seq<Candidate>)
    ensures StablySorted(order, s[..0], [])
  {
    assert s[..0] == [];
  }

  lemma IsSorted(order: Order, s: seq<Candidate>, sorted: seq<Candidate>)
    requires StablySorted(order, s, sorted)
    ensures Sorted(order, sorted) && multiset(sorted) == multiset(s)
    ensures forall c :: c in sorted <==> c in s
  {
    assert forall c :: c in multiset(sorted) <==> c in multiset(s);
    assert forall c :: c in sorted <==> c in multiset(sorted);
    assert forall c :: c in s <==> c in multiset(s);
  }

  // ---------------------------------------------------------------- resolving

  datatype Policy = RaiseWhenEmpty | StableFallback | UnknownPolicy

  datatype Resolution =
    | Tied(qualified: seq<Candidate>, tied: seq<Candidate>, best: real)
    | Fallback(candidate: Candidate)
    | NoneQualified
    | BadPolicy
    | RepeatedIds

  function FiniteOnes(s: seq<Candidate>): (f: seq<Candidate>)
    ensures AllFinite(f) && forall c :: c in f <==> c in s && c.objective.Finite?
  {
    if s == [] then []
    else
      var last := s[|s| - 1];
      FiniteOnes(s[..|s| - 1]) + if last.objective.Finite? then [last] else []
  }

  /** No qualified candidate is better, and the list holds exactly the qualified ones of that objective. */
  ghost predicate ExactBest(mode: Mode, s: seq<Candidate>, tied: seq<Candidate>, best: real) {
    && tied != []
    && (forall c :: c in tied <==> c in s && Qualifies(mode, c) && c.objective == Finite(best))
    && (forall c :: c in s && Qualifies(mode, c) ==> best <= c.objective.value)
  }

  /** The finite candidate of least objective, and of least id among those. */
  predicate FirstOfAll(s: seq<Candidate>, c: Candidate) {
    c.objective.Finite? && forall o :: o in s && o.objective.Finite? ==> !Less(ByObjectiveThenId, o, c)
  }

  method Filter(mode: Mode, s: seq<Candidate>) returns (qualified: seq<Candidate>)
    ensures qualified == Qualified(mode, s) && AllFinite(qualified)
  {
    hide EffectiveLines;
    hide CompleteEvaluation;
    hide Qualified;
    qualified := [];
    NoneYet(mode, s);
    for n := 0 to |s|
      invariant qualified == Qualified(mode, s[..n]) && AllFinite(qualified)
    {
      QualifiedNext(mode, s, n);
      var count := CountEffectiveLines(s[n].lines);
      if count >= MIN_EFFECTIVE_LINES && CompleteEvaluation(mode, s[n]) && s[n].objective.Finite? {
        qualified := qualified + [s[n]];
      }
    }
    assert s[..|s|] == s;
  }

  lemma NoneYet(mode: Mode, s: seq<Candidate>)
    ensures Qualified(mode, s[..0]) == []
  {
  }

  lemma QualifiedNext(mode: Mode, s: seq<Candidate>, n: nat)
    requires n < |s|
    ensures Qualified(mode, s[..n + 1]) == Qualified(mode, s[..n]) + if Qualifies(mode, s[n]) then [s[n]] else []
  {
    assert s[..n + 1][..n] == s[..n];
  }

  /** In population order in reference mode, by id otherwise; each candidate as often as it came. */
  method Qualify(mode: Mode, s: seq<Candidate>) returns (qualified: seq<Candidate>)
    ensures AllFinite(qualified) && forall c :: c in qualified <==> c in s && Qualifies(mode, c)
    ensures mode.Reference? ==> qualified == Qualified(mode, s)
    ensures mode.Engineering? ==> Sorted(ById, qualified) && multiset(qualified) == multiset(Qualified(mode, s))
    ensures qualified == [] <==> Qualified(mode, s) == []
  {
    hide StablySorted;
    qualified := Filter(mode, s);
    if mode.Engineering? {
      ghost var before := qualified;
      qualified := Sort(ById, qualified);
      IsSorted(ById, before, qualified);
      EmptyAlike(before, qualified);
    }
  }

  lemma EmptyAlike(s: seq<Candidate>, sorted: seq<Candidate>)
    requires multiset(sorted) == multiset(s)
    ensures sorted == [] <==> s == []
  {
    assert |multiset(sorted)| == |multiset(s)|;
  }

  lemma {:induction false} CountAtObjective(s: seq<Candidate>, v: real, c: Candidate)
    ensures multiset(AtObjective(s, v))[c] == if c.objective == Finite(v) then multiset(s)[c] else 0
  {
    if s != [] {
      var k := |s| - 1;
      CountAtObjective(s[..k], v, c);
      assert s == s[..k] + [s[k]];
    }
  }

  /** Sorting moves ties but neither drops nor repeats one. */
  lemma TiesKept(s: seq<Candidate>, sorted: seq<Candidate>, v: real)
    requires multiset(sorted) == multiset(s)
    ensures multiset(AtObjective(sorted, v)) == multiset(AtObjective(s, v))
  {
    forall c ensures multiset(AtObjective(sorted, v))[c] == multiset(AtObjective(s, v))[c] {
      CountAtObjective(s, v, c);
      CountAtObjective(sorted, v, c);
    }
  }

  lemma FirstIsBest(order: Order, sorted: seq<Candidate>, c: Candidate)
    requires Sorted(order, sorted) && c in sorted && !order.ById?
    ensures sorted[0].objective.value <= c.objective.value
  {
    var k :| 0 <= k < |sorted| && sorted[k] == c;
    if k > 0 { assert !Less(order, sorted[k], sorted[0]); }
  }

  lemma LastTie(sorted: seq<Candidate>, c: Candidate)
    requires Sorted(ByObjectiveThenId, sorted) && sorted != [] && c in sorted[..|sorted| - 1]
    requires c.objective == sorted[|sorted| - 1].objective
    ensures !Less(ById, sorted[|sorted| - 1], c)
  {
    var m :| 0 <= m < |sorted| - 1 && sorted[m] == c;
    assert !Less(ByObjectiveThenId, sorted[|sorted| - 1], sorted[m]);
  }

  lemma SortedPrefix(order: Order, sorted: seq<Candidate>)
    requires Sorted(order, sorted) && sorted != []
    ensures Sorted(order, sorted[..|sorted| - 1])
  {
  }

  lemma SortedAppend(order: Order, s: seq<Candidate>, c: Candidate)
    requires Sorted(order, s) && c.objective.Finite? && forall k :: 0 <= k < |s| ==> !Less(order, c, s[k])
    ensures Sorted(order, s + [c])
  {
  }

  lemma {:induction false} TiesById(sorted: seq<Candidate>, v: real)
    requires Sorted(ByObjectiveThenId, sorted)
    ensures Sorted(ById, AtObjective(sorted, v))
  {
    hide Sorted;
    hide Less;
    if sorted != [] {
      var k := |sorted| - 1;
      SortedPrefix(ByObjectiveThenId, sorted);
      TiesById(sorted[..k], v);
      var before := AtObjective(sorted[..k], v);
      if sorted[k].objective == Finite(v) {
        TiesAreFinite(sorted[..k], v);
        forall i | 0 <= i < |before| ensures !Less(ById, sorted[k], before[i]) {
          assert before[i] in before;
          LastTie(sorted, before[i]);
        }
        SortedAppend(ById, before, sorted[k]);
      } else {
        assert AtObjective(sorted, v) == before;
      }
    } else {
      NothingSorted(ById, sorted);
      IsSorted(ById, sorted[..0], []);
    }
  }

  lemma TiesAreFinite(s: seq<Candidate>, v: real)
    ensures AllFinite(AtObjective(s, v))
  {
    forall k | 0 <= k < |AtObjective(s, v)| ensures AtObjective(s, v)[k].objective.Finite? {
      assert AtObjective(s, v)[k] in AtObjective(s, v);
    }
  }

  lemma EmptyPopulation(mode: Mode)
    ensures Qualified(mode, []) == [] && FiniteOnes([]) == []
  {
  }

  predicate AscendingIds(s: seq<Candidate>) {
    forall i, j :: 0 <= i < j < |s| ==> s[i].id < s[j].id
  }

  lemma FirstIsLeast(s: seq<Candidate>, c: Candidate)
    requires FirstOfAll(s, c)
    ensures forall o :: o in s && o.objective.Finite? ==>
              c.objective.value < o.objective.value || (c.objective.value == o.objective.value && c.id <= o.id)
  {
  }

  /** Candidates of different ids, sorted by id, ascend. */
  lemma TiedAscend(mode: Mode, s: seq<Candidate>, tied: seq<Candidate>, best: real)
    requires DistinctIds(s) && Sorted(ById, tied) && multiset(tied) == multiset(AtObjective(Qualified(mode, s), best))
    ensures AscendingIds(tied)
  {
    hide Qualifies;
    forall i, j | 0 <= i < j < |tied| ensures tied[i].id < tied[j].id {
      assert !Less(ById, tied[j], tied[i]);
      CountAtObjective(Qualified(mode, s), best, tied[i]);
      CountQualified(mode, s, tied[i]);
      CountOnce(s, tied[i]);
      CountedOnce(tied, i, j);
      assert tied[i] in multiset(tied) && tied[j] in multiset(tied);
      assert tied[i] in AtObjective(Qualified(mode, s), best) && tied[j] in AtObjective(Qualified(mode, s), best);
      IdsApart(s, tied[i], tied[j]);
    }
  }

  lemma IdsApart(s: seq<Candidate>, c: Candidate, e: Candidate)
    requires DistinctIds(s) && c in s && e in s && c != e
    ensures c.id != e.id
  {
    var a :| 0 <= a < |s| && s[a] == c;
    var b :| 0 <= b < |s| && s[b] == e;
  }

  lemma {:induction false} CountQualified(mode: Mode, s: seq<Candidate>, c: Candidate)
    ensures multiset(Qualified(mode, s))[c] <= multiset(s)[c]
  {
    hide Qualifies;
    hide Qualified;
    if s == [] {
      NoneYet(mode, s);
      assert s[..0] == s;
    } else {
      var k := |s| - 1;
      CountQualified(mode, s[..k], c);
      QualifiedNext(mode, s, k);
      assert s[..k + 1] == s && s == s[..k] + [s[k]];
    }
  }

  lemma {:induction false} CountOnce(s: seq<Candidate>, c: Candidate)
    requires DistinctIds(s)
    ensures multiset(s)[c] <= 1
  {
    if s != [] {
      var k := |s| - 1;
      CountOnce(s[..k], c);
      assert s == s[..k] + [s[k]];
      assert forall m :: 0 <= m < k ==> s[m].id != s[k].id;
      assert s[k] !in s[..k] && s[k] !in multiset(s[..k]);
    }
  }

  lemma CountedOnce(s: seq<Candidate>, i: nat, j: nat)
    requires i < j < |s| && multiset(s)[s[i]] <= 1
    ensures s[i] != s[j]
  {
    assert s == s[..j] + s[j..];
    assert s[..j][i] == s[i] && s[j..][0] == s[j];
    assert s[i] in s[..j] && s[j] in s[j..];
    assert multiset(s) == multiset(s[..j]) + multiset(s[j..]);
    assert multiset(s[..j])[s[i]] >= 1 && multiset(s[j..])[s[j]] >= 1;
  }

  /** Without a qualified candidate: no fallback is allowed, or there is none. */
  predicate MustRaise(mode: Mode, s: seq<Candidate>, policy: Policy) {
    mode.Reference? || policy.RaiseWhenEmpty? || (policy.StableFallback? && FiniteOnes(s) == [])
  }

  /** The deterministic part: who may win at all. */
  method Resolve(mode: Mode, s: seq<Candidate>, policy: Policy) returns (r: Resolution)
    ensures r.RepeatedIds? <==> s != [] && !DistinctIds(s)
    ensures r.Tied? <==> DistinctIds(s) && Qualified(mode, s) != []
    ensures r.Tied? ==> ExactBest(mode, s, r.tied, r.best)
    ensures r.Tied? && mode.Reference? ==> r.tied == AtObjective(Qualified(mode, s), r.best)
    ensures r.Tied? && mode.Engineering? ==>
              Sorted(ById, r.tied) && multiset(r.tied) == multiset(AtObjective(Qualified(mode, s), r.best))
    ensures r.Tied? ==> multiset(r.qualified) == multiset(Qualified(mode, s))
    ensures r.BadPolicy? <==> s != [] && DistinctIds(s) && Qualified(mode, s) == [] && mode.Engineering? &&
                              policy.UnknownPolicy?
    ensures r.NoneQualified? <==> s == [] || (DistinctIds(s) && Qualified(mode, s) == [] && MustRaise(mode, s, policy))
    ensures r.Fallback? <==> DistinctIds(s) && Qualified(mode, s) == [] && mode.Engineering? &&
                             policy.StableFallback? && FiniteOnes(s) != []
    ensures r.Fallback? ==> r.candidate in s && r.candidate.objective.Finite?
    ensures r.Fallback? ==> FirstOfAll(s, r.candidate)
    ensures r.Fallback? ==> forall o :: o in s && o.objective.Finite? ==>
              r.candidate.objective.value < o.objective.value ||
              (r.candidate.objective.value == o.objective.value && r.candidate.id <= o.id)
    ensures r.Tied? && mode.Engineering? ==> AscendingIds(r.tied)
  {
    hide Sorted;
    hide FirstOfAll;
    hide ExactBest;
    hide AtObjective;
    hide Qualifies;
    hide DistinctIds;
    hide FiniteOnes;
    hide Qualified;
    EmptyPopulation(mode);
    if s == [] { return NoneQualified; }
    if !DistinctIds(s) { return RepeatedIds; }
    var qualified := Qualify(mode, s);
    if qualified == [] {
      if mode.Reference? { return NoneQualified; }
      if policy.UnknownPolicy? { return BadPolicy; }
      if policy.RaiseWhenEmpty? { return NoneQualified; }
      var first := FirstFinite(s);
      if first.Some? { FirstIsLeast(s, first.value); }
      return if first.None? then NoneQualified else Fallback(first.value);
    }
    var tied, best := TieOf(mode, s, qualified);
    TiesKept(Qualified(mode, s), qualified, best);
    if mode.Engineering? { TiedAscend(mode, s, tied, best); }
    r := Tied(qualified, tied, best);
  }

  /** The first of the candidates with a finite objective, by objective and id. */
  method FirstFinite(s: seq<Candidate>) returns (first: Option<Candidate>)
    ensures first.None? <==> FiniteOnes(s) == []
    ensures first.Some? ==> first.value in s && first.value.objective.Finite? && FirstOfAll(s, first.value)
  {
    hide StablySorted;
    var finite := Sort(ByObjectiveThenId, FiniteOnes(s));
    IsSorted(ByObjectiveThenId, FiniteOnes(s), finite);
    EmptyAlike(FiniteOnes(s), finite);
    if finite == [] { return None; }
    assert finite[0] in finite;
    forall c | c in s && c.objective.Finite? ensures !Less(ByObjectiveThenId, c, finite[0]) {
      assert c in finite;
      var k :| 0 <= k < |finite| && finite[k] == c;
    }
    first := Some(finite[0]);
  }

  /** All exact best candidates, in the mode's order. */
  method TieOf(mode: Mode, s: seq<Candidate>, qualified: seq<Candidate>) returns (tied: seq<Candidate>, best: real)
    requires qualified != [] && AllFinite(qualified) && forall c :: c in qualified <==> c in s && Qualifies(mode, c)
    ensures ExactBest(mode, s, tied, best)
    ensures mode.Reference? ==> tied == AtObjective(qualified, best)
    ensures mode.Engineering? ==> Sorted(ById, tied)
    ensures multiset(tied) == multiset(AtObjective(qualified, best))
  {
    hide StablySorted;
    hide Sorted;
    hide Qualifies;
    hide ExactBest;
    hide AtObjective;
    var order := if mode.Reference? then ByObjective else ByObjectiveThenId;
    var sorted := Sort(order, qualified);
    SortedTies(order, qualified, sorted);
    assert sorted[0].objective.Finite?;
    best := sorted[0].objective.value;
    tied := AtObjective(sorted, best);
    TiesAreExact(mode, s, qualified, sorted);
  }

  lemma TiesAreExact(mode: Mode, s: seq<Candidate>, qualified: seq<Candidate>, sorted: seq<Candidate>)
    requires sorted != [] && sorted[0].objective.Finite?
    requires forall c :: c in sorted <==> c in qualified
    requires forall c :: c in qualified <==> c in s && Qualifies(mode, c)
    requires forall c :: c in qualified ==> c.objective.Finite? && sorted[0].objective.value <= c.objective.value
    ensures ExactBest(mode, s, AtObjective(sorted, sorted[0].objective.value), sorted[0].objective.value)
  {
    hide Qualifies;
    var best := sorted[0].objective.value;
    var tied := AtObjective(sorted, best);
    assert sorted[0] in sorted && sorted[0] in tied;
    forall c | c in s && Qualifies(mode, c) ensures best <= c.objective.value && c.objective.Finite? { assert c in qualified; }
  }

  lemma SortedTies(order: Order, qualified: seq<Candidate>, sorted: seq<Candidate>)
    requires StablySorted(order, qualified, sorted) && qualified != [] && !order.ById?
    ensures sorted != [] && AllFinite(sorted) && forall c :: c in sorted <==> c in qualified
    ensures forall c :: c in qualified ==> c.objective.Finite? && sorted[0].objective.value <= c.objective.value
    ensures order.ByObjective? ==>
              AtObjective(sorted, sorted[0].objective.value) == AtObjective(qualified, sorted[0].objective.value)
    ensures order.ByObjectiveThenId? ==> Sorted(ById, AtObjective(sorted, sorted[0].objective.value))
    ensures multiset(AtObjective(sorted, sorted[0].objective.value)) ==
            multiset(AtObjective(qualified, sorted[0].objective.value))
  {
    IsSorted(order, qualified, sorted);
    TiesKept(qualified, sorted, sorted[0].objective.value);
    EmptyAlike(qualified, sorted);
    forall c | c in qualified ensures c.objective.Finite? && sorted[0].objective.value <= c.objective.value {
      assert c in sorted;
      FirstIsBest(order, sorted, c);
    }
    if order.ByObjectiveThenId? { TiesById(sorted, sorted[0].objective.value); }
  }

  // ---------------------------------------------------------------- the model

  /** Any answer of the model: an exception, or a mapping with or without what is demanded. */
  datatype Answer = Throws | Mapping(selected: Option<Id>, hasReason: bool, hasComparison: bool)

  datatype Decision =
    | Selected(id: Id, best: real, offered: seq<Id>, modelCalled: bool, fallbackUsed: bool)
    | Refused(resolution: Resolution)
    | NoSkill

  function Ids(s: seq<Candidate>): (ids: seq<Id>)
    ensures |ids| == |s| && forall k :: 0 <= k < |ids| ==> ids[k] == s[k].id
  {
    seq(|s|, k requires 0 <= k < |s| => s[k].id)
  }

  predicate AcceptsAnswer(a: Answer, offered: seq<Id>) {
    a.Mapping? && a.selected.Some? && a.selected.value in offered && a.hasReason && a.hasComparison
  }

  /** How many equals the model may be shown. */
  function Bound(maxTied: int): (n: nat)
    ensures 2 <= n <= MAX_TIED
    ensures 2 <= maxTied <= 10 ==> n == maxTied
  {
    Min(MAX_TIED, Max(2, maxTied))
  }

  /** The chosen id is that of an exact best, and a called model was offered a prefix of all of them. */
  ghost predicate ChosenAmong(mode: Mode, s: seq<Candidate>, tied: seq<Candidate>, maxTied: int, d: Decision)
    requires d.Selected?
  {
    && ExactBest(mode, s, tied, d.best)
    && (exists k :: 0 <= k < |tied| && tied[k].id == d.id)
    && (d.modelCalled <==> |tied| > 1) && (d.fallbackUsed ==> d.modelCalled)
    && (d.modelCalled ==> d.offered == Ids(tied)[..Min(|tied|, Bound(maxTied))])
    && (mode.Reference? ==> tied == AtObjective(Qualified(mode, s), d.best))
    && (mode.Engineering? ==> AscendingIds(tied) && multiset(tied) == multiset(AtObjective(Qualified(mode, s), d.best)))
  }

  method Select(mode: Mode, s: seq<Candidate>, policy: Policy, maxTied: int, hasSkill: bool, answer: Answer)
    returns (d: Decision)
    ensures d.Selected? && Qualified(mode, s) != [] ==>
              exists tied: seq<Candidate> :: ChosenAmong(mode, s, tied, maxTied, d)
    ensures d.Selected? && d.modelCalled ==> 2 <= |d.offered| <= MAX_TIED && d.id in d.offered
    ensures d.Selected? && d.modelCalled ==>
              if answer.Mapping? && answer.selected.Some? && answer.selected.value in d.offered && answer.hasReason && answer.hasComparison
              then d.id == answer.selected.value && !d.fallbackUsed
              else d.id == d.offered[0] && d.fallbackUsed
    ensures d.Selected? && d.modelCalled && maxTied <= 2 ==> |d.offered| == 2
    ensures d.NoSkill? ==> !hasSkill
    ensures d.Selected? && Qualified(mode, s) == [] ==>
              !d.modelCalled && d.fallbackUsed && mode.Engineering? && policy.StableFallback?
    ensures d.Selected? && Qualified(mode, s) == [] ==>
              exists c: Candidate :: c in s && c.id == d.id && c.objective == Finite(d.best) && FirstOfAll(s, c)
    ensures hasSkill && DistinctIds(s) && Qualified(mode, s) != [] ==> d.Selected?
  {
    hide ExactBest;
    hide AscendingIds;
    hide AtObjective;
    hide Qualified;
    hide DistinctIds;
    hide MustRaise;
    var r := Resolve(mode, s, policy);
    TieIsNonEmpty(mode, s, r);
    if r.Fallback? { return Selected(r.candidate.id, r.candidate.objective.value, [], false, true); }
    if !r.Tied? { return Refused(r); }
    if |r.tied| == 1 {
      d := Selected(r.tied[0].id, r.best, [], false, false);
      assert ChosenAmong(mode, s, r.tied, maxTied, d);
      return d;
    }
    if !hasSkill { return NoSkill; }
    var n := Min(|r.tied|, Bound(maxTied));
    var offered := Ids(r.tied)[..n];
    var selected := offered[0];
    var fallback := true;
    if AcceptsAnswer(answer, offered) {
      selected, fallback := answer.selected.value, false;
    }
    ghost var k :| 0 <= k < |offered| && offered[k] == selected;
    assert r.tied[k].id == selected;
    d := Selected(selected, r.best, offered, true, fallback);
    assert ChosenAmong(mode, s, r.tied, maxTied, d);
  }

  lemma TieIsNonEmpty(mode: Mode, s: seq<Candidate>, r: Resolution)
    ensures r.Tied? && ExactBest(mode, s, r.tied, r.best) ==> r.tied != []
  {
  }

  /** Two different answers can only choose between candidates of the same, minimal objective. */
  method AskTwice(mode: Mode, s: seq<Candidate>, policy: Policy, maxTied: int, a: Answer, b: Answer)
    returns (d: Decision, e: Decision)
    ensures d.Selected? && e.Selected? && Qualified(mode, s) != [] ==> d.best == e.best
  {
    d := Select(mode, s, policy, maxTied, true, a);
    e := Select(mode, s, policy, maxTied, true, b);
    if d.Selected? && e.Selected? && Qualified(mode, s) != [] {
      ghost var t: seq<Candidate> :| ChosenAmong(mode, s, t, maxTied, d);
      ghost var u: seq<Candidate> :| ChosenAmong(mode, s, u, maxTied, e);
      BestIsUnique(mode, s, t, d.best, u, e.best);
    }
  }

  /** There is one exact best objective. */
  lemma BestIsUnique(mode: Mode, s: seq<Candidate>, t: seq<Candidate>, x: real, u: seq<Candidate>, y: real)
    requires ExactBest(mode, s, t, x) && ExactBest(mode, s, u, y)
    ensures x == y
  {
    assert t[0] in t && u[0] in u;
  }
}
