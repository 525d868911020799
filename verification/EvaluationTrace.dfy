/**
 * The evaluation trace that is injected into candidate code. Whatever the candidate passes
 * and however often it calls, the trace records at most `budget` distinct evaluations, its
 * trajectory is the running minimum, and what it reports passes the parent's validation.
 */
module EvaluationTrace {
  import opened Common

  // ---------------------------------------------------------------- the data set

  datatype Value = Number(number: real) | Flag(flag: bool) | Text(text: Id)

  type Config = seq<Value>

  /** How one parameter contributes to the distance. */
  datatype Kind = Numeric(low: real, high: real) | Categorical

  datatype Dataset = Dataset(kinds: seq<Kind>, configurations: seq<Config>, objectives: seq<real>)

  predicate Aligned(kinds: seq<Kind>, c: Config) {
    |c| == |kinds| && forall k :: 0 <= k < |kinds| && kinds[k].Numeric? ==> c[k].Number?
  }

  predicate Usable(d: Dataset) {
    && d.configurations != [] && |d.configurations| == |d.objectives|
    && forall i :: 0 <= i < |d.configurations| ==> Aligned(d.kinds, d.configurations[i])
  }

  /** What the candidate hands over as a configuration. */
  datatype Item = Plain(value: Value) | NotFinite | NotSerialisable

  datatype Requested = NotASequence | Items(items: seq<Item>)

  function PlainConfig(r: Requested, dimension: nat): (c: Option<Config>)
    ensures c.Some? ==> |c.value| == dimension
  {
    if r.NotASequence? || |r.items| != dimension then None
    else PlainItems(r.items)
  }

  function PlainItems(items: seq<Item>): (c: Option<Config>)
    ensures c.Some? ==> |c.value| == |items|
  {
    if items == [] then Some([])
    else
      var k := |items| - 1;
      var before := PlainItems(items[..k]);
      if before.None? || !items[k].Plain? then None else Some(before.value + [items[k].value])
  }

  /** A request is understood if it is a sequence of the right length of plain values, and then taken as it is. */
  lemma PlainIff(r: Requested, dimension: nat)
    ensures PlainConfig(r, dimension).Some? <==>
            r.Items? && |r.items| == dimension && forall k :: 0 <= k < |r.items| ==> r.items[k].Plain?
    ensures PlainConfig(r, dimension).Some? ==>
              forall k :: 0 <= k < dimension ==> r.items[k] == Plain(PlainConfig(r, dimension).value[k])
  {
    if r.Items? { PlainItemsIff(r.items); }
  }

  lemma {:induction false} PlainItemsIff(items: seq<Item>)
    ensures PlainItems(items).Some? <==> forall k :: 0 <= k < |items| ==> items[k].Plain?
    ensures PlainItems(items).Some? ==> forall k :: 0 <= k < |items| ==> items[k] == Plain(PlainItems(items).value[k])
  {
    if items != [] {
      var n := |items| - 1;
      PlainItemsIff(items[..n]);
      assert forall k :: 0 <= k < n ==> items[..n][k] == items[k];
    }
  }

  // ---------------------------------------------------------------- the nearest configuration

  /** The squared normalised distance over the first `n` parameters; infinite off the numbers. */
  function NumericSquared(kinds: seq<Kind>, left: Config, right: Config, n: nat): Option<real>
    requires n <= |kinds| && |left| == |kinds| && Aligned(kinds, right)
  {
    if n == 0 then Some(0.0)
    else
      var k := n - 1;
      var before := NumericSquared(kinds, left, right, k);
      if kinds[k].Categorical? then before
      else if before.None? || !left[k].Number? then None
      else
        Some(before.value + SquaredGap(kinds[k].low, kinds[k].high, left[k].number, right[k].number))
  }

  /** The squared difference of two numbers as a share of their parameter's range. */
  function SquaredGap(low: real, high: real, left: real, right: real): real {
    var scale := high - low;
    var delta := if scale == 0.0 then 0.0 else (left - right) / scale;
    delta * delta
  }

  function Mismatches(kinds: seq<Kind>, left: Config, right: Config, n: nat): nat
    requires n <= |kinds| && |left| == |kinds| == |right|
  {
    if n == 0 then 0
    else Mismatches(kinds, left, right, n - 1) +
         if kinds[n - 1].Categorical? && left[n - 1] != right[n - 1] then 1 else 0
  }

  /** `root` stands for the square root. */
  function Distance(root: real -> real, kinds: seq<Kind>, left: Config, right: Config): Option<real>
    requires |left| == |kinds| && Aligned(kinds, right)
  {
    var squared := NumericSquared(kinds, left, right, |kinds|);
    if squared.None? then None
    else Some(root(squared.value) + Mismatches(kinds, left, right, |kinds|) as real)
  }

  /** `None` is infinitely far. */
  predicate Closer(a: Option<real>, b: Option<real>) {
    a.Some? && (b.None? || a.value < b.value)
  }

  method DistanceOf(root: real -> real, kinds: seq<Kind>, left: Config, right: Config) returns (d: Option<real>)
    requires |left| == |kinds| && Aligned(kinds, right)
    ensures d == Distance(root, kinds, left, right)
  {
    hide SquaredGap;
    var squared, other := 0.0, 0;
    for k := 0 to |kinds|
      invariant NumericSquared(kinds, left, right, k) == Some(squared)
      invariant Mismatches(kinds, left, right, k) == other
    {
      match kinds[k] {
        case Numeric(low, high) =>
          if !left[k].Number? {
            FarAway(kinds, left, right, k + 1, |kinds|);
            return None;
          }
          squared := squared + SquaredGap(low, high, left[k].number, right[k].number);
        case Categorical =>
          if left[k] != right[k] { other := other + 1; }
      }
    }
    d := Some(root(squared) + other as real);
  }

  lemma {:induction false} FarAway(kinds: seq<Kind>, left: Config, right: Config, m: nat, n: nat)
    requires m <= n <= |kinds| && |left| == |kinds| && Aligned(kinds, right)
    requires NumericSquared(kinds, left, right, m).None?
    ensures NumericSquared(kinds, left, right, n).None?
  {
    if m < n { FarAway(kinds, left, right, m, n - 1); }
  }

  datatype Mapped = Mapped(score: real, config: Config, exact: bool)

  /** A configuration of the data set maps to itself, with its last objective. */
  predicate ExactMatch(d: Dataset, c: Config, m: Mapped)
    requires Usable(d)
  {
    && m.exact && m.config == c
    && exists i :: 0 <= i < |d.configurations| && d.configurations[i] == c && m.score == d.objectives[i] &&
         forall j :: i < j < |d.configurations| ==> d.configurations[j] != c
  }

  /** Any other maps to the first configuration of least distance. */
  predicate NearestMatch(root: real -> real, d: Dataset, c: Config, m: Mapped)
    requires Usable(d) && |c| == |d.kinds|
  {
    !m.exact &&
    exists i :: 0 <= i < |d.configurations| && m.config == d.configurations[i] && m.score == d.objectives[i] &&
      FirstClosest(root, d, c, i, |d.configurations|)
  }

  /** Row `i` is reachable, nothing is closer, and nothing before it is as close. */
  predicate FirstClosest(root: real -> real, d: Dataset, c: Config, i: nat, n: nat)
    requires Usable(d) && |c| == |d.kinds| && i < n <= |d.configurations|
  {
    && DistanceTo(root, d, c, i).Some?
    && (forall j :: 0 <= j < n ==> !Closer(DistanceTo(root, d, c, j), DistanceTo(root, d, c, i)))
    && (forall j :: 0 <= j < i ==> Closer(DistanceTo(root, d, c, i), DistanceTo(root, d, c, j)))
  }

  function DistanceTo(root: real -> real, d: Dataset, c: Config, i: nat): Option<real>
    requires Usable(d) && |c| == |d.kinds| && i < |d.configurations|
  {
    Distance(root, d.kinds, c, d.configurations[i])
  }

  predicate AllFar(root: real -> real, d: Dataset, c: Config)
    requires Usable(d) && |c| == |d.kinds|
  {
    forall i :: 0 <= i < |d.configurations| ==> DistanceTo(root, d, c, i).None?
  }

  predicate MapsTo(root: real -> real, d: Dataset, r: Requested, m: Mapped)
    requires Usable(d)
  {
    var c := PlainConfig(r, |d.kinds|);
    c.Some? && Maps(root, d, c.value, m)
  }

  /** Fails only for malformed requests and for ones infinitely far from every configuration. */
  method Nearest(root: real -> real, d: Dataset, r: Requested) returns (m: Option<Mapped>)
    requires Usable(d)
    ensures m.Some? ==> MapsTo(root, d, r, m.value)
    ensures var c := PlainConfig(r, |d.kinds|);
            m.None? <==> (c.None? || (c.value !in d.configurations && AllFar(root, d, c.value)))
  {
    var plain := PlainConfig(r, |d.kinds|);
    if plain.None? { return None; }
    var c := plain.value;
    var last := |d.configurations|;
    while last > 0 && d.configurations[last - 1] != c
      invariant 0 <= last <= |d.configurations|
      invariant forall j :: last <= j < |d.configurations| ==> d.configurations[j] != c
    {
      last := last - 1;
    }
    if last > 0 {
      assert d.configurations[last - 1] in d.configurations;
      return Some(Mapped(d.objectives[last - 1], c, true));
    }
    var best: Option<nat> := None;
    var closest: Option<real> := None;
    for i := 0 to |d.configurations|
      invariant best.None? ==> closest.None? && forall j :: 0 <= j < i ==> DistanceTo(root, d, c, j).None?
      invariant best.Some? ==> best.value < i && closest == DistanceTo(root, d, c, best.value)
      invariant best.Some? ==> FirstClosest(root, d, c, best.value, i)
    {
      var distance := DistanceOf(root, d.kinds, c, d.configurations[i]);
      assert distance == DistanceTo(root, d, c, i);
      if Closer(distance, closest) { best, closest := Some(i), distance; }
    }
    if best.None? { return None; }
    m := Some(Mapped(d.objectives[best.value], d.configurations[best.value], false));
  }

  // ---------------------------------------------------------------- one score per configuration

  /** What a candidate gets for a well-formed configuration. */
  predicate Maps(root: real -> real, d: Dataset, c: Config, m: Mapped)
    requires Usable(d) && |c| == |d.kinds|
  {
    if c in d.configurations then ExactMatch(d, c, m) else NearestMatch(root, d, c, m)
  }

  ghost predicate OneScoreEach(root: real -> real, d: Dataset)
    requires Usable(d)
  {
    forall a, b, m, n :: |a| == |d.kinds| && |b| == |d.kinds| && Maps(root, d, a, m) && Maps(root, d, b, n) ==>
      m.config == n.config ==> m.score == n.score
  }

  predicate IsFirst(d: Dataset, i: nat) {
    i < |d.configurations| && forall k :: 0 <= k < i ==> d.configurations[k] != d.configurations[i]
  }

  predicate IsLast(d: Dataset, i: nat) {
    i < |d.configurations| && forall k :: i < k < |d.configurations| ==> d.configurations[k] != d.configurations[i]
  }

  /** Rows `i` and `j` hold the same configuration, and `j` is the row an exact request finds. */
  predicate LastOf(d: Dataset, i: nat, j: nat) {
    i < |d.configurations| && IsLast(d, j) && d.configurations[j] == d.configurations[i]
  }

  lemma {:induction false} LastExists(d: Dataset, i: nat) returns (j: nat)
    requires i < |d.configurations|
    ensures LastOf(d, i, j)
    decreases |d.configurations| - i
  {
    j := i;
    if !IsLast(d, i) {
      var k :| i < k < |d.configurations| && d.configurations[k] == d.configurations[i];
      j := LastExists(d, k);
    }
  }

  /** Some request outside the data set is mapped to row `i`. */
  ghost predicate Approached(root: real -> real, d: Dataset, i: nat)
    requires Usable(d)
  {
    i < |d.configurations| &&
    exists c :: |c| == |d.kinds| && c !in d.configurations && FirstClosest(root, d, c, i, |d.configurations|)
  }

  /** Every row that some request is approximated by has the objective an exact request finds. */
  ghost predicate ApproachedAgree(root: real -> real, d: Dataset)
    requires Usable(d) && |d.objectives| == |d.configurations|
  {
    forall i: nat, j: nat :: Approached(root, d, i) && LastOf(d, i, j) ==> d.objectives[i] == d.objectives[j]
  }

  /** The first and the last row of each configuration have the same objective. */
  predicate EndsAgree(d: Dataset)
    requires |d.objectives| == |d.configurations|
  {
    forall i, j :: 0 <= i < |d.configurations| && 0 <= j < |d.configurations| && IsFirst(d, i) && LastOf(d, i, j) ==>
      d.objectives[i] == d.objectives[j]
  }

  /** Every answer comes from a row whose objective is the last one, or from one that is approached. */
  lemma MapsToRow(root: real -> real, d: Dataset, c: Config, m: Mapped) returns (i: nat)
    requires Usable(d) && |c| == |d.kinds| && Maps(root, d, c, m)
    ensures i < |d.configurations| && m.config == d.configurations[i] && m.score == d.objectives[i]
    ensures IsLast(d, i) || Approached(root, d, i)
  {
    if c in d.configurations {
      i :| 0 <= i < |d.configurations| && d.configurations[i] == c && m.score == d.objectives[i] &&
           forall j :: i < j < |d.configurations| ==> d.configurations[j] != c;
    } else {
      i :| 0 <= i < |d.configurations| && m.config == d.configurations[i] && m.score == d.objectives[i] &&
           FirstClosest(root, d, c, i, |d.configurations|);
    }
  }

  lemma LastIsUnique(d: Dataset, i: nat, j: nat)
    requires IsLast(d, i) && IsLast(d, j) && d.configurations[i] == d.configurations[j]
    ensures i == j
  {
  }

  /** Where approached rows agree with the last ones, an answer has the objective of the last row. */
  lemma MapsToLastScore(root: real -> real, d: Dataset, c: Config, m: Mapped) returns (j: nat)
    requires Usable(d) && |c| == |d.kinds| && Maps(root, d, c, m) && ApproachedAgree(root, d)
    ensures IsLast(d, j) && d.configurations[j] == m.config && m.score == d.objectives[j]
  {
    var i := MapsToRow(root, d, c, m);
    j := LastExists(d, i);
    if IsLast(d, i) { LastIsUnique(d, i, j); }
  }

  /**
   * The score is a function of the mapped configuration exactly if every row that approximates
   * some request outside the data set has the objective of the last row of its configuration.
   */
  lemma ScoreIsFunctionIff(root: real -> real, d: Dataset)
    requires Usable(d)
    ensures OneScoreEach(root, d) <==> ApproachedAgree(root, d)
  {
    hide FirstClosest;
    if ApproachedAgree(root, d) {
      forall a, b, m, n | |a| == |d.kinds| && |b| == |d.kinds| && Maps(root, d, a, m) && Maps(root, d, b, n) && m.config == n.config
        ensures m.score == n.score
      {
        var i := MapsToLastScore(root, d, a, m);
        var j := MapsToLastScore(root, d, b, n);
        LastIsUnique(d, i, j);
      }
    }
    if OneScoreEach(root, d) {
      forall i: nat, j: nat | Approached(root, d, i) && LastOf(d, i, j) ensures d.objectives[i] == d.objectives[j] {
        BothScoresGiven(root, d, i, j);
      }
    }
  }

  /** The two requests that tell an approached row and the last row of its configuration apart. */
  lemma BothScoresGiven(root: real -> real, d: Dataset, i: nat, j: nat)
    requires Usable(d) && OneScoreEach(root, d) && Approached(root, d, i) && LastOf(d, i, j)
    ensures d.objectives[i] == d.objectives[j]
  {
    var c :| |c| == |d.kinds| && c !in d.configurations && FirstClosest(root, d, c, i, |d.configurations|);
    var e := d.configurations[i];
    var near, exact := Mapped(d.objectives[i], e, false), Mapped(d.objectives[j], e, true);
    assert Maps(root, d, c, near);
    assert ExactMatch(d, e, exact);
    assert Aligned(d.kinds, e) && e in d.configurations;
    assert Maps(root, d, e, exact);
  }

  /** Only the first row of a configuration approximates anything. */
  lemma ApproachedIsFirst(root: real -> real, d: Dataset, i: nat)
    requires Usable(d) && Approached(root, d, i)
    ensures IsFirst(d, i)
  {
    var c :| |c| == |d.kinds| && c !in d.configurations && FirstClosest(root, d, c, i, |d.configurations|);
    forall k | 0 <= k < i ensures d.configurations[k] != d.configurations[i] {
      assert Closer(DistanceTo(root, d, c, i), DistanceTo(root, d, c, k));
    }
  }

  /**
   * So it is one for every data set whose repeated configurations begin and end with the same
   * objective, which can be checked before any request; distinct configurations are a case.
   */
  lemma EndsAgreeSuffices(root: real -> real, d: Dataset)
    requires Usable(d) && EndsAgree(d)
    ensures OneScoreEach(root, d)
  {
    forall i: nat, j: nat | Approached(root, d, i) && LastOf(d, i, j) ensures d.objectives[i] == d.objectives[j] {
      ApproachedIsFirst(root, d, i);
    }
    ScoreIsFunctionIff(root, d);
  }

  /** A configuration whose two rows differ can have two scores. */
  lemma DuplicateRowsDisagree(root: real -> real, c: Config, other: Config) returns (d: Dataset, m: Mapped, n: Mapped)
    requires |c| == |other| == 1 && c[0].Text? && other[0].Text? && c != other
    ensures Usable(d) && |d.kinds| == 1 && Maps(root, d, c, m) && Maps(root, d, other, n)
    ensures m.config == n.config && m.score != n.score
  {
    d := Dataset([Categorical], [c, c], [1.0, 2.0]);
    m, n := Mapped(2.0, c, true), Mapped(1.0, c, false);
    assert d.configurations[1] == c && m.score == d.objectives[1];
    assert NumericSquared(d.kinds, other, c, 0) == Some(0.0);
    assert DistanceTo(root, d, other, 0) == DistanceTo(root, d, other, 1);
    assert FirstClosest(root, d, other, 0, 2);
  }

  // ---------------------------------------------------------------- the trace

  datatype Evaluation = Evaluation(config: Config, score: real)

  datatype Call = Call(requested: Config, mapped: Mapped, duplicate: bool, used: int, best: real)

  /** What the candidate passes where the reference signature wants its own book-keeping. */
  datatype Argument = Whole(value: int) | Mapping | AnythingElse

  datatype Reply = Violation | Answer(used: int, noImprove: nat, best: real, score: real, config: Config)

  function MinScore(history: seq<Evaluation>): (m: real)
    requires history != []
    ensures forall k :: 0 <= k < |history| ==> m <= history[k].score
    ensures exists k :: 0 <= k < |history| && m == history[k].score
  {
    var k := |history| - 1;
    if k == 0 then history[0].score
    else
      var before := MinScore(history[..k]);
      if history[k].score < before then history[k].score else before
  }

  predicate DistinctConfigs(history: seq<Evaluation>) {
    forall i, j :: 0 <= i < j < |history| ==> history[i].config != history[j].config
  }

  function Find(history: seq<Evaluation>, c: Config): (at: Option<nat>)
    ensures at.Some? ==> at.value < |history| && history[at.value].config == c
    ensures at.None? ==> forall k :: 0 <= k < |history| ==> history[k].config != c
  {
    if history == [] then None
    else
      var k := |history| - 1;
      if history[k].config == c then Some(k) else Find(history[..k], c)
  }

  /** The running minimum of the scores of the distinct evaluations. */
  predicate RunningMinimum(history: seq<Evaluation>, trajectory: seq<real>) {
    |trajectory| == |history| &&
    forall i :: 0 <= i < |history| ==> trajectory[i] == MinScore(history[..i + 1])
  }

  /** The best pair is the first evaluation that reached the minimum. */
  predicate FirstBest(history: seq<Evaluation>, best: Option<real>, bestConfig: Option<Config>) {
    if history == [] then best.None? && bestConfig.None?
    else
      && best == Some(MinScore(history)) && bestConfig.Some?
      && exists k :: 0 <= k < |history| && history[k] == Evaluation(bestConfig.value, best.value) &&
           forall j :: 0 <= j < k ==> best.value < history[j].score
  }

  predicate TraceOk(
    dimension: nat, budget: int, used: int, best: Option<real>, bestConfig: Option<Config>,
    history: seq<Evaluation>, trajectory: seq<real>)
  {
    && used == |history| && (|history| == 0 || |history| <= budget)
    && DistinctConfigs(history) && RunningMinimum(history, trajectory)
    && FirstBest(history, best, bestConfig)
    && (forall k :: 0 <= k < |history| ==> |history[k].config| == dimension)
  }

  /** A new evaluation within the budget. */
  lemma TraceGrows(
    dimension: nat, budget: int, used: int, best: Option<real>, bestConfig: Option<Config>,
    history: seq<Evaluation>, trajectory: seq<real>, e: Evaluation)
    requires TraceOk(dimension, budget, used, best, bestConfig, history, trajectory)
    requires used < budget && |e.config| == dimension && Find(history, e.config).None?
    ensures var better := best.None? || e.score < best.value;
            var best' := if better then Some(e.score) else best;
            TraceOk(dimension, budget, used + 1, best', if better then Some(e.config) else bestConfig,
                    history + [e], trajectory + [best'.value])
  {
    ExtendMinimum(history, trajectory, e);
    BestGrows(history, best, bestConfig, e);
  }

  lemma BestGrows(history: seq<Evaluation>, best: Option<real>, bestConfig: Option<Config>, e: Evaluation)
    requires FirstBest(history, best, bestConfig)
    ensures var better := best.None? || e.score < best.value;
            FirstBest(history + [e], if better then Some(e.score) else best, if better then Some(e.config) else bestConfig)
  {
    var next := history + [e];
    assert next[..|history|] == history;
    if best.None? || e.score < best.value {
      assert next[|history|] == e;
    } else {
      var k :| 0 <= k < |history| && history[k] == Evaluation(bestConfig.value, best.value) &&
               forall j :: 0 <= j < k ==> best.value < history[j].score;
      assert next[k] == history[k];
    }
  }

  class Trace {
    const root: real -> real
    const dataset: Dataset
    const budget: int
    var used: int
    var noImprove: nat
    var best: Option<real>
    var bestConfig: Option<Config>
    var history: seq<Evaluation>
    var trajectory: seq<real>
    var calls: seq<Call>

    predicate Valid()
      reads this
    {
      Usable(dataset) && TraceOk(|dataset.kinds|, budget, used, best, bestConfig, history, trajectory)
    }

    constructor (root: real -> real, dataset: Dataset, budget: int)
      requires Usable(dataset)
      ensures Valid() && this.budget == budget && this.dataset == dataset && this.root == root
      ensures history == [] && calls == [] && noImprove == 0
    {
      this.root, this.dataset, this.budget := root, dataset, budget;
      used, noImprove, best, bestConfig := 0, 0, None, None;
      history, trajectory, calls := [], [], [];
    }

    /**
     * One call by the candidate. Its own counters are only checked for their types. A
     * violation changes nothing; a configuration seen before costs nothing.
     */
    method Evaluate(usedArg: Argument, noImproveArg: Argument, historyArg: Argument, r: Requested) returns (reply: Reply)
      requires Valid()
      modifies this
      ensures Valid()
      ensures reply.Violation? ==>
                used == old(used) && noImprove == old(noImprove) && history == old(history) && calls == old(calls)
      ensures reply.Answer? ==>
                && usedArg.Whole? && noImproveArg.Whole? && historyArg.Mapping?
                && reply.used == used && reply.noImprove == noImprove && best == Some(reply.best)
                && |calls| == |old(calls)| + 1 && calls[..|old(calls)|] == old(calls)
                && calls[|old(calls)|].mapped.score == reply.score && calls[|old(calls)|].mapped.config == reply.config
      ensures reply.Answer? ==> MapsTo(root, dataset, r, calls[|old(calls)|].mapped)
      ensures reply.Answer? ==>
                history == if Find(old(history), reply.config).Some? then old(history)
                           else old(history) + [Evaluation(reply.config, reply.score)]
      ensures reply.Answer? ==>
                noImprove == if Find(old(history), reply.config).None? &&
                                (old(best).None? || reply.score < old(best).value)
                             then 0 else old(noImprove) + 1
      ensures reply.Answer? && Find(old(history), reply.config).None? ==> old(used) < budget
      ensures reply.Violation? ==>
                || !usedArg.Whole? || !noImproveArg.Whole? || !historyArg.Mapping?
                || !Understood(r)
                || (old(used) >= budget && forall e :: e in old(history) ==> !Mappable(r, e.config))
    {
      hide TraceOk;
      hide Find;
      hide MapsToConfig;
      hide AllFar;
      if !usedArg.Whole? || !noImproveArg.Whole? || !historyArg.Mapping? { return Violation; }
      var mapped := Nearest(root, dataset, r);
      if mapped.None? { return Violation; }
      var m := mapped.value;
      MappedDimension(root, dataset, r, m);
      BestIsKnown(|dataset.kinds|, budget, used, best, bestConfig, history, trajectory);
      var duplicate := Find(history, m.config).Some?;
      if duplicate {
        noImprove := noImprove + 1;
      } else {
        if used >= budget {
          NoneMappable(root, dataset, r, m, history);
          return Violation;
        }
        TraceGrows(|dataset.kinds|, budget, used, best, bestConfig, history, trajectory, Evaluation(m.config, m.score));
        history := history + [Evaluation(m.config, m.score)];
        used := used + 1;
        if best.None? || m.score < best.value {
          best, bestConfig, noImprove := Some(m.score), Some(m.config), 0;
        } else {
          noImprove := noImprove + 1;
        }
        trajectory := trajectory + [best.value];
      }
      var requested := PlainConfig(r, |dataset.kinds|);
      calls := calls + [Call(requested.value, m, duplicate, used, best.value)];
      reply := Answer(used, noImprove, best.value, m.score, m.config);
    }

    /** The request is well formed and not infinitely far from every configuration. */
    ghost predicate Understood(r: Requested)
      requires Usable(dataset)
      reads this
    {
      var c := PlainConfig(r, |dataset.kinds|);
      c.Some? && (c.value in dataset.configurations || !AllFar(root, dataset, c.value))
    }

    /** The request is mapped to this configuration. */
    ghost predicate Mappable(r: Requested, c: Config)
      requires Usable(dataset)
      reads this
    {
      MapsToConfig(root, dataset, r, c)
    }

    /** What `run_tuners` returned, checked against the trace. */
    method CheckedResult(returned: Returned) returns (record: Option<Record>)
      requires Valid()
      ensures record.Some? <==> used > 0 && returned.Finite? && IsClose(returned.value, best.value)
      ensures record.Some? ==>
                && record.value.objective == MinScore(history) && record.value.trajectory == trajectory
                && record.value.evaluated == Configs(history) && record.value.used == used
                && record.value.candidateReturn == returned.value
                && record.value.best in record.value.evaluated
      ensures record.Some? ==> Shows(record.value, budget) && ParseSuccess(record.value, budget, |dataset.kinds|).None?
    {
      if used <= 0 { return None; }
      if !returned.Finite? { return None; }
      if !IsClose(returned.value, best.value) { return None; }
      if |trajectory| != used { return None; }
      var k :| 0 <= k < |history| && history[k] == Evaluation(bestConfig.value, best.value);
      assert Configs(history)[k] == bestConfig.value;
      record := Some(Record(best.value, trajectory, Configs(history), bestConfig.value, used, returned.value));
      TraceIsAccepted(history, trajectory, record.value, budget, |dataset.kinds|);
    }
  }

  ghost predicate MapsToConfig(root: real -> real, d: Dataset, r: Requested, c: Config)
    requires Usable(d)
  {
    exists m :: MapsTo(root, d, r, m) && m.config == c
  }

  /** A request is mapped to one configuration only. */
  lemma MappedOnce(root: real -> real, d: Dataset, r: Requested, m: Mapped, n: Mapped)
    requires Usable(d) && MapsTo(root, d, r, m) && MapsTo(root, d, r, n)
    ensures m.config == n.config
  {
  }

  lemma NoneMappable(root: real -> real, d: Dataset, r: Requested, m: Mapped, history: seq<Evaluation>)
    requires Usable(d) && MapsTo(root, d, r, m) && Find(history, m.config).None?
    ensures forall e :: e in history ==> !MapsToConfig(root, d, r, e.config)
  {
    forall e | e in history ensures !MapsToConfig(root, d, r, e.config) {
      if MapsToConfig(root, d, r, e.config) {
        var n :| MapsTo(root, d, r, n) && n.config == e.config;
        MappedOnce(root, d, r, m, n);
        assert false;
      }
    }
  }

  lemma MappedDimension(root: real -> real, d: Dataset, r: Requested, m: Mapped)
    requires Usable(d) && MapsTo(root, d, r, m)
    ensures |m.config| == |d.kinds|
  {
  }

  lemma BestIsKnown(
    dimension: nat, budget: int, used: int, best: Option<real>, bestConfig: Option<Config>,
    history: seq<Evaluation>, trajectory: seq<real>)
    requires TraceOk(dimension, budget, used, best, bestConfig, history, trajectory)
    ensures best.None? <==> history == []
    ensures forall c :: Find(history, c).Some? ==> best.Some?
  {
  }

  lemma ExtendMinimum(history: seq<Evaluation>, trajectory: seq<real>, e: Evaluation)
    requires RunningMinimum(history, trajectory)
    ensures var next := history + [e];
            && MinScore(next) == (if history == [] || e.score < MinScore(history) then e.score else MinScore(history))
            && RunningMinimum(next, trajectory + [MinScore(next)])
  {
    var next := history + [e];
    assert next[..|history|] == history;
    forall i | 0 <= i < |next| ensures (trajectory + [MinScore(next)])[i] == MinScore(next[..i + 1]) {
      if i < |history| {
        assert next[..i + 1] == history[..i + 1];
      } else {
        assert next[..i + 1] == next;
      }
    }
  }

  // ---------------------------------------------------------------- reporting and validation

  datatype Returned = NotANumber | Infinite | Finite(value: real)

  datatype Record = Record(
    objective: real, trajectory: seq<real>, evaluated: seq<Config>, best: Config, used: int, candidateReturn: real)

  datatype Fault = BadBudget | BadCover | BadDimension | BadReturn | BadBest | Worsening

  function Abs(x: real): real {
    if x < 0.0 then -x else x
  }

  function Larger(x: real, y: real): real {
    if x < y then y else x
  }

  /** Closeness within a relative or an absolute tolerance of 1e-12. */
  predicate IsClose(a: real, b: real) {
    Abs(a - b) <= Larger(TOLERANCE * Larger(Abs(a), Abs(b)), TOLERANCE)
  }

  const TOLERANCE := 0.000000000001

  function Configs(history: seq<Evaluation>): (c: seq<Config>)
    ensures |c| == |history| && forall k :: 0 <= k < |c| ==> c[k] == history[k].config
  {
    seq(|history|, k requires 0 <= k < |history| => history[k].config)
  }

  function Least(s: seq<real>): (m: real)
    requires s != []
    ensures m in s && forall k :: 0 <= k < |s| ==> m <= s[k]
  {
    if |s| == 1 then s[0]
    else
      var before := Least(s[..|s| - 1]);
      if s[|s| - 1] < before then s[|s| - 1] else before
  }

  /** The validation in the parent process; `None` is acceptance. */
  function ParseSuccess(r: Record, budget: int, dimension: nat): Option<Fault> {
    if r.used <= 0 || r.used > budget then Some(BadBudget)
    else if |r.trajectory| != r.used || |r.evaluated| != r.used then Some(BadCover)
    else if |r.best| != dimension || exists k :: 0 <= k < |r.evaluated| && |r.evaluated[k]| != dimension
      then Some(BadDimension)
    else if !IsClose(r.objective, r.candidateReturn) then Some(BadReturn)
    else if !IsClose(r.objective, Least(r.trajectory)) then Some(BadBest)
    else if exists k :: 0 <= k < |r.trajectory| - 1 && r.trajectory[k + 1] > r.trajectory[k] + TOLERANCE
      then Some(Worsening)
    else None
  }

  /** The difference is at most a millionth of a millionth of the larger number, or of one. */
  lemma CloseIff(a: real, b: real)
    ensures IsClose(a, b) <==> a == b || Abs(a - b) <= 0.000000000001 * Larger(1.0, Larger(Abs(a), Abs(b)))
  {
  }

  /** What acceptance by the parent means. */
  lemma AcceptedIff(r: Record, budget: int, dimension: nat)
    ensures ParseSuccess(r, budget, dimension).None? <==>
            && 0 < r.used <= budget && |r.trajectory| == r.used && |r.evaluated| == r.used
            && |r.best| == dimension && (forall k :: 0 <= k < |r.evaluated| ==> |r.evaluated[k]| == dimension)
            && IsClose(r.objective, r.candidateReturn) && IsClose(r.objective, Least(r.trajectory))
            && (forall k :: 0 <= k < |r.trajectory| - 1 ==> r.trajectory[k + 1] <= r.trajectory[k] + 0.000000000001)
  {
    hide IsClose;
  }

  lemma CloseIsSymmetric(a: real, b: real)
    ensures IsClose(a, b) <==> IsClose(b, a)
    ensures IsClose(a, a)
  {
  }

  lemma {:induction false} LaterIsLower(history: seq<Evaluation>, i: nat, j: nat)
    requires 0 < i <= j <= |history|
    ensures MinScore(history[..j]) <= MinScore(history[..i])
  {
    if i < j {
      LaterIsLower(history, i, j - 1);
      assert history[..j][..j - 1] == history[..j - 1];
    }
  }

  lemma RunningFacts(history: seq<Evaluation>, trajectory: seq<real>)
    requires RunningMinimum(history, trajectory) && history != []
    ensures trajectory[|trajectory| - 1] == MinScore(history)
    ensures forall k :: 0 <= k < |trajectory| ==> MinScore(history) <= trajectory[k]
    ensures forall k :: 0 <= k < |trajectory| - 1 ==> trajectory[k + 1] <= trajectory[k]
  {
    var n := |history|;
    assert history[..n] == history;
    forall k | 0 <= k < n ensures MinScore(history) <= trajectory[k] { LaterIsLower(history, k + 1, n); }
    forall k | 0 <= k < n - 1 ensures trajectory[k + 1] <= trajectory[k] { LaterIsLower(history, k + 1, k + 2); }
  }

  lemma SameLength(history: seq<Evaluation>, trajectory: seq<real>)
    requires RunningMinimum(history, trajectory)
    ensures |trajectory| == |history|
  {
  }

  /** What a record shows: distinct evaluations within the budget and a trajectory that never rises. */
  predicate Shows(r: Record, budget: int) {
    && 0 < r.used == |r.evaluated| == |r.trajectory| <= budget
    && (forall i, j :: 0 <= i < j < |r.evaluated| ==> r.evaluated[i] != r.evaluated[j])
    && (forall i :: 0 <= i < |r.trajectory| - 1 ==> r.trajectory[i + 1] <= r.trajectory[i])
    && r.best in r.evaluated && r.objective == r.trajectory[|r.trajectory| - 1]
  }

  /** A running minimum, honestly reported, passes every check of the parent. */
  lemma TraceIsAccepted(history: seq<Evaluation>, trajectory: seq<real>, r: Record, budget: int, dimension: nat)
    requires RunningMinimum(history, trajectory) && DistinctConfigs(history) && 0 < |history| <= budget
    requires forall k :: 0 <= k < |history| ==> |history[k].config| == dimension
    requires r.objective == MinScore(history) && r.trajectory == trajectory && r.evaluated == Configs(history)
    requires r.best in r.evaluated && r.used == |history| && IsClose(r.candidateReturn, r.objective)
    ensures Shows(r, budget) && ParseSuccess(r, budget, dimension).None?
  {
    hide RunningMinimum;
    hide MinScore;
    hide ParseSuccess;
    hide IsClose;
    CloseIsSymmetric(r.candidateReturn, r.objective);
    CloseIsSymmetric(r.objective, r.objective);
    SameLength(history, trajectory);
    RunningFacts(history, trajectory);
    var evaluated := r.evaluated;
    forall i, j | 0 <= i < j < |evaluated| ensures evaluated[i] != evaluated[j] {
      assert evaluated[i] == history[i].config && evaluated[j] == history[j].config;
    }
    ShownIsAccepted(r, budget, dimension);
  }

  lemma ShownIsAccepted(r: Record, budget: int, dimension: nat)
    requires Shows(r, budget) && forall k :: 0 <= k < |r.evaluated| ==> |r.evaluated[k]| == dimension
    requires IsClose(r.objective, r.candidateReturn) && IsClose(r.objective, r.objective)
    requires forall k :: 0 <= k < |r.trajectory| ==> r.objective <= r.trajectory[k]
    ensures ParseSuccess(r, budget, dimension).None?
  {
    hide IsClose;
    var least := Least(r.trajectory);
    assert least == r.objective;
  }

  // ---------------------------------------------------------------- an arbitrary candidate

  datatype Request = Request(used: Argument, noImprove: Argument, history: Argument, config: Requested)

  /**
   * Any candidate: any sequence of calls and any returned value. If anything is reported,
   * the parent accepts it, and it shows between one and `budget` distinct evaluations with
   * their running minimum.
   */
  method RunCandidate(root: real -> real, dataset: Dataset, budget: int, script: seq<Request>, returned: Returned)
    returns (record: Option<Record>, ghost history: seq<Evaluation>)
    requires Usable(dataset)
    ensures record.Some? ==> Shows(record.value, budget) && ParseSuccess(record.value, budget, |dataset.kinds|).None?
    ensures record.Some? <==> history != [] && returned.Finite? && IsClose(returned.value, MinScore(history))
    ensures record.Some? ==> record.value.evaluated == Configs(history) && record.value.objective == MinScore(history)
    ensures script != [] && Acceptable(root, dataset, script[0]) && 0 < budget ==> history != []
  {
    hide TraceOk;
    hide AllFar;
    hide IsClose;
    hide ParseSuccess;
    hide Shows;
    var trace := new Trace(root, dataset, budget);
    for k := 0 to |script|
      invariant trace.Valid() && trace.root == root && trace.dataset == dataset && trace.budget == budget
      invariant k == 0 ==> trace.history == []
      invariant 0 < k && Acceptable(root, dataset, script[0]) && 0 < budget ==> trace.history != []
    {
      UsedIsLength(trace);
      var reply := trace.Evaluate(script[k].used, script[k].noImprove, script[k].history, script[k].config);
    }
    UsedIsLength(trace);
    history := trace.history;
    record := trace.CheckedResult(returned);
  }

  /** A call in the reference form whose configuration can be mapped. */
  predicate Acceptable(root: real -> real, d: Dataset, q: Request)
    requires Usable(d)
  {
    var c := PlainConfig(q.config, |d.kinds|);
    && q.used.Whole? && q.noImprove.Whole? && q.history.Mapping?
    && c.Some? && (c.value in d.configurations || !AllFar(root, d, c.value))
  }

  lemma UsedIsLength(trace: Trace)
    requires trace.Valid()
    ensures trace.used == |trace.history| && (trace.history != [] ==> trace.best == Some(MinScore(trace.history)))
  {
  }
}
