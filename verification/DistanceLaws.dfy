/**
 * What the distance between configurations measures: numeric differences as shares of their
 * parameter's range, so that units do not matter, and one for every categorical difference.
 */
module DistanceLaws {
  import opened Common
  import opened EvaluationTrace

  // ---------------------------------------------------------------- one numeric parameter

  /** The two ends of a range are one apart, equal numbers and constant columns nothing. */
  lemma RangeIsOne(low: real, high: real, x: real, y: real)
    ensures low != high ==> SquaredGap(low, high, low, high) == 1.0 && SquaredGap(low, high, high, low) == 1.0
    ensures SquaredGap(low, high, x, x) == 0.0
    ensures low == high ==> SquaredGap(low, high, x, y) == 0.0
  {
    if low != high {
      var s := high - low;
      assert s / s == 1.0;
      SameQuotient(low - high, s, -1.0);
    }
  }

  lemma SameQuotient(x: real, y: real, q: real)
    requires y != 0.0 && x == q * y
    ensures x / y == q
  {
  }

  /** Half of the range is a quarter of the squared gap, and so on for every share. */
  lemma ShareOfRange(low: real, high: real, x: real, share: real)
    requires low != high
    ensures SquaredGap(low, high, x + share * (high - low), x) == share * share
    ensures SquaredGap(low, high, x, x + share * (high - low)) == share * share
  {
    var s := high - low;
    SameQuotient(share * s, s, share);
    SameQuotient(-(share * s), s, -share);
  }

  /** The range of a column in other units; a negative factor swaps its ends. */
  function MovedKind(kind: Kind, a: real, b: real): Kind {
    match kind
    case Numeric(low, high) =>
      if a > 0.0 then Numeric(a * low + b, a * high + b) else Numeric(a * high + b, a * low + b)
    case Categorical => Categorical
  }

  lemma GapIgnoresUnits(low: real, high: real, x: real, y: real, a: real, b: real)
    requires a != 0.0
    ensures var moved := MovedKind(Numeric(low, high), a, b);
            SquaredGap(moved.low, moved.high, a * x + b, a * y + b) == SquaredGap(low, high, x, y)
  {
    var moved := MovedKind(Numeric(low, high), a, b);
    var s := high - low;
    if s == 0.0 {
      assert moved.low == moved.high;
    } else {
      var q := (x - y) / s;
      assert x - y == q * s;
      Distributes(a, x, y, b);
      Distributes(a, high, low, b);
      if a > 0.0 {
        assert moved.high - moved.low == a * s;
        Reorder(a, q, s);
        NonZero(a, s);
        SameQuotient((a * x + b) - (a * y + b), a * s, q);
      } else {
        assert moved.high - moved.low == -(a * s);
        Reorder(a, q, s);
        NonZero(a, s);
        SameQuotient((a * x + b) - (a * y + b), -(a * s), -q);
      }
    }
  }

  lemma Distributes(a: real, x: real, y: real, b: real)
    ensures (a * x + b) - (a * y + b) == a * (x - y)
  {
  }

  lemma Reorder(a: real, q: real, s: real)
    ensures a * (q * s) == q * (a * s) == (-q) * -(a * s)
  {
  }

  lemma NonZero(a: real, s: real)
    requires a != 0.0 && s != 0.0
    ensures a * s != 0.0
  {
  }

  // ---------------------------------------------------------------- a whole configuration

  function MovedValue(v: Value, a: real, b: real): Value {
    if v.Number? then Number(a * v.number + b) else v
  }

  function MovedConfig(c: Config, k: nat, a: real, b: real): (m: Config)
    ensures |m| == |c|
  {
    if k < |c| then c[k := MovedValue(c[k], a, b)] else c
  }

  function MovedKinds(kinds: seq<Kind>, k: nat, a: real, b: real): (m: seq<Kind>)
    ensures |m| == |kinds|
  {
    if k < |kinds| then kinds[k := MovedKind(kinds[k], a, b)] else kinds
  }

  lemma GapOfMoved(kind: Kind, v: Value, w: Value, a: real, b: real)
    requires kind.Numeric? && v.Number? && w.Number? && a != 0.0
    ensures var moved := MovedKind(kind, a, b);
            SquaredGap(moved.low, moved.high, MovedValue(v, a, b).number, MovedValue(w, a, b).number) ==
            SquaredGap(kind.low, kind.high, v.number, w.number)
  {
    GapIgnoresUnits(kind.low, kind.high, v.number, w.number, a, b);
  }

  lemma {:induction false} NumericIgnoresUnits(kinds: seq<Kind>, left: Config, right: Config, n: nat, k: nat, a: real, b: real)
    requires n <= |kinds| && |left| == |kinds| && Aligned(kinds, right) && k < |kinds| && kinds[k].Numeric? && a != 0.0
    ensures Aligned(MovedKinds(kinds, k, a, b), MovedConfig(right, k, a, b))
    ensures NumericSquared(MovedKinds(kinds, k, a, b), MovedConfig(left, k, a, b), MovedConfig(right, k, a, b), n) ==
            NumericSquared(kinds, left, right, n)
  {
    hide SquaredGap;
    if n > 0 {
      NumericIgnoresUnits(kinds, left, right, n - 1, k, a, b);
      if n - 1 == k && left[k].Number? {
        GapOfMoved(kinds[k], left[k], right[k], a, b);
      }
    }
  }

  lemma {:induction false} MismatchesIgnoreUnits(kinds: seq<Kind>, left: Config, right: Config, n: nat, k: nat, a: real, b: real)
    requires n <= |kinds| && |left| == |kinds| == |right| && k < |kinds| && kinds[k].Numeric?
    ensures Mismatches(MovedKinds(kinds, k, a, b), MovedConfig(left, k, a, b), MovedConfig(right, k, a, b), n) ==
            Mismatches(kinds, left, right, n)
  {
    if n > 0 { MismatchesIgnoreUnits(kinds, left, right, n - 1, k, a, b); }
  }

  /** Every categorical difference counts once. */
  lemma {:induction false} MismatchesCount(kinds: seq<Kind>, left: Config, right: Config, n: nat)
    requires n <= |kinds| && |left| == |kinds| == |right|
    ensures Mismatches(kinds, left, right, n) == |Differing(kinds, left, right, n)|
  {
    if n > 0 {
      MismatchesCount(kinds, left, right, n - 1);
      var before := Differing(kinds, left, right, n - 1);
      assert Differing(kinds, left, right, n) ==
             if kinds[n - 1].Categorical? && left[n - 1] != right[n - 1] then before + {n - 1} else before;
    }
  }

  ghost function Differing(kinds: seq<Kind>, left: Config, right: Config, n: nat): set<nat>
    requires n <= |kinds| && |left| == |kinds| == |right|
  {
    set k: nat | k < n && kinds[k].Categorical? && left[k] != right[k]
  }

  /** A request is infinitely far from everything exactly if it lacks a number where one belongs. */
  lemma {:induction false} FarIff(kinds: seq<Kind>, left: Config, right: Config, n: nat)
    requires n <= |kinds| && |left| == |kinds| && Aligned(kinds, right)
    ensures NumericSquared(kinds, left, right, n).None? <==> exists k :: 0 <= k < n && kinds[k].Numeric? && !left[k].Number?
  {
    if n > 0 { FarIff(kinds, left, right, n - 1); }
  }

  /** Squared gaps add up: setting one number right takes exactly its own share away. */
  lemma {:induction false} GapsAdd(kinds: seq<Kind>, left: Config, right: Config, n: nat, k: nat)
    requires n <= |kinds| && |left| == |kinds| && Aligned(kinds, right) && k < n && kinds[k].Numeric?
    requires NumericSquared(kinds, left, right, n).Some? && left[k].Number?
    ensures NumericSquared(kinds, left[k := right[k]], right, n) ==
            Some(NumericSquared(kinds, left, right, n).value -
                 SquaredGap(kinds[k].low, kinds[k].high, left[k].number, right[k].number))
  {
    hide SquaredGap;
    var i := n - 1;
    if k < i {
      GapsAdd(kinds, left, right, i, k);
    } else {
      SamePrefix(kinds, left, left[k := right[k]], right, i);
      RangeIsOne(kinds[k].low, kinds[k].high, right[k].number, right[k].number);
    }
  }

  lemma {:induction false} SamePrefix(kinds: seq<Kind>, left: Config, other: Config, right: Config, n: nat)
    requires n <= |kinds| && |left| == |other| == |kinds| && Aligned(kinds, right)
    requires forall i :: 0 <= i < n ==> left[i] == other[i]
    ensures NumericSquared(kinds, left, right, n) == NumericSquared(kinds, other, right, n)
  {
    if n > 0 { SamePrefix(kinds, left, other, right, n - 1); }
  }

  /** Equal configurations have only the root of nothing between them. */
  lemma {:induction false} NoGapToItself(kinds: seq<Kind>, c: Config, n: nat)
    requires n <= |kinds| && Aligned(kinds, c)
    ensures NumericSquared(kinds, c, c, n) == Some(0.0) && Mismatches(kinds, c, c, n) == 0
  {
    hide SquaredGap;
    if n > 0 {
      NoGapToItself(kinds, c, n - 1);
      if kinds[n - 1].Numeric? { RangeIsOne(kinds[n - 1].low, kinds[n - 1].high, c[n - 1].number, c[n - 1].number); }
    }
  }

  /** Two configurations that differ in one parameter only. */
  lemma OneDifference(root: real -> real, kinds: seq<Kind>, left: Config, right: Config, k: nat)
    requires |left| == |kinds| && Aligned(kinds, right) && k < |kinds| && left == right[k := left[k]] && left[k] != right[k]
    ensures kinds[k].Categorical? ==> Distance(root, kinds, left, right) == Some(root(0.0) + 1.0)
    ensures kinds[k].Numeric? && left[k].Number? ==>
              Distance(root, kinds, left, right) ==
              Some(root(SquaredGap(kinds[k].low, kinds[k].high, left[k].number, right[k].number)))
    ensures kinds[k].Numeric? && !left[k].Number? ==> Distance(root, kinds, left, right).None?
  {
    hide SquaredGap;
    FarIff(kinds, left, right, |kinds|);
    NoGapToItself(kinds, right, |kinds|);
    MismatchesCount(kinds, left, right, |kinds|);
    if kinds[k].Categorical? {
      OnlyCategorical(kinds, left, right, |kinds|, k);
      assert Differing(kinds, left, right, |kinds|) == {k};
    } else if left[k].Number? {
      GapsAdd(kinds, left, right, |kinds|, k);
      assert left[k := right[k]] == right;
      assert Differing(kinds, left, right, |kinds|) == {};
    }
  }

  lemma {:induction false} OnlyCategorical(kinds: seq<Kind>, left: Config, right: Config, n: nat, k: nat)
    requires n <= |kinds| && |left| == |kinds| && Aligned(kinds, right) && k < |kinds| && kinds[k].Categorical?
    requires forall i :: 0 <= i < |kinds| && i != k ==> left[i] == right[i]
    ensures NumericSquared(kinds, left, right, n) == NumericSquared(kinds, right, right, n)
  {
    if n > 0 { OnlyCategorical(kinds, left, right, n - 1, k); }
  }

  // ---------------------------------------------------------------- the mapped row

  /** A data set with one numeric column in other units. */
  function MovedDataset(d: Dataset, k: nat, a: real, b: real): (m: Dataset)
    ensures |m.configurations| == |d.configurations| && m.objectives == d.objectives && |m.kinds| == |d.kinds|
    ensures forall i :: 0 <= i < |d.configurations| ==> m.configurations[i] == MovedConfig(d.configurations[i], k, a, b)
  {
    Dataset(
      MovedKinds(d.kinds, k, a, b),
      seq(|d.configurations|, i requires 0 <= i < |d.configurations| => MovedConfig(d.configurations[i], k, a, b)),
      d.objectives)
  }

  lemma MovedIsUsable(d: Dataset, k: nat, a: real, b: real)
    requires Usable(d) && k < |d.kinds| && d.kinds[k].Numeric?
    ensures Usable(MovedDataset(d, k, a, b))
  {
    var m := MovedDataset(d, k, a, b);
    forall i | 0 <= i < |m.configurations| ensures Aligned(m.kinds, m.configurations[i]) {
      assert Aligned(d.kinds, d.configurations[i]);
    }
  }

  lemma DistanceIgnoresUnits(root: real -> real, d: Dataset, c: Config, i: nat, k: nat, a: real, b: real)
    requires Usable(d) && |c| == |d.kinds| && i < |d.configurations| && k < |d.kinds| && d.kinds[k].Numeric? && a != 0.0
    ensures Usable(MovedDataset(d, k, a, b))
    ensures DistanceTo(root, MovedDataset(d, k, a, b), MovedConfig(c, k, a, b), i) == DistanceTo(root, d, c, i)
  {
    MovedIsUsable(d, k, a, b);
    assert Aligned(d.kinds, d.configurations[i]);
    NumericIgnoresUnits(d.kinds, c, d.configurations[i], |d.kinds|, k, a, b);
    MismatchesIgnoreUnits(d.kinds, c, d.configurations[i], |d.kinds|, k, a, b);
  }

  lemma MovedApart(c: Config, e: Config, k: nat, a: real, b: real)
    requires |c| == |e| && a != 0.0
    ensures MovedConfig(c, k, a, b) == MovedConfig(e, k, a, b) <==> c == e
  {
    if k < |c| && MovedConfig(c, k, a, b) == MovedConfig(e, k, a, b) {
      var x, y := MovedConfig(c, k, a, b), MovedConfig(e, k, a, b);
      assert x[k] == y[k];
      if c[k].Number? && e[k].Number? {
        Distributes(a, c[k].number, e[k].number, b);
        if c[k].number != e[k].number { NonZero(a, c[k].number - e[k].number); }
      }
      forall i | 0 <= i < |c| ensures c[i] == e[i] { assert x[i] == y[i]; }
    }
  }

  /** Units do not decide which row a request is mapped to. */
  lemma FirstClosestIgnoresUnits(root: real -> real, d: Dataset, c: Config, i: nat, k: nat, a: real, b: real)
    requires Usable(d) && |c| == |d.kinds| && i < |d.configurations| && k < |d.kinds| && d.kinds[k].Numeric? && a != 0.0
    ensures Usable(MovedDataset(d, k, a, b))
    ensures FirstClosest(root, MovedDataset(d, k, a, b), MovedConfig(c, k, a, b), i, |d.configurations|) <==>
            FirstClosest(root, d, c, i, |d.configurations|)
  {
    hide DistanceTo;
    MovedIsUsable(d, k, a, b);
    var m, e := MovedDataset(d, k, a, b), MovedConfig(c, k, a, b);
    forall j | 0 <= j < |d.configurations| ensures DistanceTo(root, m, e, j) == DistanceTo(root, d, c, j) {
      DistanceIgnoresUnits(root, d, c, j, k, a, b);
    }
    DistanceIgnoresUnits(root, d, c, i, k, a, b);
  }

  /**
   * A data set with a column in other units maps the request in those units to the same row:
   * the same score, and the same configuration in those units.
   */
  lemma NearestIgnoresUnits(root: real -> real, d: Dataset, c: Config, m: Mapped, k: nat, a: real, b: real)
    requires Usable(d) && |c| == |d.kinds| && k < |d.kinds| && d.kinds[k].Numeric? && a != 0.0 && Maps(root, d, c, m)
    ensures Usable(MovedDataset(d, k, a, b))
    ensures Maps(root, MovedDataset(d, k, a, b), MovedConfig(c, k, a, b), m.(config := MovedConfig(m.config, k, a, b)))
  {
    hide FirstClosest;
    MovedIsUsable(d, k, a, b);
    var d', c' := MovedDataset(d, k, a, b), MovedConfig(c, k, a, b);
    forall i | 0 <= i < |d.configurations| ensures d'.configurations[i] == c' <==> d.configurations[i] == c {
      assert Aligned(d.kinds, d.configurations[i]);
      MovedApart(d.configurations[i], c, k, a, b);
    }
    if c in d.configurations {
      ExactIgnoresUnits(d, c, m, k, a, b);
    } else {
      var i :| 0 <= i < |d.configurations| && m.config == d.configurations[i] && m.score == d.objectives[i] &&
               FirstClosest(root, d, c, i, |d.configurations|);
      FirstClosestIgnoresUnits(root, d, c, i, k, a, b);
      assert d'.configurations[i] == MovedConfig(m.config, k, a, b);
    }
  }

  lemma ExactIgnoresUnits(d: Dataset, c: Config, m: Mapped, k: nat, a: real, b: real)
    requires Usable(d) && |c| == |d.kinds| && k < |d.kinds| && d.kinds[k].Numeric? && ExactMatch(d, c, m)
    requires Usable(MovedDataset(d, k, a, b))
    requires forall i :: 0 <= i < |d.configurations| ==>
      (MovedDataset(d, k, a, b).configurations[i] == MovedConfig(c, k, a, b) <==> d.configurations[i] == c)
    ensures MovedConfig(c, k, a, b) in MovedDataset(d, k, a, b).configurations
    ensures ExactMatch(MovedDataset(d, k, a, b), MovedConfig(c, k, a, b), m.(config := MovedConfig(m.config, k, a, b)))
  {
    var d' := MovedDataset(d, k, a, b);
    var i :| 0 <= i < |d.configurations| && d.configurations[i] == c && m.score == d.objectives[i] &&
             forall j :: i < j < |d.configurations| ==> d.configurations[j] != c;
    assert d'.configurations[i] == MovedConfig(c, k, a, b);
  }
}
