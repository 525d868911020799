/**
 * Loading a data set. What a parameter is, and its range, follow from the column of its
 * values, so a column in other units gives the same data set in other units.
 */
module DatasetLoading {
  import opened Common
  import opened EvaluationTrace
  import opened DistanceLaws

  // ---------------------------------------------------------------- what a column says

  predicate HasColumn(rows: seq<Config>, k: nat) {
    forall i :: 0 <= i < |rows| ==> k < |rows[i]|
  }

  predicate AllNumbers(rows: seq<Config>, k: nat)
    requires HasColumn(rows, k)
  {
    forall i :: 0 <= i < |rows| ==> rows[i][k].Number?
  }

  /** The least and the greatest number of a column. */
  predicate IsRange(rows: seq<Config>, k: nat, low: real, high: real)
    requires HasColumn(rows, k) && AllNumbers(rows, k)
  {
    && (exists i :: 0 <= i < |rows| && rows[i][k].number == low)
    && (exists i :: 0 <= i < |rows| && rows[i][k].number == high)
    && (forall i :: 0 <= i < |rows| ==> low <= rows[i][k].number <= high)
  }

  /** A parameter is numeric exactly if all its known values are numbers. */
  predicate IsKind(rows: seq<Config>, k: nat, kind: Kind)
    requires HasColumn(rows, k)
  {
    if AllNumbers(rows, k) then kind.Numeric? && IsRange(rows, k, kind.low, kind.high) else kind.Categorical?
  }

  predicate Loadable(rows: seq<Config>, objectives: seq<real>, dimension: nat) {
    rows != [] && |rows| == |objectives| && forall i :: 0 <= i < |rows| ==> |rows[i]| == dimension
  }

  predicate IsLoaded(rows: seq<Config>, objectives: seq<real>, dimension: nat, d: Dataset) {
    && Loadable(rows, objectives, dimension)
    && d.configurations == rows && d.objectives == objectives && |d.kinds| == dimension
    && forall k: nat :: k < dimension ==> HasColumn(rows, k) && IsKind(rows, k, d.kinds[k])
  }

  // ---------------------------------------------------------------- loading

  method NumericRange(rows: seq<Config>, k: nat) returns (low: real, high: real)
    requires rows != [] && HasColumn(rows, k) && AllNumbers(rows, k)
    ensures IsRange(rows, k, low, high)
  {
    low, high := rows[0][k].number, rows[0][k].number;
    for n := 1 to |rows|
      invariant exists i :: 0 <= i < n && rows[i][k].number == low
      invariant exists i :: 0 <= i < n && rows[i][k].number == high
      invariant forall i :: 0 <= i < n ==> low <= rows[i][k].number <= high
    {
      var x := rows[n][k].number;
      if x < low { low := x; }
      if high < x { high := x; }
    }
  }

  method InferKind(rows: seq<Config>, k: nat) returns (kind: Kind)
    requires rows != [] && HasColumn(rows, k)
    ensures IsKind(rows, k, kind)
  {
    for n := 0 to |rows|
      invariant forall i :: 0 <= i < n ==> rows[i][k].Number?
    {
      if !rows[n][k].Number? { return Categorical; }
    }
    var low, high := NumericRange(rows, k);
    kind := Numeric(low, high);
  }

  /** Refused exactly if there is no row, an objective is missing or left over, or a row has another length. */
  method Load(rows: seq<Config>, objectives: seq<real>, dimension: nat) returns (d: Option<Dataset>)
    ensures d.Some? <==> Loadable(rows, objectives, dimension)
    ensures d.Some? ==> IsLoaded(rows, objectives, dimension, d.value) && Usable(d.value)
  {
    if rows == [] || |rows| != |objectives| { return None; }
    for n := 0 to |rows|
      invariant forall i :: 0 <= i < n ==> |rows[i]| == dimension
    {
      if |rows[n]| != dimension { return None; }
    }
    var kinds: seq<Kind> := [];
    for n := 0 to dimension
      invariant |kinds| == n
      invariant forall k: nat :: k < n ==> HasColumn(rows, k) && IsKind(rows, k, kinds[k])
    {
      var kind := InferKind(rows, n);
      kinds := kinds + [kind];
    }
    var loaded := Dataset(kinds, rows, objectives);
    LoadedIsUsable(rows, objectives, dimension, loaded);
    d := Some(loaded);
  }

  lemma LoadedIsUsable(rows: seq<Config>, objectives: seq<real>, dimension: nat, d: Dataset)
    requires IsLoaded(rows, objectives, dimension, d)
    ensures Usable(d)
  {
    forall i | 0 <= i < |rows| ensures Aligned(d.kinds, rows[i]) {
      forall k: nat | k < dimension && d.kinds[k].Numeric? ensures rows[i][k].Number? {
        assert IsKind(rows, k, d.kinds[k]);
      }
    }
  }

  /** The rows determine the data set. */
  lemma LoadedOnce(rows: seq<Config>, objectives: seq<real>, dimension: nat, d: Dataset, e: Dataset)
    requires IsLoaded(rows, objectives, dimension, d) && IsLoaded(rows, objectives, dimension, e)
    ensures d == e
  {
    forall k: nat | k < dimension ensures d.kinds[k] == e.kinds[k] {
      assert IsKind(rows, k, d.kinds[k]) && IsKind(rows, k, e.kinds[k]);
    }
    assert d.kinds == e.kinds;
  }

  // ---------------------------------------------------------------- distances between rows

  /** No two known values of a parameter are further apart than one, and some two are, unless all are equal. */
  lemma RowsAreWithinOne(rows: seq<Config>, objectives: seq<real>, dimension: nat, d: Dataset, k: nat)
    requires IsLoaded(rows, objectives, dimension, d) && k < dimension && d.kinds[k].Numeric?
    ensures HasColumn(rows, k) && AllNumbers(rows, k)
    ensures forall i, j :: 0 <= i < |rows| && 0 <= j < |rows| ==>
              0.0 <= SquaredGap(d.kinds[k].low, d.kinds[k].high, rows[i][k].number, rows[j][k].number) <= 1.0
    ensures exists i, j :: 0 <= i < |rows| && 0 <= j < |rows| &&
              SquaredGap(d.kinds[k].low, d.kinds[k].high, rows[i][k].number, rows[j][k].number) ==
              (if forall l :: 0 <= l < |rows| ==> rows[l][k] == rows[0][k] then 0.0 else 1.0)
  {
    hide SquaredGap;
    var low, high := d.kinds[k].low, d.kinds[k].high;
    assert IsKind(rows, k, d.kinds[k]);
    forall i, j | 0 <= i < |rows| && 0 <= j < |rows|
      ensures 0.0 <= SquaredGap(low, high, rows[i][k].number, rows[j][k].number) <= 1.0
    {
      GapWithinRange(low, high, rows[i][k].number, rows[j][k].number);
    }
    var i :| 0 <= i < |rows| && rows[i][k].number == low;
    var j :| 0 <= j < |rows| && rows[j][k].number == high;
    RangeIsOne(low, high, low, high);
    assert SquaredGap(low, high, rows[i][k].number, rows[j][k].number) == if low == high then 0.0 else 1.0;
  }

  lemma GapWithinRange(low: real, high: real, x: real, y: real)
    requires low <= x <= high && low <= y <= high
    ensures 0.0 <= SquaredGap(low, high, x, y) <= 1.0
  {
    if low != high {
      var s := high - low;
      var share := (x - y) / s;
      assert share * s == x - y;
      assert y + share * (high - low) == x;
      ShareOfRange(low, high, y, share);
      assert -s <= x - y <= s;
      SquareWithinOne(share, s, x - y);
    }
  }

  lemma SquareWithinOne(q: real, s: real, d: real)
    requires s > 0.0 && d == q * s && -s <= d <= s
    ensures 0.0 <= q * q <= 1.0
  {
    if q > 1.0 { Outgrows(q, s); }
    if q < -1.0 { Outgrows(-q, s); }
  }

  lemma Outgrows(q: real, s: real)
    requires s > 0.0 && q > 1.0
    ensures q * s > s
  {
  }

  // ---------------------------------------------------------------- other units

  function MovedRows(rows: seq<Config>, k: nat, a: real, b: real): (m: seq<Config>)
    ensures |m| == |rows|
    ensures forall i :: 0 <= i < |rows| ==> m[i] == MovedConfig(rows[i], k, a, b)
  {
    seq(|rows|, i requires 0 <= i < |rows| => MovedConfig(rows[i], k, a, b))
  }

  lemma MovedRange(rows: seq<Config>, k: nat, low: real, high: real, a: real, b: real)
    requires HasColumn(rows, k) && AllNumbers(rows, k) && IsRange(rows, k, low, high) && a != 0.0
    ensures var m, kind := MovedRows(rows, k, a, b), MovedKind(Numeric(low, high), a, b);
            HasColumn(m, k) && AllNumbers(m, k) && IsRange(m, k, kind.low, kind.high)
  {
    hide MovedKind;
    hide MovedValue;
    var m: seq<Config> := MovedRows(rows, k, a, b);
    var kind := MovedKind(Numeric(low, high), a, b);
    MovedEnds(low, high, a, b);
    forall i | 0 <= i < |rows| ensures m[i][k].Number? && kind.low <= m[i][k].number <= kind.high {
      MovedWithin(low, high, rows[i][k], a, b);
    }
    var i :| 0 <= i < |rows| && rows[i][k].number == low;
    var j :| 0 <= j < |rows| && rows[j][k].number == high;
    assert rows[i][k] == Number(low) && rows[j][k] == Number(high);
  }

  lemma MovedEnds(low: real, high: real, a: real, b: real)
    ensures var kind, v, w := MovedKind(Numeric(low, high), a, b), MovedValue(Number(low), a, b), MovedValue(Number(high), a, b);
            kind.Numeric? && ((Number(kind.low) == v && Number(kind.high) == w) || (Number(kind.low) == w && Number(kind.high) == v))
  {
  }

  lemma MovedWithin(low: real, high: real, v: Value, a: real, b: real)
    requires v.Number? && low <= v.number <= high && a != 0.0
    ensures MovedKind(Numeric(low, high), a, b).Numeric? && MovedValue(v, a, b).Number?
    ensures var kind := MovedKind(Numeric(low, high), a, b); kind.low <= MovedValue(v, a, b).number <= kind.high
  {
    var x := v.number;
    Monotone(a, b, low, x);
    Monotone(a, b, x, high);
    assert MovedValue(v, a, b) == Number(a * x + b);
    if a > 0.0 {
      assert MovedKind(Numeric(low, high), a, b) == Numeric(a * low + b, a * high + b);
    } else {
      assert a * high + b <= a * x + b <= a * low + b;
    }
  }

  lemma Monotone(a: real, b: real, x: real, y: real)
    requires x <= y
    ensures a > 0.0 ==> a * x + b <= a * y + b
    ensures a < 0.0 ==> a * y + b <= a * x + b
  {
  }

  /** Loading rows with one numeric column in other units gives the data set in those units. */
  lemma LoadedInOtherUnits(rows: seq<Config>, objectives: seq<real>, dimension: nat, d: Dataset, k: nat, a: real, b: real)
    requires IsLoaded(rows, objectives, dimension, d) && k < dimension && d.kinds[k].Numeric? && a != 0.0
    ensures IsLoaded(MovedRows(rows, k, a, b), objectives, dimension, MovedDataset(d, k, a, b))
  {
    var m, e := MovedRows(rows, k, a, b), MovedDataset(d, k, a, b);
    forall j: nat | j < dimension ensures HasColumn(m, j) && IsKind(m, j, e.kinds[j]) {
      assert IsKind(rows, j, d.kinds[j]);
      if j == k {
        MovedRange(rows, k, d.kinds[k].low, d.kinds[k].high, a, b);
      } else {
        SameColumn(rows, k, j, d.kinds[j], a, b);
      }
    }
    assert e.configurations == m;
  }

  lemma SameColumn(rows: seq<Config>, k: nat, j: nat, kind: Kind, a: real, b: real)
    requires HasColumn(rows, j) && IsKind(rows, j, kind) && j != k
    ensures HasColumn(MovedRows(rows, k, a, b), j) && IsKind(MovedRows(rows, k, a, b), j, kind)
  {
    var m := MovedRows(rows, k, a, b);
    assert forall i :: 0 <= i < |rows| ==> j < |m[i]| && m[i][j] == rows[i][j];
    if AllNumbers(rows, j) {
      var low :| 0 <= low < |rows| && rows[low][j].number == kind.low;
      var high :| 0 <= high < |rows| && rows[high][j].number == kind.high;
      assert m[low][j].number == kind.low && m[high][j].number == kind.high;
    }
  }

  /**
   * So whoever loads the data in other units maps a request in those units to the same row,
   * with the same score.
   */
  lemma ScoreIgnoresUnits(
    root: real -> real, rows: seq<Config>, objectives: seq<real>, dimension: nat, d: Dataset, e: Dataset,
    c: Config, m: Mapped, k: nat, a: real, b: real)
    requires IsLoaded(rows, objectives, dimension, d) && k < dimension && d.kinds[k].Numeric? && a != 0.0
    requires IsLoaded(MovedRows(rows, k, a, b), objectives, dimension, e)
    requires Usable(d) && |c| == dimension && Maps(root, d, c, m)
    ensures Usable(e) && Maps(root, e, MovedConfig(c, k, a, b), m.(config := MovedConfig(m.config, k, a, b)))
  {
    hide Maps;
    hide IsLoaded;
    hide Loadable;
    KindsOfLoaded(rows, objectives, dimension, d);
    LoadedInOtherUnits(rows, objectives, dimension, d, k, a, b);
    LoadedOnce(MovedRows(rows, k, a, b), objectives, dimension, MovedDataset(d, k, a, b), e);
    NearestIgnoresUnits(root, d, c, m, k, a, b);
  }

  lemma KindsOfLoaded(rows: seq<Config>, objectives: seq<real>, dimension: nat, d: Dataset)
    requires IsLoaded(rows, objectives, dimension, d)
    ensures |d.kinds| == dimension
  {
  }
}
