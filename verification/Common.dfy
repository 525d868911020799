/** Vocabulary shared by every module: identifiers, options, and totals over tables. */
module Common {

  /** An opaque identifier. Only equality, and the order used by an SQL `ORDER BY id`, matter. */
  type Id = nat

  datatype Option<+T> = None | Some(value: T)

  function Min(a: int, b: int): int {
    if a <= b then a else b
  }

  function Max(a: int, b: int): int {
    if a <= b then b else a
  }

  function Pow2(n: nat): (p: nat)
    ensures p >= 1
  {
    if n == 0 then 1 else 2 * Pow2(n - 1)
  }

  /** The list with one more element at a position. */
  function Inserted<T>(s: seq<T>, at: nat, v: T): (t: seq<T>)
    requires at <= |s|
    ensures |t| == |s| + 1
    ensures forall i :: 0 <= i < |t| ==> t[i] == if i < at then s[i] else if i == at then v else s[i - 1]
  {
    s[..at] + [v] + s[at..]
  }

  /** Sum of the values of a table column; the order of the rows does not matter. */
  ghost function Total<K>(m: map<K, int>): int
    decreases |m|
  {
    if |m| == 0 then 0
    else
      var k := AnyKey(m);
      DropShrinks(m, k);
      m[k] + Total(m - {k})
  }

  ghost function AnyKey<K>(m: map<K, int>): (k: K)
    requires |m| != 0
    ensures k in m
  {
    assert |m.Keys| != 0;
    var k :| k in m;
    k
  }

  lemma DropShrinks<K>(m: map<K, int>, k: K)
    requires k in m
    ensures |m - {k}| == |m| - 1
  {
    assert (m - {k}).Keys == m.Keys - {k};
    assert |m| == |m.Keys| && |m - {k}| == |(m - {k}).Keys|;
  }

  lemma {:induction false} TotalRemove<K>(m: map<K, int>, k: K)
    requires k in m
    ensures Total(m) == m[k] + Total(m - {k})
    decreases |m|
  {
    var p := AnyKey(m);
    DropShrinks(m, p);
    DropShrinks(m, k);
    if p != k {
      TotalRemove(m - {p}, k);
      TotalRemove(m - {k}, p);
      assert m - {p} - {k} == m - {k} - {p};
    }
  }

  lemma UpdateThenDrop<K>(m: map<K, int>, k: K, v: int)
    ensures m[k := v] - {k} == m - {k}
    ensures k !in m ==> m - {k} == m
  {
  }

  lemma TotalUpdate<K>(m: map<K, int>, k: K, v: int)
    ensures Total(m[k := v]) == Total(m) - (if k in m then m[k] else 0) + v
  {
    hide Total;
    UpdateThenDrop(m, k, v);
    TotalRemove(m[k := v], k);
    if k in m { TotalRemove(m, k); }
  }

  /** Totals add up column by column. */
  lemma {:induction false} TotalAdds<K>(a: map<K, int>, b: map<K, int>, c: map<K, int>)
    requires a.Keys == b.Keys == c.Keys
    requires forall k :: k in a ==> a[k] == b[k] + c[k]
    ensures Total(a) == Total(b) + Total(c)
    decreases |a|
  {
    assert |a| == |a.Keys| && |b| == |b.Keys| && |c| == |c.Keys|;
    if |a| == 0 {
    } else {
      var k := AnyKey(a);
      DropShrinks(a, k);
      TotalRemove(a, k);
      TotalRemove(b, k);
      TotalRemove(c, k);
      TotalAdds(a - {k}, b - {k}, c - {k});
    }
  }

  lemma {:induction false} TotalZero<K>(m: map<K, int>)
    requires forall k :: k in m ==> m[k] == 0
    ensures Total(m) == 0
    decreases |m|
  {
    if |m| == 0 {
    } else {
      var k := AnyKey(m);
      DropShrinks(m, k);
      TotalRemove(m, k);
      TotalZero(m - {k});
    }
  }

  lemma {:induction false} TotalNonNegative<K>(m: map<K, int>)
    requires forall k :: k in m ==> m[k] >= 0
    ensures Total(m) >= 0
    ensures forall k :: k in m ==> m[k] <= Total(m)
    decreases |m|
  {
    if |m| == 0 {
    } else {
      var p := AnyKey(m);
      DropShrinks(m, p);
      TotalRemove(m, p);
      TotalNonNegative(m - {p});
      forall k | k in m && k != p ensures m[k] <= Total(m) {
        assert k in m - {p};
      }
    }
  }

  /** A column that is nowhere larger, on possibly other rows, has no larger total. */
  lemma {:induction false} TotalDominated<K>(a: map<K, int>, b: map<K, int>)
    requires forall k :: k in a ==> a[k] <= if k in b then b[k] else 0
    requires forall k :: k in b ==> 0 <= b[k]
    ensures Total(a) <= Total(b)
    decreases |a|
  {
    if |a| == 0 {
      TotalNonNegative(b);
    } else {
      var k := AnyKey(a);
      DropShrinks(a, k);
      TotalRemove(a, k);
      if k in b { TotalRemove(b, k); }
      assert k !in b ==> b - {k} == b;
      TotalDominated(a - {k}, b - {k});
    }
  }
}
