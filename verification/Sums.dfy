/** Totals over the rows of a table keyed by a unique column. */
module Sums {

  ghost function SumMap<K, V>(m: map<K, V>, f: (K, V) -> int): int
    decreases |m|
  {
    if m == map[] then 0
    else
      var k :| k in m;
      f(k, m[k]) + SumMap(m - {k}, f)
  }

  /** The total does not depend on the order in which rows are picked. */
  lemma {:induction false} SumRemove<K, V>(m: map<K, V>, k: K, f: (K, V) -> int)
    requires k in m
    ensures SumMap(m, f) == f(k, m[k]) + SumMap(m - {k}, f)
    decreases |m|
  {
    var p :| p in m && SumMap(m, f) == f(p, m[p]) + SumMap(m - {p}, f);
    if p != k {
      SumRemove(m - {p}, k, f);
      SumRemove(m - {k}, p, f);
      assert m - {p} - {k} == m - {k} - {p};
    }
  }

  /** Inserting or replacing one row moves the total by the difference of that row alone. */
  lemma SumUpdate<K, V>(m: map<K, V>, k: K, v: V, f: (K, V) -> int)
    ensures SumMap(m[k := v], f) == SumMap(m, f) - (if k in m then f(k, m[k]) else 0) + f(k, v)
  {
    SumRemove(m[k := v], k, f);
    assert m[k := v] - {k} == m - {k};
    if k in m {
      SumRemove(m, k, f);
    } else {
      assert m - {k} == m;
    }
  }

  lemma {:induction false} SumCongruent<K, V>(m: map<K, V>, n: map<K, V>, f: (K, V) -> int, g: (K, V) -> int)
    requires m.Keys == n.Keys
    requires forall k | k in m :: f(k, m[k]) == g(k, n[k])
    ensures SumMap(m, f) == SumMap(n, g)
    decreases |m|
  {
    if m == map[] {
      assert n.Keys == {};
      assert n == map[];
    } else {
      var p :| p in m;
      SumRemove(m, p, f);
      SumRemove(n, p, g);
      SumCongruent(m - {p}, n - {p}, f, g);
    }
  }

  /** When only row `k` counts differently under `g`, the totals differ by that row. */
  lemma SumChangeAt<K, V>(m: map<K, V>, k: K, f: (K, V) -> int, g: (K, V) -> int)
    requires k in m
    requires forall j | j in m && j != k :: f(j, m[j]) == g(j, m[j])
    ensures SumMap(m, g) == SumMap(m, f) - f(k, m[k]) + g(k, m[k])
  {
    SumRemove(m, k, f);
    SumRemove(m, k, g);
    SumCongruent(m - {k}, m - {k}, f, g);
  }

  lemma {:induction false} SumAdd<K, V>(m: map<K, V>, f: (K, V) -> int, g: (K, V) -> int, h: (K, V) -> int)
    requires forall k | k in m :: h(k, m[k]) == f(k, m[k]) + g(k, m[k])
    ensures SumMap(m, h) == SumMap(m, f) + SumMap(m, g)
    decreases |m|
  {
    if m != map[] {
      var p :| p in m;
      SumRemove(m, p, f);
      SumRemove(m, p, g);
      SumRemove(m, p, h);
      SumAdd(m - {p}, f, g, h);
    }
  }

  /** A total of amounts that are not negative is zero exactly when each of them is. */
  lemma {:induction false} SumNonNegative<K, V>(m: map<K, V>, f: (K, V) -> int)
    requires forall k | k in m :: f(k, m[k]) >= 0
    ensures SumMap(m, f) >= 0
    ensures SumMap(m, f) == 0 <==> forall k | k in m :: f(k, m[k]) == 0
    decreases |m|
  {
    if m != map[] {
      var p :| p in m;
      SumRemove(m, p, f);
      SumNonNegative(m - {p}, f);
      assert forall k | k in m :: k == p || k in m - {p};
    }
  }

  lemma {:induction false} SumZero<K, V>(m: map<K, V>, f: (K, V) -> int)
    requires forall k | k in m :: f(k, m[k]) == 0
    ensures SumMap(m, f) == 0
    decreases |m|
  {
    if m != map[] {
      var p :| p in m;
      SumRemove(m, p, f);
      SumZero(m - {p}, f);
    }
  }
}
