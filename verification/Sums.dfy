/** Totals over finite maps, and over the part of a map that satisfies a predicate; sizes of sets. */
module Sums {

  ghost function Sum<K>(m: map<K, int>): int
    decreases m.Keys
  {
    if m == map[] then 0
    else
      var k :| k in m;
      m[k] + Sum(m - {k})
  }

  lemma {:induction false} SumTakeOut<K>(m: map<K, int>, k: K)
    requires k in m
    ensures Sum(m) == m[k] + Sum(m - {k})
    decreases m.Keys
  {
    var j :| j in m && Sum(m) == m[j] + Sum(m - {j});
    if j != k {
      SumTakeOut(m - {j}, k);
      SumTakeOut(m - {k}, j);
      assert (m - {j}) - {k} == (m - {k}) - {j};
    }
  }

  lemma SumPut<K>(m: map<K, int>, k: K, v: int)
    ensures Sum(m[k := v]) == Sum(m) - (if k in m then m[k] else 0) + v
  {
    SumTakeOut(m[k := v], k);
    assert m[k := v] - {k} == m - {k};
    if k in m {
      SumTakeOut(m, k);
    } else {
      assert m - {k} == m;
    }
  }

  ghost function Part<K>(m: map<K, int>, p: K -> bool): map<K, int> {
    map k | k in m && p(k) :: m[k]
  }

  ghost function SumWhere<K>(m: map<K, int>, p: K -> bool): int {
    Sum(Part(m, p))
  }

  lemma SumWherePut<K>(m: map<K, int>, p: K -> bool, k: K, v: int)
    ensures SumWhere(m[k := v], p)
         == SumWhere(m, p) + if p(k) then v - (if k in m then m[k] else 0) else 0
  {
    if p(k) {
      assert Part(m[k := v], p) == Part(m, p)[k := v];
      SumPut(Part(m, p), k, v);
    } else {
      assert Part(m[k := v], p) == Part(m, p);
    }
  }

  predicate NonNegative<K>(m: map<K, int>) {
    forall k | k in m :: m[k] >= 0
  }

  lemma {:induction false} SumNonNegative<K>(m: map<K, int>)
    requires NonNegative(m)
    ensures Sum(m) >= 0
    decreases m.Keys
  {
    if m != map[] {
      var k :| k in m && Sum(m) == m[k] + Sum(m - {k});
      SumNonNegative(m - {k});
    }
  }

  /** One entry, or two different ones, never exceed the total. */
  lemma SumAtLeast<K>(m: map<K, int>, p: K -> bool, j: K, k: K)
    requires NonNegative(m) && j in m && k in m && p(j) && p(k)
    ensures m[k] <= SumWhere(m, p)
    ensures j != k ==> m[j] + m[k] <= SumWhere(m, p)
  {
    var n := Part(m, p);
    SumTakeOut(n, k);
    SumNonNegative(n - {k});
    if j != k {
      SumTakeOut(n - {k}, j);
      SumNonNegative(n - {k} - {j});
    }
  }

  lemma {:induction false} SumSplit<K>(m: map<K, int>, p: K -> bool, q: K -> bool)
    requires forall k | k in m :: q(k) == !p(k)
    ensures Sum(m) == SumWhere(m, p) + SumWhere(m, q)
    decreases m.Keys
  {
    if m == map[] {
      assert Part(m, p) == map[] && Part(m, q) == map[];
    } else {
      var k :| k in m && Sum(m) == m[k] + Sum(m - {k});
      var n := m - {k};
      SumSplit(n, p, q);
      assert m == n[k := m[k]];
      SumWherePut(n, p, k, m[k]);
      SumWherePut(n, q, k, m[k]);
    }
  }

  lemma SubsetSize<T>(a: set<T>, b: set<T>)
    requires a <= b
    ensures |a| <= |b|
  {
    assert b == a + (b - a) && |b| == |a| + |b - a|;
  }
}
