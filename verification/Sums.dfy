/** Sums of the values of a finite map, and how they move when the map does. */
module Sums {
  import opened Wrappers

  ghost function Pick<K>(m: map<K, int>): (k: K)
    requires m != map[]
    ensures k in m
  {
    var k :| k in m;
    k
  }

  ghost function Sum<K>(m: map<K, int>): int
    decreases |m|
  {
    if m == map[] then 0 else m[Pick(m)] + Sum(m - {Pick(m)})
  }

  lemma {:induction false} SumRemove<K>(m: map<K, int>, k: K)
    requires k in m
    ensures Sum(m) == m[k] + Sum(m - {k})
    decreases |m|
  {
    var j := Pick(m);
    if j != k {
      SumRemove(m - {j}, k);
      SumRemove(m - {k}, j);
      assert m - {j} - {k} == m - {k} - {j};
    }
  }

  /** Writing one entry moves the sum by the change of that entry. */
  lemma {:induction false} SumUpdate<K>(m: map<K, int>, k: K, v: int)
    ensures Sum(m[k := v]) == Sum(m) + v - (if k in m then m[k] else 0)
  {
    SumRemove(m[k := v], k);
    if k in m {
      SumRemove(m, k);
      assert m[k := v] - {k} == m - {k};
    } else {
      assert m[k := v] - {k} == m;
    }
  }

  /** Adding `g` times one map to another adds `g` times its sum. */
  lemma {:induction false} SumLinear<K>(m: map<K, int>, w: map<K, int>, g: int, r: map<K, int>)
    requires m.Keys == w.Keys == r.Keys
    requires forall k :: k in m ==> r[k] == m[k] + g * w[k]
    ensures Sum(r) == Sum(m) + g * Sum(w)
    decreases |m|
  {
    if m == map[] {
      assert r == map[] && w == map[];
    } else {
      var k := Pick(m);
      SumRemove(m, k);
      SumRemove(w, k);
      SumRemove(r, k);
      SumLinear(m - {k}, w - {k}, g, r - {k});
      Distribute(g, w[k], Sum(w - {k}));
    }
  }

  lemma Distribute(g: int, a: int, b: int)
    ensures g * (a + b) == g * a + g * b
  {
  }

  lemma {:induction false} SumNonNegative<K>(m: map<K, int>)
    requires forall k :: k in m ==> m[k] >= 0
    ensures Sum(m) >= 0
    decreases |m|
  {
    if m != map[] {
      SumNonNegative(m - {Pick(m)});
    }
  }

  /** One entry of a non-negative map is at most the whole sum. */
  lemma SumCovers<K>(m: map<K, int>, k: K)
    requires k in m
    requires forall j :: j in m ==> m[j] >= 0
    ensures 0 <= m[k] <= Sum(m)
  {
    SumRemove(m, k);
    SumNonNegative(m - {k});
  }

  /** The sum depends only on the non-zero entries. */
  lemma {:induction false} SumZero<K>(m: map<K, int>)
    requires forall k :: k in m ==> m[k] == 0
    ensures Sum(m) == 0
    decreases |m|
  {
    if m != map[] {
      SumZero(m - {Pick(m)});
    }
  }

  /** The sum depends only on what the map gives as a storage read with default zero. */
  lemma {:induction false} SumOfReads<K(!new)>(m: map<K, int>, n: map<K, int>)
    requires forall k :: Get(m, k) == Get(n, k)
    ensures Sum(m) == Sum(n)
    decreases |m|
  {
    if m == map[] {
      forall k | k in n ensures n[k] == 0 {
        assert Get(n, k) == Get(m, k);
      }
      SumZero(n);
    } else {
      var k := Pick(m);
      assert Get(m, k) == Get(n, k);
      SumRemove(m, k);
      if k in n {
        SumRemove(n, k);
      }
      forall j ensures Get(m - {k}, j) == Get(n - {k}, j) {
        assert Get(m, j) == Get(n, j);
      }
      SumOfReads(m - {k}, n - {k});
      assert k !in n ==> n - {k} == n;
    }
  }
}
