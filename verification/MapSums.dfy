/** Sums over a map's values. Go visits a map in an arbitrary order, so a sum is defined by
    picking any key first; SumRemove says that the choice makes no difference. */
module MapSums {
  import opened GoTypes

  ghost function Sum<K>(m: map<K, nat>): nat
    decreases |m|
  {
    if m == map[] then 0
    else
      var k :| k in m;
      m[k] + Sum(m - {k})
  }

  lemma SumOfNone<K>()
    ensures Sum<K>(map[]) == 0
  {
  }

  lemma {:induction false} SumRemove<K>(m: map<K, nat>, k: K)
    requires k in m
    ensures Sum(m) == m[k] + Sum(m - {k})
    decreases |m|
  {
    var j :| j in m && Sum(m) == m[j] + Sum(m - {j});
    if j != k {
      SumRemove(m - {j}, k);
      SumRemove(m - {k}, j);
      assert m - {j} - {k} == m - {k} - {j};
    }
  }

  /** Writing one entry changes the sum by the difference of the two values. */
  lemma SumUpdate<K>(m: map<K, nat>, k: K, v: nat)
    ensures Sum(m[k := v]) == Sum(m) - Get(m, k) + v
  {
    SumRemove(m[k := v], k);
    if k in m {
      SumRemove(m, k);
      assert m[k := v] - {k} == m - {k};
    } else {
      assert m[k := v] - {k} == m;
    }
  }

  /** Any single entry is at most the sum. */
  lemma SumAtLeast<K>(m: map<K, nat>, k: K)
    ensures Get(m, k) <= Sum(m)
  {
    if k in m { SumRemove(m, k); }
  }

  /** When a third table holds, entry by entry, the sum of two (absent counting as zero), so do the
      sums. */
  lemma {:induction false} SumAdd<K>(a: map<K, nat>, b: map<K, nat>, c: map<K, nat>)
    requires forall k :: k in c <==> k in a || k in b
    requires forall k :: k in c ==> c[k] == Get(a, k) + Get(b, k)
    ensures Sum(c) == Sum(a) + Sum(b)
    decreases |c|
  {
    if k :| k in c {
      SumRemove(c, k);
      if k in a { SumRemove(a, k); } else { assert a - {k} == a; }
      if k in b { SumRemove(b, k); } else { assert b - {k} == b; }
      SumAdd(a - {k}, b - {k}, c - {k});
    } else {
      assert a == map[] && b == map[];
    }
  }

  /** Pointwise comparison carries over to sums. */
  lemma {:induction false} SumMonotone<K>(a: map<K, nat>, b: map<K, nat>)
    requires a.Keys <= b.Keys
    requires forall k :: k in a ==> a[k] <= b[k]
    ensures Sum(a) <= Sum(b)
    decreases |a|
  {
    if k :| k in a {
      SumRemove(a, k);
      SumRemove(b, k);
      SumMonotone(a - {k}, b - {k});
    } else {
      assert a == map[];
    }
  }
}
