/** Totals over a table column. */
module Sums {
  ghost function Total<K>(m: map<K, nat>): nat {
    if m == map[] then 0 else var k :| k in m; m[k] + Total(m - {k})
  }

  /** The total does not depend on which row is taken first. */
  lemma {:induction false} TotalWithout<K>(m: map<K, nat>, k: K)
    requires k in m
    ensures Total(m) == m[k] + Total(m - {k})
    decreases |m|
  {
    var j :| j in m && Total(m) == m[j] + Total(m - {j});
    if j != k {
      TotalWithout(m - {j}, k);
      TotalWithout(m - {k}, j);
      assert m - {j} - {k} == m - {k} - {j};
    }
  }

  lemma TotalUpdate<K>(m: map<K, nat>, k: K, v: nat)
    ensures Total(m[k := v]) == v + Total(m) - (if k in m then m[k] else 0)
  {
    TotalWithout(m[k := v], k);
    if k in m {
      TotalWithout(m, k);
      assert m[k := v] - {k} == m - {k};
    } else {
      assert m[k := v] - {k} == m;
    }
  }

  lemma {:induction false} TotalAtMost<K>(m: map<K, nat>, most: nat)
    requires forall k :: k in m ==> m[k] <= most
    ensures Total(m) <= most * |m|
    decreases |m|
  {
    if m != map[] {
      var k :| k in m;
      TotalWithout(m, k);
      KeysLess(m, k);
      TotalAtMost(m - {k}, most);
      OneMore(most, |m - {k}|);
    }
  }

  lemma OneMore(most: nat, n: nat)
    ensures most * (n + 1) == most * n + most
  {
  }

  lemma KeysLess<K>(m: map<K, nat>, k: K)
    requires k in m
    ensures |m - {k}| == |m| - 1
  {
    assert (m - {k}).Keys == m.Keys - {k};
    assert |m| == |m.Keys| && |m - {k}| == |(m - {k}).Keys|;
  }

  lemma SubsetFewer<T>(a: set<T>, b: set<T>)
    requires a <= b
    ensures |a| <= |b|
  {
    assert b == a + (b - a);
    assert |b| == |a| + |b - a|;
  }
}
