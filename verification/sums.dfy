/** Sums of the values of a finite map, independent of the order of its keys. */
module Sums {
  import opened Types

  ghost function MapSum<K>(m: map<K, int>): (r: int)
    ensures (forall k :: k in m ==> 0 <= m[k]) ==> 0 <= r
    decreases m.Keys
  {
    if m == map[] then 0
    else
      var k :| k in m;
      m[k] + MapSum(m - {k})
  }

  /** Any key may be taken out first. */
  lemma {:induction false} SumRemove<K>(m: map<K, int>, k: K)
    requires k in m
    ensures MapSum(m) == m[k] + MapSum(m - {k})
    decreases m.Keys
  {
    var j :| j in m && MapSum(m) == m[j] + MapSum(m - {j});
    if j != k {
      assert k in m - {j} && j in m - {k};
      SumRemove(m - {j}, k);
      SumRemove(m - {k}, j);
      assert m - {j} - {k} == m - {k} - {j};
    }
  }

  lemma SumUpdate<K>(m: map<K, int>, k: K, v: int)
    ensures MapSum(m[k := v]) == MapSum(m) - GetOr(m, k, 0) + v
  {
    SumRemove(m[k := v], k);
    assert m[k := v] - {k} == m - {k};
    if k in m {
      SumRemove(m, k);
    } else {
      assert m - {k} == m;
    }
  }

  /** Two different keys together stay within the sum. */
  lemma {:induction false} SumAtLeastTwo<K>(m: map<K, int>, j: K, k: K)
    requires j != k
    requires forall i :: i in m ==> 0 <= m[i]
    ensures GetOr(m, j, 0) + GetOr(m, k, 0) <= MapSum(m)
  {
    if j in m {
      SumRemove(m, j);
      assert GetOr(m - {j}, k, 0) == GetOr(m, k, 0);
    }
    if k in m {
      SumRemove(m, k);
      if j in m {
        SumRemove(m - {j}, k);
      }
    }
  }

  lemma {:induction false} SumLe<K>(a: map<K, int>, b: map<K, int>)
    requires a.Keys <= b.Keys
    requires forall k :: k in a ==> a[k] <= b[k]
    requires forall k :: k in b && k !in a ==> 0 <= b[k]
    ensures MapSum(a) <= MapSum(b)
    decreases b.Keys
  {
    if b == map[] {
      assert a == map[];
    } else {
      var k :| k in b;
      SumRemove(b, k);
      if k in a {
        SumRemove(a, k);
        SumLe(a - {k}, b - {k});
      } else {
        SumLe(a, b - {k});
      }
    }
  }

  lemma {:induction false} SumAdd<K>(a: map<K, int>, b: map<K, int>, c: map<K, int>)
    requires a.Keys == b.Keys == c.Keys
    requires forall k :: k in a ==> c[k] == a[k] + b[k]
    ensures MapSum(c) == MapSum(a) + MapSum(b)
    decreases a.Keys
  {
    if a == map[] {
      assert b == map[] && c == map[];
    } else {
      var k :| k in a;
      SumRemove(a, k);
      SumRemove(b, k);
      SumRemove(c, k);
      SumAdd(a - {k}, b - {k}, c - {k});
    }
  }

  lemma {:induction false} SumOnes<K>(a: map<K, int>)
    requires forall k :: k in a ==> a[k] == 1
    ensures MapSum(a) == |a.Keys|
    decreases a.Keys
  {
    if a != map[] {
      var k :| k in a;
      SumRemove(a, k);
      SumOnes(a - {k});
      assert (a - {k}).Keys == a.Keys - {k};
    }
  }
}
