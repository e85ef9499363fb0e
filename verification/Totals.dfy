/** Sums of integer columns over tables keyed by id. */
module Totals {
  ghost function Sum(m: map<string, int>): int
    decreases |m|
  {
    if m == map[] then 0
    else
      var k :| k in m;
      assert (m - {k}).Keys == m.Keys - {k};
      m[k] + Sum(m - {k})
  }

  /** The sum does not depend on which key is taken out first. */
  lemma {:induction false} SumRemove(m: map<string, int>, k: string)
    requires k in m
    ensures Sum(m) == m[k] + Sum(m - {k})
    decreases |m|
  {
    var j :| j in m && Sum(m) == m[j] + Sum(m - {j});
    if j != k {
      assert (m - {j}).Keys == m.Keys - {j};
      assert (m - {k}).Keys == m.Keys - {k};
      SumRemove(m - {j}, k);
      SumRemove(m - {k}, j);
      assert m - {j} - {k} == m - {k} - {j};
    }
  }

  lemma SumInsert(m: map<string, int>, k: string, v: int)
    requires k !in m
    ensures Sum(m[k := v]) == Sum(m) + v
  {
    SumRemove(m[k := v], k);
    assert m[k := v] - {k} == m;
  }

  /** One more row adds its own entry to a column. */
  lemma ColumnInsert(before: map<string, int>, after: map<string, int>, k: string)
    requires k !in before && after.Keys == before.Keys + {k}
    requires forall i | i in before :: after[i] == before[i]
    ensures Sum(after) == Sum(before) + after[k]
  {
    assert after == before[k := after[k]];
    SumInsert(before, k, after[k]);
  }

  lemma SumReplace(m: map<string, int>, k: string, v: int)
    requires k in m
    ensures Sum(m[k := v]) == Sum(m) - m[k] + v
  {
    SumRemove(m[k := v], k);
    SumRemove(m, k);
    assert m[k := v] - {k} == m - {k};
  }

  /** Rows outside `m` that carry nothing do not change the total. */
  lemma {:induction false} SumSupport(m: map<string, int>, n: map<string, int>)
    requires m.Keys <= n.Keys
    requires forall k :: k in n ==> n[k] == if k in m then m[k] else 0
    ensures Sum(m) == Sum(n)
    decreases |n|
  {
    if k :| k in n {
      assert (n - {k}).Keys == n.Keys - {k};
      SumRemove(n, k);
      if k in m {
        SumRemove(m, k);
        SumSupport(m - {k}, n - {k});
      } else {
        SumSupport(m, n - {k});
      }
    } else {
      assert m == map[];
    }
  }

  /** Sums of columns over one table add up row by row. */
  lemma {:induction false} SumAdd(a: map<string, int>, b: map<string, int>, c: map<string, int>)
    requires a.Keys == b.Keys == c.Keys
    requires forall k :: k in a ==> a[k] == b[k] + c[k]
    ensures Sum(a) == Sum(b) + Sum(c)
    decreases |a|
  {
    if k :| k in a {
      assert (a - {k}).Keys == a.Keys - {k};
      SumRemove(a, k);
      SumRemove(b, k);
      SumRemove(c, k);
      SumAdd(a - {k}, b - {k}, c - {k});
    } else {
      assert a == map[] && b == map[] && c == map[];
    }
  }

  lemma {:induction false} SumMonotone(a: map<string, int>, b: map<string, int>)
    requires a.Keys == b.Keys
    requires forall k :: k in a ==> a[k] <= b[k]
    ensures Sum(a) <= Sum(b)
    decreases |a|
  {
    if k :| k in a {
      assert (a - {k}).Keys == a.Keys - {k};
      SumRemove(a, k);
      SumRemove(b, k);
      SumMonotone(a - {k}, b - {k});
    } else {
      assert a == map[] && b == map[];
    }
  }
}
