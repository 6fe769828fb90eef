/** The sum of the values of a map. */
module MapSum {

  ghost function Sum<K>(m: map<K, int>): int {
    if m == map[] then 0
    else
      var k :| k in m;
      m[k] + Sum(m - {k})
  }

  /** Any key may be taken first. */
  lemma {:induction false} SumPick<K>(m: map<K, int>, k: K)
    requires k in m
    ensures Sum(m) == m[k] + Sum(m - {k})
    decreases |m|
  {
    var j :| j in m && Sum(m) == m[j] + Sum(m - {j});
    if j != k {
      SumPick(m - {j}, k);
      SumPick(m - {k}, j);
      assert m - {j} - {k} == m - {k} - {j};
    }
  }

  lemma SumUpdate<K>(m: map<K, int>, k: K, v: int)
    ensures Sum(m[k := v]) == Sum(m) - (if k in m then m[k] else 0) + v
  {
    SumPick(m[k := v], k);
    if k in m {
      SumPick(m, k);
      assert m[k := v] - {k} == m - {k};
    } else {
      assert m[k := v] - {k} == m;
    }
  }

  lemma {:induction false} SumBoundsValues<K>(m: map<K, int>, k: K)
    requires k in m && forall j <- m :: m[j] >= 0
    ensures 0 <= m[k] <= Sum(m)
    decreases |m|
  {
    SumPick(m, k);
    SumNonNegative(m - {k});
  }

  lemma {:induction false} SumNonNegative<K>(m: map<K, int>)
    requires forall j <- m :: m[j] >= 0
    ensures Sum(m) >= 0
    decreases |m|
  {
    if m != map[] {
      var k :| k in m;
      SumPick(m, k);
      SumNonNegative(m - {k});
    }
  }
}
