/** Sums of the values of a finite map. */
module Sums {

  ghost function Sum<K>(m: map<K, int>): int
    decreases |m|
  {
    if m == map[] then 0 else
    var k :| k in m;
    m[k] + Sum(m - {k})
  }

  /** Any key may be taken out first. */
  lemma {:induction false} SumTake<K>(m: map<K, int>, k: K)
    requires k in m
    ensures Sum(m) == m[k] + Sum(m - {k})
    decreases |m|
  {
    var j :| j in m && Sum(m) == m[j] + Sum(m - {j});
    if j != k {
      SumTake(m - {j}, k);
      SumTake(m - {k}, j);
      assert m - {j} - {k} == m - {k} - {j};
    }
  }

  /** Writing one entry changes the sum by the change of that entry. */
  lemma SumPut<K>(m: map<K, int>, k: K, v: int)
    ensures Sum(m[k := v]) == Sum(m) - (if k in m then m[k] else 0) + v
  {
    var w := m[k := v];
    SumTake(w, k);
    assert w - {k} == m - {k};
    if k in m {
      SumTake(m, k);
    } else {
      assert m - {k} == m;
    }
  }

  lemma {:induction false} SumNonNegative<K>(m: map<K, int>)
    requires forall k :: k in m ==> 0 <= m[k]
    ensures 0 <= Sum(m)
    decreases |m|
  {
    if m != map[] {
      var k :| k in m;
      SumTake(m, k);
      SumNonNegative(m - {k});
    }
  }

  /** In a map of non-negative values two entries together stay below the sum. */
  lemma SumCovers<K>(m: map<K, int>, j: K, k: K)
    requires forall i :: i in m ==> 0 <= m[i]
    requires j in m
    ensures m[j] <= Sum(m)
    ensures k in m && j != k ==> m[j] + m[k] <= Sum(m)
  {
    SumTake(m, j);
    SumNonNegative(m - {j});
    if k in m && j != k {
      SumTake(m - {j}, k);
      SumNonNegative(m - {j} - {k});
    }
  }

  lemma {:induction false} SumZero<K>(m: map<K, int>)
    requires forall k :: k in m ==> m[k] == 0
    ensures Sum(m) == 0
    decreases |m|
  {
    if m != map[] {
      var k :| k in m;
      SumTake(m, k);
      SumZero(m - {k});
    }
  }
}
