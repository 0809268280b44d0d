/** Sums over the values of a table. */
module Sums {
  ghost function Sum<K(!new)>(m: map<K, real>): real {
    if m == map[] then 0.0
    else
      var k :| k in m;
      m[k] + Sum(m - {k})
  }

  lemma {:induction false} SumRemove<K(!new)>(m: map<K, real>, k: K)
    requires k in m
    ensures Sum(m) == m[k] + Sum(m - {k})
    decreases |m|
  {
    var j :| j in m && Sum(m) == m[j] + Sum(m - {j});
    if j != k {
      SumRemove(m - {j}, k);
      SumRemove(m - {k}, j);
      assert m - {j} - {k} == m - {k} - {j};
    }
  }

  function At<K>(m: map<K, real>, k: K): real {
    if k in m then m[k] else 0.0
  }

  lemma SumUpdate<K(!new)>(m: map<K, real>, k: K, v: real)
    ensures Sum(m[k := v]) == Sum(m) - At(m, k) + v
  {
    SumRemove(m[k := v], k);
    assert m[k := v] - {k} == m - {k};
    if k in m {
      SumRemove(m, k);
    } else {
      assert m - {k} == m;
    }
  }

  lemma {:induction false} SumNonNegative<K(!new)>(m: map<K, real>)
    requires forall k :: k in m ==> m[k] >= 0.0
    ensures Sum(m) >= 0.0
    decreases |m|
  {
    if m == map[] {
    } else {
      var k :| k in m && Sum(m) == m[k] + Sum(m - {k});
      SumNonNegative(m - {k});
    }
  }

  /** A non-negative table's sum covers any one entry, and any two distinct ones. */
  lemma SumCovers<K(!new)>(m: map<K, real>, k: K)
    requires forall j :: j in m ==> m[j] >= 0.0
    ensures At(m, k) <= Sum(m)
    ensures forall j :: j != k ==> At(m, k) + At(m, j) <= Sum(m)
  {
    SumNonNegative(m);
    if k in m {
      SumRemove(m, k);
      var rest := m - {k};
      SumNonNegative(rest);
      forall j | j in rest ensures m[j] <= Sum(rest) {
        SumRemove(rest, j);
        SumNonNegative(rest - {j});
      }
    } else {
      forall j | j in m ensures m[j] <= Sum(m) {
        SumRemove(m, j);
        SumNonNegative(m - {j});
      }
    }
  }

  lemma {:induction false} SumZero<K(!new)>(m: map<K, real>)
    requires forall k :: k in m ==> m[k] == 0.0
    ensures Sum(m) == 0.0
    decreases |m|
  {
    if m == map[] {
    } else {
      var k :| k in m;
      SumRemove(m, k);
      SumZero(m - {k});
    }
  }
}
