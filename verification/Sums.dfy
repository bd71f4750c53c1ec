/** Sums of the values of a finite map, and how they react to adding and removing keys. */
module Sums {

  ghost function Sum<K(!new)>(m: map<K, nat>): nat
    decreases m.Keys
  {
    if m == map[] then
      0
    else
      var k :| k in m;
      m[k] + Sum(m - {k})
  }

  lemma {:induction false} SumRemove<K(!new)>(m: map<K, nat>, k: K)
    requires k in m
    ensures Sum(m) == m[k] + Sum(m - {k})
    decreases m.Keys
  {
    var j :| j in m && Sum(m) == m[j] + Sum(m - {j});
    if j != k {
      SumRemove(m - {j}, k);
      SumRemove(m - {k}, j);
      assert m - {j} - {k} == m - {k} - {j};
    }
  }

  lemma SumUpdate<K(!new)>(m: map<K, nat>, k: K, v: nat)
    ensures Sum(m[k := v]) == v + Sum(m - {k})
  {
    SumRemove(m[k := v], k);
    assert m[k := v] - {k} == m - {k};
  }

  lemma {:induction false} SumAtLeast<K(!new)>(m: map<K, nat>, k: K)
    requires k in m
    ensures m[k] <= Sum(m)
  {
    SumRemove(m, k);
  }

  /** Two different keys together contribute at most the whole sum. */
  lemma {:induction false} SumAtLeastTwo<K(!new)>(m: map<K, nat>, j: K, k: K)
    requires j in m && k in m && j != k
    ensures m[j] + m[k] <= Sum(m)
  {
    SumRemove(m, j);
    SumAtLeast(m - {j}, k);
  }

  /** A sum is bounded by another that dominates it key by key; keys worth nothing need no counterpart. */
  lemma {:induction false} SumDominated<K(!new)>(m: map<K, nat>, bound: map<K, nat>)
    requires forall k :: k in m ==> m[k] == 0 || (k in bound && m[k] <= bound[k])
    ensures Sum(m) <= Sum(bound)
    decreases m.Keys
  {
    if m != map[] {
      var k :| k in m;
      SumRemove(m, k);
      if k in bound {
        SumRemove(bound, k);
        SumDominated(m - {k}, bound - {k});
      } else {
        SumDominated(m - {k}, bound);
      }
    }
  }
}
