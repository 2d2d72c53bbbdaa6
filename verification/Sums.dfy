/** Sums over the values of a finite map. */
module Sums {
  ghost function PickKey<K(!new)>(m: map<K, nat>): K
    requires m != map[]
    ensures PickKey(m) in m
  {
    assert m.Keys != {};
    var k :| k in m.Keys; k
  }

  ghost function Sum<K(!new)>(m: map<K, nat>): nat
    decreases |m|
  {
    if m == map[] then 0
    else
      var k := PickKey(m);
      m[k] + Sum(m - {k})
  }

  lemma {:induction false} SumRemove<K(!new)>(m: map<K, nat>, k: K)
    requires k in m
    ensures Sum(m) == m[k] + Sum(m - {k})
    decreases |m|
  {
    var p := PickKey(m);
    if p != k {
      var both := m - {p} - {k};
      assert both == m - {k} - {p};
      SumRemove(m - {p}, k);
      SumRemove(m - {k}, p);
    }
  }

  lemma SumUpdate<K(!new)>(m: map<K, nat>, k: K, v: nat)
    ensures Sum(m[k := v]) == v + (if k in m then Sum(m) - m[k] else Sum(m))
  {
    SumRemove(m[k := v], k);
    if k in m {
      SumRemove(m, k);
      assert m[k := v] - {k} == m - {k};
    } else {
      assert m[k := v] - {k} == m;
    }
  }
}
