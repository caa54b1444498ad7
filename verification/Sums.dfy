/** Sums over finite maps. */
module Sums {
  import opened Basics

  ghost function Sum<K>(m: map<K, nat>): nat
    decreases |m|
  {
    if m == map[] then 0
    else
      var k := AnyKey(m);
      RemovedSize(m, k);
      m[k] + Sum(m - {k})
  }

  ghost function AnyKey<K>(m: map<K, nat>): (k: K)
    requires m != map[]
    ensures k in m
  {
    HasKey(m);
    var k :| k in m;
    k
  }

  lemma HasKey<K>(m: map<K, nat>)
    requires m != map[]
    ensures exists k :: k in m
  {
    assert m.Keys != {};
    var k := Pick(m.Keys);
  }

  lemma {:induction false} SumRemove<K>(m: map<K, nat>, k: K)
    requires k in m
    ensures Sum(m) == m[k] + Sum(m - {k})
    decreases |m|
  {
    var a := AnyKey(m);
    if a != k {
      var rest := m - {a};
      RemovedSize(m, a);
      SumRemove(rest, k);
      assert rest - {k} == (m - {k}) - {a};
      RemovedSize(m, k);
      SumRemove(m - {k}, a);
    }
  }

  lemma SumAdd<K>(m: map<K, nat>, k: K, v: nat)
    requires k !in m
    ensures Sum(m[k := v]) == Sum(m) + v
  {
    SumRemove(m[k := v], k);
    assert m[k := v] - {k} == m;
  }

  lemma SumUpdate<K>(m: map<K, nat>, k: K, v: nat)
    requires k in m
    ensures Sum(m[k := v]) == Sum(m) - m[k] + v
  {
    SumRemove(m, k);
    SumRemove(m[k := v], k);
    assert m[k := v] - {k} == m - {k};
  }

  lemma {:induction false} SumMonotone<K>(a: map<K, nat>, b: map<K, nat>)
    requires a.Keys == b.Keys && forall k :: k in a ==> a[k] <= b[k]
    ensures Sum(a) <= Sum(b)
    decreases |a|
  {
    if a != map[] {
      var k := AnyKey(a);
      assert k in a.Keys;
      SumRemove(a, k);
      SumRemove(b, k);
      RemovedSize(a, k);
      assert (a - {k}).Keys == (b - {k}).Keys;
      SumMonotone(a - {k}, b - {k});
    }
  }

  lemma SumEmpty<K>()
    ensures Sum<K>(map[]) == 0
  {
  }
}
