/** The total of a finite map of amounts. */
module Sums {
  /** Reads a Solidity mapping: a missing entry is zero. */
  function Get<K(==)>(m: map<K, nat>, k: K): nat {
    if k in m then m[k] else 0
  }

  ghost function Pick<K>(m: map<K, nat>): (k: K)
    requires m != map[]
    ensures k in m
  {
    assert m.Keys != {};
    var k :| k in m.Keys;
    k
  }

  ghost function Sum<K>(m: map<K, nat>): nat
    decreases |m|
  {
    if m == map[] then 0
    else
      var k := Pick(m);
      assert |(m - {k}).Keys| == |m.Keys| - 1 by { assert (m - {k}).Keys == m.Keys - {k}; }
      m[k] + Sum(m - {k})
  }

  /** Any key can be taken out first, not only the one `Sum` picks. */
  lemma {:induction false} SumRemove<K>(m: map<K, nat>, k: K)
    requires k in m
    ensures Sum(m) == m[k] + Sum(m - {k})
    decreases |m|
  {
    var p := Pick(m);
    if p != k {
      assert |(m - {p}).Keys| == |m.Keys| - 1 by { assert (m - {p}).Keys == m.Keys - {p}; }
      assert |(m - {k}).Keys| == |m.Keys| - 1 by { assert (m - {k}).Keys == m.Keys - {k}; }
      SumRemove(m - {p}, k);
      SumRemove(m - {k}, p);
      assert (m - {p}) - {k} == (m - {k}) - {p};
    }
  }

  /** Overwriting one entry moves the total by exactly the change of that entry. */
  lemma SumUpdate<K>(m: map<K, nat>, k: K, v: nat)
    ensures Sum(m[k := v]) + Get(m, k) == Sum(m) + v
  {
    SumRemove(m[k := v], k);
    assert m[k := v] - {k} == m - {k};
    if k in m {
      SumRemove(m, k);
    } else {
      assert m - {k} == m;
    }
  }

  /** Two different entries never exceed the total together. */
  lemma SumCovers<K>(m: map<K, nat>, a: K, b: K)
    ensures Get(m, a) <= Sum(m)
    ensures a != b ==> Get(m, a) + Get(m, b) <= Sum(m)
  {
    if a in m {
      SumRemove(m, a);
    }
    if b in m {
      SumRemove(m, b);
    }
    if a in m && b in m && a != b {
      SumRemove(m - {a}, b);
    }
  }
}
