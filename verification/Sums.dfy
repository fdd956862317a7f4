/** Totals over the values of a finite map. */
module Sums {

  ghost function Total<K, V>(m: map<K, V>, f: V -> int): int
    decreases |m|
  {
    if m == map[] then 0
    else
      var k :| k in m;
      Smaller(m, k);
      f(m[k]) + Total(m - {k}, f)
  }

  lemma Smaller<K, V>(m: map<K, V>, k: K)
    requires k in m
    ensures |m - {k}| < |m|
  {
    assert (m - {k}).Keys == m.Keys - {k};
  }

  /** A total may be taken apart at any key. */
  lemma {:induction false} TotalAt<K, V>(m: map<K, V>, f: V -> int, k: K)
    requires k in m
    ensures Total(m, f) == f(m[k]) + Total(m - {k}, f)
    decreases |m|
  {
    var p :| p in m && Total(m, f) == f(m[p]) + Total(m - {p}, f);
    if p != k {
      Smaller(m, p);
      Smaller(m, k);
      TotalAt(m - {p}, f, k);
      TotalAt(m - {k}, f, p);
      assert m - {p} - {k} == m - {k} - {p};
    }
  }

  /** What one binding contributes. */
  ghost function Share<K, V>(m: map<K, V>, f: V -> int, k: K): int {
    if k in m then f(m[k]) else 0
  }

  lemma TotalSet<K, V>(m: map<K, V>, f: V -> int, k: K, v: V)
    ensures Total(m[k := v], f) == Total(m, f) - Share(m, f, k) + f(v)
  {
    TotalAt(m[k := v], f, k);
    assert m[k := v] - {k} == m - {k};
    if k in m {
      TotalAt(m, f, k);
    } else {
      assert m - {k} == m;
    }
  }

  lemma {:induction false} TotalSame<K, V>(m: map<K, V>, f: V -> int, g: V -> int)
    requires forall k :: k in m ==> f(m[k]) == g(m[k])
    ensures Total(m, f) == Total(m, g)
    decreases |m|
  {
    if m != map[] {
      var k :| k in m && Total(m, f) == f(m[k]) + Total(m - {k}, f);
      Smaller(m, k);
      TotalAt(m, g, k);
      TotalSame(m - {k}, f, g);
    }
  }

  lemma {:induction false} TotalAtLeast<K, V>(m: map<K, V>, f: V -> int, g: V -> int)
    requires forall k :: k in m ==> f(m[k]) <= g(m[k])
    ensures Total(m, f) <= Total(m, g)
    decreases |m|
  {
    if m != map[] {
      var k :| k in m && Total(m, f) == f(m[k]) + Total(m - {k}, f);
      Smaller(m, k);
      TotalAt(m, g, k);
      TotalAtLeast(m - {k}, f, g);
    }
  }

  lemma {:induction false} TotalOfZeros<K, V>(m: map<K, V>, f: V -> int)
    requires forall k :: k in m ==> f(m[k]) == 0
    ensures Total(m, f) == 0
    decreases |m|
  {
    if m != map[] {
      var k :| k in m && Total(m, f) == f(m[k]) + Total(m - {k}, f);
      Smaller(m, k);
      TotalOfZeros(m - {k}, f);
    }
  }
}
