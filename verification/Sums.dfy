/** Sums over finite maps and over lists. */
module Sums {

  /** The sum of f over the values that m gives the keys in ks. */
  ghost function SumOver<K(!new), V>(ks: set<K>, m: map<K, V>, f: V -> nat): nat
    requires ks <= m.Keys
  {
    if ks == {} then 0
    else
      var k :| k in ks;
      f(m[k]) + SumOver(ks - {k}, m, f)
  }

  /** Any key may be summed first. */
  lemma {:induction false} SumOverSplit<K(!new), V>(ks: set<K>, m: map<K, V>, k: K, f: V -> nat)
    requires k in ks && ks <= m.Keys
    ensures SumOver(ks, m, f) == f(m[k]) + SumOver(ks - {k}, m, f)
  {
    var j :| j in ks && SumOver(ks, m, f) == f(m[j]) + SumOver(ks - {j}, m, f);
    if j != k {
      SumOverSplit(ks - {j}, m, k, f);
      SumOverSplit(ks - {k}, m, j, f);
      assert ks - {j} - {k} == ks - {k} - {j};
    }
  }

  lemma {:induction false} SumOverAgree<K(!new), V>(ks: set<K>, m: map<K, V>, m': map<K, V>, f: V -> nat)
    requires ks <= m.Keys && ks <= m'.Keys && forall k :: k in ks ==> m[k] == m'[k]
    ensures SumOver(ks, m, f) == SumOver(ks, m', f)
  {
    if ks != {} {
      var k :| k in ks;
      SumOverSplit(ks, m, k, f);
      SumOverSplit(ks, m', k, f);
      SumOverAgree(ks - {k}, m, m', f);
    }
  }

  lemma {:induction false} SumOverUnion<K(!new), V>(ks: set<K>, js: set<K>, m: map<K, V>, f: V -> nat)
    requires ks !! js && ks <= m.Keys && js <= m.Keys
    ensures SumOver(ks + js, m, f) == SumOver(ks, m, f) + SumOver(js, m, f)
  {
    if js == {} {
      assert ks + js == ks;
    } else {
      var k :| k in js;
      SumOverSplit(js, m, k, f);
      SumOverUnion(ks, js - {k}, m, f);
      SumOverSplit(ks + js, m, k, f);
      assert (ks + js) - {k} == ks + (js - {k});
    }
  }

  /** The sum of f over the values of m. */
  ghost function Total<K(!new), V>(m: map<K, V>, f: V -> nat): nat {
    SumOver(m.Keys, m, f)
  }

  lemma TotalUnion<K(!new), V>(a: map<K, V>, b: map<K, V>, f: V -> nat)
    requires a.Keys !! b.Keys
    ensures Total(a + b, f) == Total(a, f) + Total(b, f)
  {
    SumOverUnion(a.Keys, b.Keys, a + b, f);
    SumOverAgree(a.Keys, a + b, a, f);
    SumOverAgree(b.Keys, a + b, b, f);
  }

  lemma TotalSingle<K(!new), V>(k: K, v: V, f: V -> nat)
    ensures Total(map[k := v], f) == f(v)
  {
    assert map[k := v].Keys == {k};
    SumOverSplit({k}, map[k := v], k, f);
    assert {k} - {k} == {};
  }

  lemma TotalInsert<K(!new), V>(m: map<K, V>, k: K, v: V, f: V -> nat)
    requires k !in m
    ensures Total(m[k := v], f) == Total(m, f) + f(v)
  {
    TotalUnion(m, map[k := v], f);
    TotalSingle(k, v, f);
    assert m[k := v] == m + map[k := v];
  }

  lemma TotalSplit<K(!new), V>(m: map<K, V>, k: K, f: V -> nat)
    requires k in m
    ensures Total(m, f) == f(m[k]) + Total(m - {k}, f)
  {
    TotalInsert(m - {k}, k, m[k], f);
    assert (m - {k})[k := m[k]] == m;
  }

  lemma TotalReplace<K(!new), V>(m: map<K, V>, k: K, v: V, f: V -> nat)
    requires k in m
    ensures Total(m[k := v], f) + f(m[k]) == Total(m, f) + f(v)
  {
    TotalSplit(m, k, f);
    TotalInsert(m - {k}, k, v, f);
    assert (m - {k})[k := v] == m[k := v];
  }

  /** The sum of f over a list. */
  ghost function ListTotal<V>(vs: seq<V>, f: V -> nat): nat {
    if vs == [] then 0 else ListTotal(vs[..|vs| - 1], f) + f(vs[|vs| - 1])
  }
}
