/** Exact sums over maps and sequences, used to state what the source's
    accumulating loops compute. A `HashMap` is visited in an unspecified
    order; `SumMap` does not depend on that order. */
module Sums {

  /** Some key of a nonempty map. */
  ghost function PickKey<K, V>(m: map<K, V>): (k: K)
    requires m != map[]
    ensures k in m
  {
    assert m.Keys != {} by {
      if m.Keys == {} {
        assert false;
      }
    }
    var k :| k in m; k
  }

  /** The sum of `f` over a map's values. */
  ghost function SumMap<K, V>(m: map<K, V>, f: V -> nat): nat
    decreases |m|
  {
    if m == map[] then 0
    else
      var k := PickKey(m);
      RemoveCard(m, k);
      f(m[k]) + SumMap(m - {k}, f)
  }

  lemma RemoveCard<K, V>(m: map<K, V>, k: K)
    requires k in m
    ensures |m - {k}| == |m| - 1
  {
    assert (m - {k}).Keys == m.Keys - {k};
  }

  /** Any key can be taken out first. */
  lemma {:induction false} SumMapRemove<K, V>(m: map<K, V>, f: V -> nat, k: K)
    requires k in m
    ensures SumMap(m, f) == f(m[k]) + SumMap(m - {k}, f)
    decreases |m|
  {
    var j := PickKey(m);
    if j != k {
      var mj := m - {j};
      var mk := m - {k};
      RemoveCard(m, j);
      RemoveCard(m, k);
      assert k in mj && j in mk;
      SumMapRemove(mj, f, k);
      SumMapRemove(mk, f, j);
      assert mj - {k} == mk - {j};
    }
  }

  /** Adding a new key adds its value. */
  lemma SumMapInsert<K, V>(m: map<K, V>, f: V -> nat, k: K, v: V)
    requires k !in m
    ensures SumMap(m[k := v], f) == SumMap(m, f) + f(v)
  {
    SumMapRemove(m[k := v], f, k);
    assert m[k := v] - {k} == m;
  }

  /** If `f` is nowhere above `g`, neither is its sum. */
  lemma {:induction false} SumMapMono<K, V>(m: map<K, V>, f: V -> nat, g: V -> nat)
    requires forall k :: k in m ==> f(m[k]) <= g(m[k])
    ensures SumMap(m, f) <= SumMap(m, g)
    decreases |m|
  {
    if m != map[] {
      var k := PickKey(m);
      SumMapRemove(m, f, k);
      SumMapRemove(m, g, k);
      RemoveCard(m, k);
      SumMapMono(m - {k}, f, g);
    }
  }

  /** Each value is at most the sum. */
  lemma SumMapBound<K, V>(m: map<K, V>, f: V -> nat, k: K)
    requires k in m
    ensures f(m[k]) <= SumMap(m, f)
  {
    SumMapRemove(m, f, k);
  }
}
