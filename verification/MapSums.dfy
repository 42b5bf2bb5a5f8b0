/** Totals over finite maps of balances, flat and nested. */
module MapSums {

  function Get<K(==)>(m: map<K, nat>, k: K): nat {
    if k in m then m[k] else 0
  }

  function Inner<K(==), L>(m: map<K, map<L, nat>>, k: K): map<L, nat> {
    if k in m then m[k] else map[]
  }

  ghost function Sum<K(!new)>(m: map<K, nat>): nat
    decreases |m|
  {
    if m == map[] then 0 else
    var k :| k in m;
    m[k] + Sum(m - {k})
  }

  lemma {:induction false} SumDrop<K(!new)>(m: map<K, nat>, k: K)
    ensures Sum(m) == Get(m, k) + Sum(m - {k})
    decreases |m|
  {
    if k !in m {
      assert m - {k} == m;
    } else {
      var c :| c in m && Sum(m) == m[c] + Sum(m - {c});
      if c != k {
        SumDrop(m - {c}, k);
        SumDrop(m - {k}, c);
        assert m - {c} - {k} == m - {k} - {c};
      }
    }
  }

  lemma SumPut<K(!new)>(m: map<K, nat>, k: K, v: nat)
    ensures Sum(m[k := v]) == Sum(m) - Get(m, k) + v
    ensures Get(m, k) <= Sum(m)
  {
    SumDrop(m, k);
    SumDrop(m[k := v], k);
    assert m[k := v] - {k} == m - {k};
  }

  lemma SumSingleton<K(!new)>(k: K, v: nat)
    ensures Sum(map[k := v]) == v
  {
    SumPut(map[], k, v);
    assert map[][k := v] == map[k := v];
  }

  lemma SumAtLeast<K(!new)>(m: map<K, nat>, k: K)
    ensures Get(m, k) <= Sum(m)
  {
    SumDrop(m, k);
  }

  lemma SumAtLeastTwo<K(!new)>(m: map<K, nat>, j: K, k: K)
    requires j != k
    ensures Get(m, j) + Get(m, k) <= Sum(m)
  {
    SumDrop(m, j);
    SumDrop(m - {j}, k);
    assert Get(m - {j}, k) == Get(m, k);
  }

  /** The total of every balance in a two-level map. */
  ghost function NestedSum<K(!new), L(!new)>(m: map<K, map<L, nat>>): nat
  {
    Sum(Totals(m))
  }

  ghost function Totals<K(!new), L(!new)>(m: map<K, map<L, nat>>): map<K, nat> {
    map k | k in m :: Sum(m[k])
  }

  lemma NestedPut<K(!new), L(!new)>(m: map<K, map<L, nat>>, k: K, inner: map<L, nat>)
    ensures NestedSum(m[k := inner]) == NestedSum(m) - Sum(Inner(m, k)) + Sum(inner)
    ensures Sum(Inner(m, k)) <= NestedSum(m)
  {
    assert Totals(m[k := inner]) == Totals(m)[k := Sum(inner)];
    SumPut(Totals(m), k, Sum(inner));
    assert Get(Totals(m), k) == Sum(Inner(m, k));
  }
}
