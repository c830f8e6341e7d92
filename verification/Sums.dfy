/** Sums over finite maps, the shape in which every accounting invariant of this project is stated. */
module Sums {

  /** The sum of `weight(k, m[k])` over all entries of `m`. */
  ghost function Total<K(!new), V>(m: map<K, V>, weight: (K, V) -> int): int
    decreases |m|
  {
    if m == map[] then 0
    else
      var k :| k in m;
      weight(k, m[k]) + Total(m - {k}, weight)
  }

  /** Any entry can be split off first: the choice made inside `Total` does not matter. */
  lemma {:induction false} TotalSplit<K(!new), V>(m: map<K, V>, weight: (K, V) -> int, k: K)
    requires k in m
    ensures Total(m, weight) == weight(k, m[k]) + Total(m - {k}, weight)
    decreases |m|
  {
    var c :| c in m && Total(m, weight) == weight(c, m[c]) + Total(m - {c}, weight);
    if c != k {
      TotalSplit(m - {c}, weight, k);
      TotalSplit(m - {k}, weight, c);
      assert m - {c} - {k} == m - {k} - {c};
    }
  }

  /** Writing one entry changes the sum by exactly that entry's change of weight. */
  lemma {:induction false} TotalUpdate<K(!new), V>(m: map<K, V>, weight: (K, V) -> int, k: K, v: V)
    ensures Total(m[k := v], weight)
         == Total(m, weight) - (if k in m then weight(k, m[k]) else 0) + weight(k, v)
  {
    TotalSplit(m[k := v], weight, k);
    assert m[k := v] - {k} == m - {k};
    if k in m {
      TotalSplit(m, weight, k);
    } else {
      assert m - {k} == m;
    }
  }

  /** Non-negative weights: the sum is non-negative, and zero exactly when every weight is. */
  lemma {:induction false} TotalZero<K(!new), V>(m: map<K, V>, weight: (K, V) -> int)
    requires forall k :: k in m ==> weight(k, m[k]) >= 0
    ensures Total(m, weight) >= 0
    ensures Total(m, weight) == 0 <==> forall k :: k in m ==> weight(k, m[k]) == 0
    decreases |m|
  {
    if m != map[] {
      var c :| c in m && Total(m, weight) == weight(c, m[c]) + Total(m - {c}, weight);
      TotalZero(m - {c}, weight);
      assert forall k :: k in m && k != c ==> k in m - {c} && (m - {c})[k] == m[k];
    }
  }

  /** A non-negative sum bounds each of its terms. */
  lemma TotalBounds<K(!new), V>(m: map<K, V>, weight: (K, V) -> int, k: K)
    requires forall k :: k in m ==> weight(k, m[k]) >= 0
    requires k in m
    ensures weight(k, m[k]) <= Total(m, weight)
  {
    TotalSplit(m, weight, k);
    TotalZero(m - {k}, weight);
  }

  lemma TotalOfTwo<K(!new), V>(m: map<K, V>, weight: (K, V) -> int, a: K, b: K)
    requires m.Keys <= {a, b} && a != b
    ensures Total(m, weight) == (if a in m then weight(a, m[a]) else 0) + if b in m then weight(b, m[b]) else 0
  {
    if a in m { TotalSplit(m, weight, a); }
    var rest := m - {a};
    assert a !in m ==> rest == m;
    if b in m { TotalSplit(rest, weight, b); }
    assert rest - {b} == map[];
    assert b !in m ==> rest == map[];
  }
}
