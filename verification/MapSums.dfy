/** Sums of a weight over the rows of a table, where a table is a map from id to row. */
module MapSums {

  ghost function Sum<K, V>(m: map<K, V>, w: V -> real): real
    decreases |m|
  {
    if m == map[] then 0.0
    else
      var k :| k in m;
      w(m[k]) + Sum(m - {k}, w)
  }

  // The sum does not depend on the order in which rows are visited.
  lemma {:induction false} SumPick<K, V>(m: map<K, V>, k: K, w: V -> real)
    requires k in m
    ensures Sum(m, w) == w(m[k]) + Sum(m - {k}, w)
    decreases |m|
  {
    var k0 :| k0 in m && Sum(m, w) == w(m[k0]) + Sum(m - {k0}, w);
    if k0 != k {
      SumPick(m - {k0}, k, w);
      SumPick(m - {k}, k0, w);
      assert m - {k0} - {k} == m - {k} - {k0};
    }
  }

  lemma {:induction false} SumUpdate<K, V>(m: map<K, V>, k: K, v: V, w: V -> real)
    ensures Sum(m[k := v], w) == Sum(m, w) + w(v) - (if k in m then w(m[k]) else 0.0)
  {
    SumPick(m[k := v], k, w);
    if k in m {
      SumPick(m, k, w);
      assert m[k := v] - {k} == m - {k};
    } else {
      assert m[k := v] - {k} == m;
    }
  }

  lemma {:induction false} SumNonNegative<K, V>(m: map<K, V>, w: V -> real)
    requires forall k :: k in m ==> w(m[k]) >= 0.0
    ensures Sum(m, w) >= 0.0
    decreases |m|
  {
    if m != map[] {
      var k :| k in m;
      SumPick(m, k, w);
      SumNonNegative(m - {k}, w);
    }
  }

  // Two tables with the same ids and the same weight at every id have the same sum.
  lemma {:induction false} SumCongruent<K, V>(m: map<K, V>, n: map<K, V>, w: V -> real, u: V -> real)
    requires m.Keys == n.Keys
    requires forall k :: k in m ==> w(m[k]) == u(n[k])
    ensures Sum(m, w) == Sum(n, u)
    decreases |m|
  {
    if m == map[] {
      assert n.Keys == {};
    } else {
      var k :| k in m;
      SumPick(m, k, w);
      SumPick(n, k, u);
      SumCongruent(m - {k}, n - {k}, w, u);
    }
  }

  lemma {:induction false} SumSplit<K, V>(m: map<K, V>, w: V -> real, a: V -> real, b: V -> real)
    requires forall k :: k in m ==> w(m[k]) == a(m[k]) + b(m[k])
    ensures Sum(m, w) == Sum(m, a) + Sum(m, b)
    decreases |m|
  {
    if m != map[] {
      var k :| k in m;
      SumPick(m, k, w);
      SumPick(m, k, a);
      SumPick(m, k, b);
      SumSplit(m - {k}, w, a, b);
    }
  }
}
