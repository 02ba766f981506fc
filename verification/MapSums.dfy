/** Sums over the values of a map and of a row of maps. */
module MapSums {
  ghost function SumBy<K, V>(m: map<K, V>, f: V -> nat): nat
    decreases |m|
  {
    if m == map[] then 0
    else
      var k :| k in m;
      f(m[k]) + SumBy(m - {k}, f)
  }

  /** The sum does not depend on the order in which keys are taken out. */
  lemma {:induction false} SumByWithout<K, V>(m: map<K, V>, f: V -> nat, k: K)
    requires k in m
    ensures SumBy(m, f) == f(m[k]) + SumBy(m - {k}, f)
    decreases |m|
  {
    var j :| j in m && SumBy(m, f) == f(m[j]) + SumBy(m - {j}, f);
    if j != k {
      SumByWithout(m - {j}, f, k);
      SumByWithout(m - {k}, f, j);
      assert m - {j} - {k} == m - {k} - {j};
    }
  }

  lemma SumByUpdate<K, V>(m: map<K, V>, f: V -> nat, k: K, v: V)
    ensures SumBy(m[k := v], f) == SumBy(m, f) + f(v) - if k in m then f(m[k]) else 0
  {
    SumByWithout(m[k := v], f, k);
    assert m[k := v] - {k} == m - {k};
    if k in m {
      SumByWithout(m, f, k);
    } else {
      assert m - {k} == m;
    }
  }

  lemma UnionWithout<K, V>(a: map<K, V>, b: map<K, V>, k: K)
    requires a.Keys !! b.Keys && k in b
    ensures (a + b) - {k} == a + (b - {k}) && a.Keys !! (b - {k}).Keys
    ensures |b - {k}| < |b| && k in a + b && (a + b)[k] == b[k]
  {
  }

  lemma {:induction false} SumByUnion<K, V>(a: map<K, V>, b: map<K, V>, f: V -> nat)
    requires a.Keys !! b.Keys
    ensures SumBy(a + b, f) == SumBy(a, f) + SumBy(b, f)
    decreases |b|
  {
    if b == map[] {
      assert a + b == a;
    } else {
      var k :| k in b;
      hide SumBy;
      UnionWithout(a, b, k);
      SumByWithout(b, f, k);
      SumByWithout(a + b, f, k);
      SumByUnion(a, b - {k}, f);
    }
  }

  ghost function RowSum<K, V>(row: seq<map<K, V>>, f: V -> nat): nat {
    if row == [] then 0 else RowSum(row[..|row| - 1], f) + SumBy(row[|row| - 1], f)
  }

  lemma {:induction false} RowSumUpdate<K, V>(row: seq<map<K, V>>, f: V -> nat, i: nat, m: map<K, V>)
    requires i < |row|
    ensures RowSum(row[i := m], f) == RowSum(row, f) + SumBy(m, f) - SumBy(row[i], f)
  {
    var n := |row| - 1;
    if i == n {
      assert row[i := m][..n] == row[..n];
    } else {
      RowSumUpdate(row[..n], f, i, m);
      assert row[i := m][..n] == row[..n][i := m];
    }
  }

  lemma {:induction false} RowSumOfEmpty<K, V>(row: seq<map<K, V>>, f: V -> nat)
    requires forall i :: 0 <= i < |row| ==> row[i] == map[]
    ensures RowSum(row, f) == 0
  {
    if row != [] {
      RowSumOfEmpty(row[..|row| - 1], f);
    }
  }
}
