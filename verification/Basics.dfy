/** Small shared vocabulary: optional values, the largest id of a table, and sums over the rows of a
    table (a table is a finite map from primary key to row). */
module Basics {

  datatype Option<+T> = None | Some(value: T)

  /** `coalesce(max(id), 0)` over a set of ids. */
  function MaxOf(ids: set<nat>): (r: nat)
    ensures ids == {} ==> r == 0
    ensures ids != {} ==> r in ids
    ensures forall i :: i in ids ==> i <= r
  {
    if ids == {} then 0
    else
      HasMax(ids);
      var k :| k in ids && forall i :: i in ids ==> i <= k;
      k
  }

  lemma {:induction false} HasMax(ids: set<nat>)
    requires ids != {}
    ensures exists k :: k in ids && forall i :: i in ids ==> i <= k
    decreases |ids|
  {
    var x :| x in ids;
    if ids - {x} == {} {
      assert ids == {x};
    } else {
      HasMax(ids - {x});
      var k :| k in ids - {x} && forall i :: i in ids - {x} ==> i <= k;
      var top := if x < k then k else x;
      assert top in ids && forall i :: i in ids ==> i <= top by {
        forall i | i in ids ensures i <= top { assert i == x || i in ids - {x}; }
      }
    }
  }

  ghost function Pick<K, V>(m: map<K, V>): K
    requires m != map[]
  {
    var k :| k in m; k
  }

  /** The sum of `f` over the rows of `m`. */
  ghost function Sum<K, V>(m: map<K, V>, f: (K, V) -> int): int
    decreases |m|
  {
    if m == map[] then 0
    else
      var k := Pick(m);
      f(k, m[k]) + Sum(m - {k}, f)
  }

  /** The sum does not depend on the order in which rows are visited: any row can be taken out first. */
  lemma {:induction false} SumTake<K, V>(m: map<K, V>, f: (K, V) -> int, k: K)
    requires k in m
    ensures Sum(m, f) == f(k, m[k]) + Sum(m - {k}, f)
    decreases |m|
  {
    var p := Pick(m);
    if p != k {
      SumTake(m - {p}, f, k);
      SumTake(m - {k}, f, p);
      assert m - {p} - {k} == m - {k} - {p};
    }
  }

  /** Adding, or overwriting, one row. */
  lemma SumUpdate<K, V>(m: map<K, V>, f: (K, V) -> int, k: K, v: V)
    ensures Sum(m[k := v], f) == Sum(m - {k}, f) + f(k, v)
  {
    SumTake(m[k := v], f, k);
    assert m[k := v] - {k} == m - {k};
  }

  lemma SumUnionTake<K, V>(m: map<K, V>, n: map<K, V>, f: (K, V) -> int, k: K)
    requires k in n && k !in m
    ensures Sum(m + n, f) == f(k, n[k]) + Sum(m + (n - {k}), f)
  {
    assert (m + n) - {k} == m + (n - {k});
    SumTake(m + n, f, k);
  }

  /** Sums of tables with different keys add up. */
  lemma {:induction false} SumUnion<K, V>(m: map<K, V>, n: map<K, V>, f: (K, V) -> int)
    requires forall k :: k in n ==> k !in m
    ensures Sum(m + n, f) == Sum(m, f) + Sum(n, f)
    decreases |n|
  {
    if n == map[] {
      assert m + n == m;
    } else {
      var k := Pick(n);
      SumUnionTake(m, n, f, k);
      SumUnion(m, n - {k}, f);
    }
  }

  /** Functions that agree on the rows of a table have the same sum over it. */
  lemma {:induction false} SumSame<K, V>(m: map<K, V>, f: (K, V) -> int, g: (K, V) -> int)
    requires forall k :: k in m ==> f(k, m[k]) == g(k, m[k])
    ensures Sum(m, f) == Sum(m, g)
    decreases |m|
  {
    if m != map[] {
      SumSame(m - {Pick(m)}, f, g);
    }
  }

  /** A table all of whose rows weigh nothing sums to nothing. */
  lemma {:induction false} SumZero<K, V>(m: map<K, V>, f: (K, V) -> int)
    requires forall k :: k in m ==> f(k, m[k]) == 0
    ensures Sum(m, f) == 0
    decreases |m|
  {
    if m != map[] {
      SumZero(m - {Pick(m)}, f);
    }
  }
}
