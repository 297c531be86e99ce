/** Sums of a finite map's values, with the algebra the conservation proofs use. */
module Sums {
  /** A non-empty set has an element. */
  lemma Pick<T>(s: set<T>) returns (x: T)
    requires s != {}
    ensures x in s
  {
    x :| x in s;
  }

  /** The sum of all values of `m`; the order in which keys are visited is irrelevant. */
  ghost function SumMap<K>(m: map<K, real>): real
    decreases |m|
  {
    if m == map[] then 0.0
    else
      var k :| k in m;
      m[k] + SumMap(m - {k})
  }

  lemma {:induction false} SumMapRemove<K>(m: map<K, real>, k: K)
    requires k in m
    ensures SumMap(m) == m[k] + SumMap(m - {k})
    decreases |m|
  {
    var c :| c in m && SumMap(m) == m[c] + SumMap(m - {c});
    if c != k {
      SumMapRemove(m - {c}, k);
      SumMapRemove(m - {k}, c);
      assert m - {c} - {k} == m - {k} - {c};
    }
  }

  lemma SumMapUpdate<K>(m: map<K, real>, k: K, v: real)
    ensures SumMap(m[k := v]) == SumMap(m) - (if k in m then m[k] else 0.0) + v
  {
    SumMapRemove(m[k := v], k);
    if k in m {
      SumMapRemove(m, k);
      assert m[k := v] - {k} == m - {k};
    } else {
      assert m[k := v] - {k} == m;
    }
  }

  lemma SplitRemove<K>(m: map<K, real>, a: map<K, real>, b: map<K, real>, k: K)
    requires a.Keys !! b.Keys && m == a + b && k in a
    ensures m[k] == a[k] && (a - {k}).Keys !! b.Keys && m - {k} == (a - {k}) + b
  {
  }

  /** Cutting a map in two cuts its sum in two. */
  lemma {:induction false} SumMapSplit<K>(m: map<K, real>, a: map<K, real>, b: map<K, real>)
    requires a.Keys !! b.Keys && m == a + b
    ensures SumMap(m) == SumMap(a) + SumMap(b)
    decreases |a|
  {
    if a == map[] {
      assert m == b;
    } else {
      var k :| k in a;
      SplitRemove(m, a, b, k);
      SumMapRemove(a, k);
      SumMapRemove(m, k);
      SumMapSplit(m - {k}, a - {k}, b);
    }
  }

  lemma {:induction false} SumMapZero<K>(m: map<K, real>)
    requires forall k :: k in m ==> m[k] == 0.0
    ensures SumMap(m) == 0.0
    decreases |m|
  {
    if m != map[] {
      var k :| k in m;
      SumMapRemove(m, k);
      SumMapZero(m - {k});
    }
  }
}
