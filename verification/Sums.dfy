/** Sums over the values of a map. */
module Sums {

  ghost function SumBy<K, V>(m: map<K, V>, f: V -> int): int
    decreases |m|
  {
    if m == map[] then 0 else
    var k :| k in m;
    f(m[k]) + SumBy(m - {k}, f)
  }

  /** Any one key may be taken out first. */
  lemma {:induction false} SumSplit<K, V>(m: map<K, V>, f: V -> int, k: K)
    requires k in m
    ensures SumBy(m, f) == f(m[k]) + SumBy(m - {k}, f)
    decreases |m|
  {
    var j :| j in m && SumBy(m, f) == f(m[j]) + SumBy(m - {j}, f);
    if j != k {
      SumSplit(m - {j}, f, k);
      SumSplit(m - {k}, f, j);
      assert (m - {j}) - {k} == (m - {k}) - {j};
    }
  }

  lemma {:induction false} SumUpdate<K, V>(m: map<K, V>, f: V -> int, k: K, v: V)
    ensures SumBy(m[k := v], f) == f(v) + SumBy(m - {k}, f)
    ensures SumBy(m[k := v], f) == SumBy(m, f) + f(v) - (if k in m then f(m[k]) else 0)
  {
    SumSplit(m[k := v], f, k);
    assert m[k := v] - {k} == m - {k};
    if k in m { SumSplit(m, f, k); } else { assert m - {k} == m; }
  }

  lemma {:induction false} SumRemove<K, V>(m: map<K, V>, f: V -> int, k: K)
    ensures SumBy(m - {k}, f) == SumBy(m, f) - (if k in m then f(m[k]) else 0)
  {
    if k in m { SumSplit(m, f, k); } else { assert m - {k} == m; }
  }

  lemma {:induction false} SumBounded<K, V>(m: map<K, V>, f: V -> int, g: V -> int)
    requires forall k | k in m :: f(m[k]) <= g(m[k])
    ensures SumBy(m, f) <= SumBy(m, g)
    decreases |m|
  {
    if m != map[] {
      var k :| k in m;
      SumSplit(m, f, k);
      SumSplit(m, g, k);
      SumBounded(m - {k}, f, g);
    }
  }

  lemma {:induction false} SumNonNegative<K, V>(m: map<K, V>, f: V -> int)
    requires forall k | k in m :: 0 <= f(m[k])
    ensures 0 <= SumBy(m, f)
    ensures forall k | k in m :: f(m[k]) <= SumBy(m, f)
    decreases |m|
  {
    if m != map[] {
      forall k | k in m ensures f(m[k]) <= SumBy(m, f) && 0 <= SumBy(m, f) {
        SumSplit(m, f, k);
        SumNonNegative(m - {k}, f);
      }
      var k :| k in m;
      assert f(m[k]) <= SumBy(m, f) && 0 <= SumBy(m, f);
    }
  }

  /** Values of at most `bound` each sum to at most `bound` a key. */
  lemma {:induction false} SumAtMost<K, V>(m: map<K, V>, f: V -> int, bound: int)
    requires forall k | k in m :: f(m[k]) <= bound
    ensures SumBy(m, f) <= |m| * bound
    decreases |m|
  {
    if m != map[] {
      var k :| k in m;
      SumSplit(m, f, k);
      SumAtMost(m - {k}, f, bound);
      assert (m - {k}).Keys == m.Keys - {k};
      assert |m| * bound == (|m| - 1) * bound + bound;
    }
  }

  /** A part of the map sums to no more than the whole. */
  lemma {:induction false} SumOfPart<K, V>(part: map<K, V>, m: map<K, V>, f: V -> int)
    requires part.Keys <= m.Keys && forall k | k in part :: part[k] == m[k]
    requires forall k | k in m :: 0 <= f(m[k])
    ensures SumBy(part, f) <= SumBy(m, f)
    decreases |m|
  {
    if m == map[] { assert part == map[]; }
    else {
      var k :| k in m;
      SumSplit(m, f, k);
      if k in part { SumSplit(part, f, k); } else { assert part - {k} == part; }
      SumOfPart(part - {k}, m - {k}, f);
    }
  }
}
