/** Sums of naturals over sequences and maps, for termination measures. */
module Sums {
  ghost function SumSeq(xs: seq<nat>): nat {
    if xs == [] then 0 else xs[0] + SumSeq(xs[1..])
  }

  lemma {:induction false} SumSeqUpdate(xs: seq<nat>, i: nat, v: nat)
    requires i < |xs|
    ensures SumSeq(xs[i := v]) == SumSeq(xs) - xs[i] + v
  {
    if i > 0 {
      SumSeqUpdate(xs[1..], i - 1, v);
      assert xs[i := v][1..] == xs[1..][i - 1 := v];
    } else {
      assert xs[i := v][1..] == xs[1..];
    }
  }

  lemma {:induction false} SumSeqGrowth(xs: seq<nat>, ys: seq<nat>)
    requires |xs| == |ys| && forall i | 0 <= i < |xs| :: ys[i] <= xs[i] + 1
    ensures SumSeq(ys) <= SumSeq(xs) + |xs|
  {
    if xs != [] {
      SumSeqGrowth(xs[1..], ys[1..]);
    }
  }

  /** A sequence with at most one entry that is not zero. */
  lemma {:induction false} SumSeqOne(xs: seq<nat>, c: nat)
    requires forall i | 0 <= i < |xs| && i != c :: xs[i] == 0
    ensures SumSeq(xs) == if c < |xs| then xs[c] else 0
  {
    if xs != [] {
      SumSeqOne(xs[1..], if c == 0 then |xs| else c - 1);
    }
  }

  ghost function SumMap<K>(m: map<K, nat>): nat
    decreases |m|
  {
    if m == map[] then 0
    else
      var x :| x in m;
      RemoveShrinks(m, x);
      m[x] + SumMap(m - {x})
  }

  lemma RemoveShrinks<K, V>(m: map<K, V>, x: K)
    requires x in m
    ensures |m - {x}| == |m| - 1
  {
    assert (m - {x}).Keys == m.Keys - {x};
    assert |(m - {x}).Keys| == |m.Keys| - 1;
  }

  /** The sum does not depend on the order in which the entries are removed. */
  lemma {:induction false} SumMapRemove<K>(m: map<K, nat>, x: K)
    requires x in m
    ensures SumMap(m) == m[x] + SumMap(m - {x})
    decreases |m|
  {
    RemoveShrinks(m, x);
    var y :| y in m && SumMap(m) == m[y] + SumMap(m - {y});
    RemoveShrinks(m, y);
    if y != x {
      SumMapRemove(m - {y}, x);
      SumMapRemove(m - {x}, y);
      assert m - {y} - {x} == m - {x} - {y};
    }
  }

  lemma SumMapUpdate<K>(m: map<K, nat>, x: K, v: nat)
    ensures SumMap(m[x := v]) == SumMap(m - {x}) + v
    ensures x in m ==> SumMap(m[x := v]) == SumMap(m) - m[x] + v
    ensures x !in m ==> SumMap(m[x := v]) == SumMap(m) + v
  {
    SumMapRemove(m[x := v], x);
    assert m[x := v] - {x} == m - {x};
    if x in m {
      SumMapRemove(m, x);
    } else {
      assert m - {x} == m;
    }
  }
}
