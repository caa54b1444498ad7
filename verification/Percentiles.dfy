/** Exact nearest-rank percentiles, and the bucket bounds that approximate them. */
module Percentiles {
  import opened Basics

  // ---- the exact percentile ----

  function Insert(x: nat, sorted: seq<nat>): seq<nat> {
    if sorted == [] || x <= sorted[0] then [x] + sorted else [sorted[0]] + Insert(x, sorted[1..])
  }

  function Sorted(samples: seq<nat>): seq<nat> {
    if samples == [] then [] else Insert(samples[0], Sorted(samples[1..]))
  }

  predicate Ascending(s: seq<nat>) {
    forall i, j :: 0 <= i < j < |s| ==> s[i] <= s[j]
  }

  /** How many samples are at most v. */
  function AtMost(samples: seq<nat>, v: int): nat {
    if samples == [] then 0 else AtMost(samples[1..], v) + if samples[0] <= v then 1 else 0
  }

  lemma {:induction false} InsertSorts(x: nat, s: seq<nat>)
    requires Ascending(s)
    ensures Ascending(Insert(x, s)) && |Insert(x, s)| == |s| + 1
    ensures forall i :: 0 <= i < |Insert(x, s)| ==> Insert(x, s)[i] == x || Insert(x, s)[i] in s
  {
    if s != [] && x > s[0] {
      InsertSorts(x, s[1..]);
    }
  }

  lemma {:induction false} InsertCounts(x: nat, s: seq<nat>, v: int)
    ensures AtMost(Insert(x, s), v) == AtMost(s, v) + if x <= v then 1 else 0
  {
    if s == [] || x <= s[0] {
      assert ([x] + s)[1..] == s;
    } else {
      InsertCounts(x, s[1..], v);
      var r := Insert(x, s[1..]);
      assert ([s[0]] + r)[1..] == r;
    }
  }

  /** Sorted is the samples in ascending order, each as often as it occurs. */
  lemma {:induction false} SortedSorts(samples: seq<nat>)
    ensures Ascending(Sorted(samples)) && |Sorted(samples)| == |samples|
    ensures forall v: int :: AtMost(Sorted(samples), v) == AtMost(samples, v)
  {
    if samples != [] {
      SortedSorts(samples[1..]);
      InsertSorts(samples[0], Sorted(samples[1..]));
      forall v: int ensures AtMost(Sorted(samples), v) == AtMost(samples, v) {
        InsertCounts(samples[0], Sorted(samples[1..]), v);
      }
    }
  }

  /** The nearest-rank percentile: the rank-th smallest sample, counting from 1. */
  function NearestRank(samples: seq<nat>, rank: nat): nat
    requires 1 <= rank <= |samples|
  {
    SortedSorts(samples);
    Sorted(samples)[rank - 1]
  }

  lemma {:induction false} AtMostAscending(s: seq<nat>, k: nat, v: int)
    requires Ascending(s) && k < |s|
    ensures AtMost(s, v) >= k + 1 <==> s[k] <= v
    decreases |s|
  {
    var t := s[1..];
    if k == 0 {
      if s[0] > v {
        NoneAtMost(s, v);
      }
    } else {
      AtMostAscending(t, k - 1, v);
    }
  }

  lemma {:induction false} NoneAtMost(s: seq<nat>, v: int)
    requires forall i :: 0 <= i < |s| ==> s[i] > v
    ensures AtMost(s, v) == 0
  {
    if s != [] {
      NoneAtMost(s[1..], v);
    }
  }

  /** A value reaches the percentile exactly when at least `rank` samples are at most it. */
  lemma RankReached(samples: seq<nat>, rank: nat, v: int)
    requires 1 <= rank <= |samples|
    ensures AtMost(samples, v) >= rank <==> NearestRank(samples, rank) <= v
  {
    SortedSorts(samples);
    AtMostAscending(Sorted(samples), rank - 1, v);
  }

  lemma {:induction false} AtMostAppend(samples: seq<nat>, x: nat, v: int)
    ensures AtMost(samples + [x], v) == AtMost(samples, v) + if x <= v then 1 else 0
  {
    if samples == [] {
      assert samples + [x] == [x];
    } else {
      assert (samples + [x])[1..] == samples[1..] + [x];
      AtMostAppend(samples[1..], x, v);
    }
  }

  lemma {:induction false} AllAtMost(samples: seq<nat>, v: int)
    requires forall i :: 0 <= i < |samples| ==> samples[i] <= v
    ensures AtMost(samples, v) == |samples|
  {
    if samples != [] {
      AllAtMost(samples[1..], v);
    }
  }

  // ---- the rank ----

  /** The rank as it is computed, without forming count * percentile. */
  function Rank(count: nat, percentile: nat): nat {
    (count / 100) * percentile + ((count % 100) * percentile + 99) / 100
  }

  /** The split formula is the ceiling of count * percentile / 100, between 1 and count. */
  lemma RankIsCeiling(count: nat, percentile: nat)
    requires count >= 1 && 1 <= percentile <= 100
    ensures Rank(count, percentile) == (count * percentile + 99) / 100
    ensures 1 <= Rank(count, percentile) <= count
  {
    var q, r := count / 100, count % 100;
    Distribute(q, r, percentile);
    SplitCeiling(q * percentile, r * percentile);
    RemainderBounds(r, percentile);
    QuotientBounds(q, percentile);
  }

  lemma Distribute(q: nat, r: nat, p: nat)
    ensures (100 * q + r) * p == 100 * (q * p) + r * p
  {
  }

  lemma SplitCeiling(a: nat, b: nat)
    ensures (100 * a + b + 99) / 100 == a + (b + 99) / 100
  {
  }

  lemma RemainderBounds(r: nat, p: nat)
    requires 1 <= p <= 100
    ensures (r * p + 99) / 100 <= r && (r >= 1 ==> (r * p + 99) / 100 >= 1)
  {
    QuotientBounds(r, p);
    CeilingBounds(r * p, r);
  }

  lemma CeilingBounds(x: nat, r: nat)
    requires x <= 100 * r
    ensures (x + 99) / 100 <= r && (x >= 1 ==> (x + 99) / 100 >= 1)
  {
  }

  lemma QuotientBounds(q: nat, p: nat)
    requires 1 <= p <= 100
    ensures q * p <= 100 * q && (q >= 1 ==> q * p >= 1)
  {
    assert q * p <= q * 100;
    if q >= 1 {
      assert q * p >= 1 * p;
    }
  }

  // ---- the bucket bounds ----

  const BUCKETS: nat := 258
  const UINT64_MAX: nat := 0xFFFF_FFFF_FFFF_FFFF

  /** The upper bound of bucket i, in microseconds. */
  function Bound(i: nat): nat {
    if i <= 16 then i
    else if i < BUCKETS - 1 then Scaled(Part(i), Exponent(i))
    else UINT64_MAX
  }

  function Part(i: nat): nat
    requires i >= 17
  {
    (i - 17) % 8 + 1
  }

  function Exponent(i: nat): nat
    requires i >= 17
  {
    (i - 17) / 8 + 1
  }

  /** (8 + part) shifted left by the exponent. */
  function Scaled(part: nat, exponent: nat): nat {
    (8 + part) * Power2(exponent)
  }

  lemma Power2Values()
    ensures Power2(1) == 2 && Power2(30) == 0x4000_0000
  {
    assert Power2(6) == 64;
    assert Power2(12) == 4096;
    assert Power2(18) == 0x4_0000;
    assert Power2(24) == 0x100_0000;
  }

  lemma PartStep(i: nat)
    requires i > 17
    ensures 1 <= Part(i) <= 8 && Exponent(i) >= 1
    ensures if Part(i) == 1 then Part(i - 1) == 8 && Exponent(i) == Exponent(i - 1) + 1
            else Part(i - 1) == Part(i) - 1 && Exponent(i - 1) == Exponent(i)
  {
  }

  /** One bucket to the next: an eighth of the power of two they lie above. */
  lemma BoundStep(i: nat)
    requires 17 <= i < BUCKETS - 1
    ensures var w := Power2(Exponent(i)); Bound(i) == Bound(i - 1) + w && Bound(i - 1) >= 8 * w
  {
    if i == 17 {
      Power2Values();
    } else {
      PartStep(i);
      hide Part, Exponent;
      if Part(i) == 1 {
        assert Power2(Exponent(i)) == 2 * Power2(Exponent(i - 1));
      } else {
        hide Power2;
        NextPart(Part(i), Power2(Exponent(i)));
      }
    }
  }

  lemma NextPart(part: nat, w: nat)
    requires part >= 1
    ensures (8 + part) * w == (8 + (part - 1)) * w + w && (part >= 1 ==> (8 + (part - 1)) * w >= 8 * w)
  {
    assert (part - 1) * w >= 0;
  }

  /** The last finite bound is 2^34 microseconds. */
  lemma LastBound()
    ensures Bound(BUCKETS - 2) == 0x4_0000_0000
  {
    Power2Values();
  }

  lemma {:induction false} BoundsIncrease(i: nat, j: nat)
    requires i < j < BUCKETS
    ensures Bound(i) < Bound(j)
    decreases j
  {
    NextBound(j - 1);
    if i < j - 1 {
      BoundsIncrease(i, j - 1);
    }
  }

  lemma NextBound(i: nat)
    requires i + 1 < BUCKETS
    ensures Bound(i) < Bound(i + 1)
  {
    if i == BUCKETS - 2 {
      LastBound();
    } else if i >= 16 {
      BoundStep(i + 1);
    }
  }

  /** The bucket a value falls into. */
  predicate InBucket(v: int, i: nat) {
    i < BUCKETS && v <= Bound(i) && (i > 0 ==> Bound(i - 1) < v)
  }

  lemma BucketAtMost(v: int, i: nat, j: nat)
    requires InBucket(v, i) && j < BUCKETS
    ensures i <= j <==> v <= Bound(j)
  {
    if i < j {
      BoundsIncrease(i, j);
    } else if j < i - 1 {
      BoundsIncrease(j, i - 1);
    }
  }

  /** How far a bucket's bound can be above a value in it. */
  lemma BucketError(v: nat, i: nat)
    requires InBucket(v, i)
    ensures v <= 16 ==> Bound(i) == v
    ensures 1 <= v <= 0x4_0000_0000 ==> 8 * Bound(i) < 9 * v
  {
    LastBound();
    if i >= 17 {
      BucketAtMost(v, i, 16);
      BucketAtMost(v, i, BUCKETS - 2);
      if i < BUCKETS - 1 {
        BoundStep(i);
      }
    }
  }
}
