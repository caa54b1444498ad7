/** The latency histogram: buckets updated in place, percentiles read from their sums. */
module LatencyHistogram {
  import opened Basics
  import opened Percentiles

  /** Nanoseconds to microseconds, rounded up. */
  function CeilUs(ns: nat): nat {
    ns / 1000 + if ns % 1000 != 0 then 1 else 0
  }

  lemma CeilMonotone(a: nat, b: nat)
    requires a <= b
    ensures CeilUs(a) <= CeilUs(b)
  {
  }

  function Micros(samples: seq<nat>): (us: seq<nat>)
    ensures |us| == |samples| && forall i :: 0 <= i < |samples| ==> us[i] == CeilUs(samples[i])
  {
    seq(|samples|, i requires 0 <= i < |samples| => CeilUs(samples[i]))
  }

  /** Sum of the buckets below n. */
  function Prefix(buckets: seq<nat>, n: nat): nat
    requires n <= |buckets|
  {
    if n == 0 then 0 else Prefix(buckets, n - 1) + buckets[n - 1]
  }

  lemma {:induction false} PrefixIncrement(buckets: seq<nat>, k: nat, n: nat)
    requires k < |buckets| && n <= |buckets|
    ensures Prefix(buckets[k := buckets[k] + 1], n) == Prefix(buckets, n) + if k < n then 1 else 0
  {
    if n > 0 {
      PrefixIncrement(buckets, k, n - 1);
    }
  }

  /** BucketBounds: the table is filled by two nested loops. */
  method BucketBounds() returns (bounds: array<nat>)
    ensures fresh(bounds) && bounds.Length == BUCKETS
    ensures forall i :: 0 <= i < BUCKETS ==> bounds[i] == Bound(i)
  {
    bounds := new nat[BUCKETS];
    var i := 0;
    while i <= 16
      invariant i <= 17 && forall j :: 0 <= j < i ==> bounds[j] == Bound(j)
    {
      bounds[i] := i;
      i := i + 1;
    }
    var index, exponent, power := 17, 1, 2;
    while exponent <= 30
      invariant 1 <= exponent <= 31 && index == 17 + 8 * (exponent - 1) && power == Power2(exponent)
      invariant forall j :: 0 <= j < index ==> bounds[j] == Bound(j)
    {
      var part := 1;
      while part <= 8
        invariant 1 <= part <= 9 && index == 17 + 8 * (exponent - 1) + part - 1
        invariant forall j :: 0 <= j < index ==> bounds[j] == Bound(j)
      {
        IndexParts(index, exponent, part);
        bounds[index] := (8 + part) * power;
        index := index + 1;
        part := part + 1;
      }
      exponent := exponent + 1;
      power := power * 2;
    }
    bounds[BUCKETS - 1] := UINT64_MAX;
  }

  lemma IndexParts(index: nat, exponent: nat, part: nat)
    requires 1 <= exponent <= 30 && 1 <= part <= 8 && index == 17 + 8 * (exponent - 1) + part - 1
    ensures 17 <= index < BUCKETS - 1 && Part(index) == part && Exponent(index) == exponent
  {
  }

  /** std::lower_bound over the bounds: the first bucket that is not below the value. */
  method LowerBound(bounds: array<nat>, us: nat) returns (index: nat)
    requires bounds.Length == BUCKETS && us <= UINT64_MAX && forall i :: 0 <= i < BUCKETS ==> bounds[i] == Bound(i)
    ensures InBucket(us, index)
  {
    var low, high := 0, BUCKETS;
    while low < high
      invariant 0 <= low <= high <= BUCKETS
      invariant low > 0 ==> Bound(low - 1) < us
      invariant high < BUCKETS ==> us <= Bound(high)
    {
      var mid := (low + high) / 2;
      if bounds[mid] < us {
        low := mid + 1;
      } else {
        high := mid;
      }
    }
    index := low;
  }

  class Histogram {
    const bounds: array<nat>
    var buckets: array<nat>
    var count: nat
    var maxNs: nat
    ghost var samples: seq<nat>

    ghost predicate Valid()
      reads this, bounds, buckets
    {
      && bounds.Length == BUCKETS && buckets.Length == BUCKETS && bounds != buckets
      && (forall i :: 0 <= i < BUCKETS ==> bounds[i] == Bound(i))
      && Represents(buckets[..], count, maxNs, samples)
    }

    constructor ()
      ensures Valid() && samples == [] && fresh(buckets) && fresh(bounds)
    {
      var table := BucketBounds();
      bounds := table;
      buckets := new nat[BUCKETS](_ => 0);
      count, maxNs, samples := 0, 0, [];
      new;
      EmptyRepresents(buckets[..]);
    }

    /** Adds a sample, in nanoseconds. */
    method Add(ns: nat)
      requires Valid() && ns <= UINT64_MAX
      modifies this, buckets
      ensures Valid() && samples == old(samples) + [ns] && buckets == old(buckets)
    {
      hide Represents, InBucket;
      CeilFits(ns);
      var index := LowerBound(bounds, CeilUs(ns));
      BucketIndex(CeilUs(ns), index);
      ghost var before := buckets[..];
      buckets[index] := buckets[index] + 1;
      assert buckets[..] == before[index := before[index] + 1];
      AddRepresents(before, count, maxNs, samples, ns, index);
      count := count + 1;
      maxNs := Max(maxNs, ns);
      samples := samples + [ns];
    }

    /**
     The percentile read from the buckets: never below the exact nearest-rank percentile of
     the rounded samples, never above the maximum, exact up to 16 microseconds, and less
     than one eighth above it up to 2^34 microseconds.
     */
    method PercentileUs(percentile: nat) returns (r: nat)
      requires Valid()
      ensures samples == [] ==> r == 0
      ensures samples != [] ==> Approximates(samples, Clamped(percentile), r)
    {
      if count == 0 {
        return 0;
      }
      var p := Clamped(percentile);
      var rank := (count / 100) * p + ((count % 100) * p + 99) / 100;
      RankIsCeiling(count, p);
      var seen, i := 0, 0;
      AllReached(buckets[..], count, maxNs, samples, rank);
      while i < BUCKETS
        invariant i <= BUCKETS && seen == Prefix(buckets[..], i) && seen < rank
      {
        assert buckets[..][i] == buckets[i];
        seen := seen + buckets[i];
        if seen >= rank {
          FirstReached(buckets[..], count, maxNs, samples, p, rank, i);
          return Min(bounds[i], CeilUs(maxNs));
        }
        i := i + 1;
      }
      assert false;
    }
  }

  function Clamped(percentile: nat): nat {
    if percentile < 1 then 1 else if percentile > 100 then 100 else percentile
  }

  /** Each bucket sum counts the samples up to the bucket's bound. */
  ghost predicate Represents(buckets: seq<nat>, count: nat, maxNs: nat, samples: seq<nat>) {
    && |buckets| == BUCKETS && count == |samples|
    && (forall i :: 0 <= i < BUCKETS ==> Prefix(buckets, i + 1) == AtMost(Micros(samples), Bound(i)))
    && (forall i :: 0 <= i < |samples| ==> samples[i] <= maxNs)
    && (if samples == [] then maxNs == 0 else maxNs in samples) && maxNs <= UINT64_MAX
  }

  lemma {:induction false} EmptyPrefix(buckets: seq<nat>, n: nat)
    requires n <= |buckets| && forall i :: 0 <= i < |buckets| ==> buckets[i] == 0
    ensures Prefix(buckets, n) == 0
  {
    if n > 0 {
      EmptyPrefix(buckets, n - 1);
    }
  }

  lemma EmptyRepresents(buckets: seq<nat>)
    requires |buckets| == BUCKETS && forall i :: 0 <= i < BUCKETS ==> buckets[i] == 0
    ensures Represents(buckets, 0, 0, [])
  {
    assert Micros([]) == [];
    forall i | 0 <= i < BUCKETS ensures Prefix(buckets, i + 1) == AtMost(Micros([]), Bound(i)) {
      EmptyPrefix(buckets, i + 1);
    }
  }

  lemma CeilFits(ns: nat)
    requires ns <= UINT64_MAX
    ensures CeilUs(ns) <= UINT64_MAX
  {
  }

  lemma BucketIndex(v: nat, i: nat)
    requires InBucket(v, i)
    ensures i < BUCKETS
  {
  }

  lemma AddRepresents(buckets: seq<nat>, count: nat, maxNs: nat, samples: seq<nat>, ns: nat, index: nat)
    requires Represents(buckets, count, maxNs, samples) && ns <= UINT64_MAX && InBucket(CeilUs(ns), index)
    ensures Represents(buckets[index := buckets[index] + 1], count + 1, Max(maxNs, ns), samples + [ns])
  {
    var us, more := Micros(samples), samples + [ns];
    assert Micros(more) == us + [CeilUs(ns)];
    var b := buckets[index := buckets[index] + 1];
    forall i | 0 <= i < BUCKETS ensures Prefix(b, i + 1) == AtMost(Micros(more), Bound(i)) {
      PrefixIncrement(buckets, index, i + 1);
      AtMostAppend(us, CeilUs(ns), Bound(i));
      BucketAtMost(CeilUs(ns), index, i);
    }
    hide InBucket, Prefix, AtMost, CeilUs;
    MaxAppend(samples, maxNs, ns);
  }

  lemma MaxAppend(samples: seq<nat>, maxNs: nat, ns: nat)
    requires (forall i :: 0 <= i < |samples| ==> samples[i] <= maxNs) && (samples != [] ==> maxNs in samples)
    ensures var more := samples + [ns];
            (forall i :: 0 <= i < |more| ==> more[i] <= Max(maxNs, ns)) &&
                (samples != [] || maxNs <= ns ==> Max(maxNs, ns) in more)
  {
    var more := samples + [ns];
    assert more[|samples|] == ns;
    if samples != [] {
      var i :| 0 <= i < |samples| && samples[i] == maxNs;
      assert more[i] == maxNs;
    }
  }

  // ---- reading a percentile ----

  predicate Approximates(samples: seq<nat>, percentile: nat, r: nat)
    requires samples != [] && 1 <= percentile <= 100
  {
    RankIsCeiling(|samples|, percentile);
    var v := NearestRank(Micros(samples), Rank(|samples|, percentile));
    && v <= r && (exists i :: 0 <= i < |samples| && r <= CeilUs(samples[i]))
    && (v <= 16 ==> r == v)
    && (1 <= v <= 0x4_0000_0000 ==> 8 * r < 9 * v)
  }

  lemma MicrosBelowMax(samples: seq<nat>, maxNs: nat)
    requires forall i :: 0 <= i < |samples| ==> samples[i] <= maxNs
    ensures forall i :: 0 <= i < |samples| ==> Micros(samples)[i] <= CeilUs(maxNs)
  {
    forall i | 0 <= i < |samples| ensures Micros(samples)[i] <= CeilUs(maxNs) {
      CeilMonotone(samples[i], maxNs);
    }
  }

  /** All buckets together reach every rank. */
  lemma AllReached(buckets: seq<nat>, count: nat, maxNs: nat, samples: seq<nat>, rank: nat)
    requires Represents(buckets, count, maxNs, samples) && rank <= count
    ensures Prefix(buckets, BUCKETS) >= rank
  {
    MicrosBelowMax(samples, maxNs);
    CeilFits(maxNs);
    AllAtMost(Micros(samples), UINT64_MAX);
    assert Prefix(buckets, BUCKETS - 1 + 1) == AtMost(Micros(samples), Bound(BUCKETS - 1));
  }

  /** The first bucket sum that reaches the rank is the bucket of the percentile. */
  lemma FirstReached(buckets: seq<nat>, count: nat, maxNs: nat, samples: seq<nat>, p: nat, rank: nat, i: nat)
    requires Represents(buckets, count, maxNs, samples) && samples != [] && 1 <= p <= 100
    requires rank == Rank(count, p) && i < BUCKETS && Prefix(buckets, i) < rank <= Prefix(buckets, i + 1)
    ensures Approximates(samples, p, Min(Bound(i), CeilUs(maxNs)))
  {
    RankIsCeiling(count, p);
    var us := Micros(samples);
    var v := NearestRank(us, rank);
    RankReached(us, rank, Bound(i));
    if i > 0 {
      RankReached(us, rank, Bound(i - 1));
      assert Prefix(buckets, (i - 1) + 1) == AtMost(us, Bound(i - 1));
    }
    assert Prefix(buckets, i + 1) == AtMost(us, Bound(i));
    BucketError(v, i);
    MicrosBelowMax(samples, maxNs);
    AllAtMost(us, CeilUs(maxNs));
    RankReached(us, rank, CeilUs(maxNs));
    var k :| 0 <= k < |samples| && samples[k] == maxNs;
  }
}
