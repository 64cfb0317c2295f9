/** The latency histogram (src/server/Metrics.cpp) against the nearest-rank percentiles of the recorded samples. */
module Metrics {

  const WORD: nat := 0x1_0000_0000_0000_0000
  const LATENCY_BUCKET_COUNT: nat := 14
  const LATENCY_BUCKETS_US: seq<nat> :=
    [100, 250, 500, 1000, 2000, 5000, 10000, 25000, 50000, 100000, 250000, 500000, 1000000, 5000000]

  /** Arithmetic on 64-bit words. */
  function Wrap(x: nat): (r: nat)
    ensures r < WORD && (x < WORD ==> r == x)
  {
    x % WORD
  }

  // ----- buckets -----

  /** The first bucket from `i` on whose bound is not below the sample; the last one takes what is above all bounds. */
  function BucketFrom(us: nat, i: nat): (b: nat)
    requires i < LATENCY_BUCKET_COUNT
    ensures i <= b < LATENCY_BUCKET_COUNT
    decreases LATENCY_BUCKET_COUNT - i
  {
    if us <= LATENCY_BUCKETS_US[i] || i == LATENCY_BUCKET_COUNT - 1 then i else BucketFrom(us, i + 1)
  }

  function BucketOf(us: nat): (b: nat)
    ensures b < LATENCY_BUCKET_COUNT
  {
    BucketFrom(us, 0)
  }

  lemma {:induction false} BucketIsMonotone(us: nat, more: nat, i: nat)
    requires us <= more && i < LATENCY_BUCKET_COUNT
    ensures BucketFrom(us, i) <= BucketFrom(more, i)
    decreases LATENCY_BUCKET_COUNT - i
  {
    if us > LATENCY_BUCKETS_US[i] && i < LATENCY_BUCKET_COUNT - 1 { BucketIsMonotone(us, more, i + 1); }
  }

  function CountIn(samples: seq<nat>, b: nat): (n: nat)
    ensures n <= |samples|
  {
    if samples == [] then 0 else CountIn(samples[..|samples| - 1], b) + if BucketOf(samples[|samples| - 1]) == b then 1 else 0
  }

  /** How many samples lie in buckets up to `b`. */
  function CountUpTo(samples: seq<nat>, b: nat): (n: nat)
    ensures n <= |samples|
  {
    if samples == [] then 0 else CountUpTo(samples[..|samples| - 1], b) + if BucketOf(samples[|samples| - 1]) <= b then 1 else 0
  }

  lemma {:induction false} CountUpToGrows(samples: seq<nat>, b: nat)
    ensures CountUpTo(samples, 0) == CountIn(samples, 0)
    ensures CountUpTo(samples, b + 1) == CountUpTo(samples, b) + CountIn(samples, b + 1)
    ensures CountUpTo(samples, LATENCY_BUCKET_COUNT - 1) == |samples|
  {
    hide BucketOf;
    if samples != [] { CountUpToGrows(samples[..|samples| - 1], b); }
  }

  // ----- the percentile of a histogram -----

  /** The sum of the first `n` buckets. */
  function Cumulative(buckets: seq<nat>, n: nat): nat
    requires n <= |buckets|
  {
    if n == 0 then 0 else Cumulative(buckets, n - 1) + buckets[n - 1]
  }

  /** The first bucket from `i` on at which the running sum reaches the target; the last one otherwise. */
  function ReachedFrom(buckets: seq<nat>, target: nat, i: nat): (b: nat)
    requires i <= |buckets| == LATENCY_BUCKET_COUNT
    ensures b < LATENCY_BUCKET_COUNT
    decreases LATENCY_BUCKET_COUNT - i
  {
    if i == LATENCY_BUCKET_COUNT then LATENCY_BUCKET_COUNT - 1
    else if Cumulative(buckets, i + 1) >= target then i
    else ReachedFrom(buckets, target, i + 1)
  }

  function Reached(buckets: seq<nat>, target: nat): (b: nat)
    requires |buckets| == LATENCY_BUCKET_COUNT
    ensures b < LATENCY_BUCKET_COUNT
  {
    ReachedFrom(buckets, target, 0)
  }

  lemma {:induction false} ReachedIs(buckets: seq<nat>, target: nat, i: nat, b: nat)
    requires i <= b < |buckets| == LATENCY_BUCKET_COUNT && Cumulative(buckets, b + 1) >= target
    requires forall j :: i < j <= b ==> Cumulative(buckets, j) < target
    ensures ReachedFrom(buckets, target, i) == b
    decreases b - i
  {
    if i < b { ReachedIs(buckets, target, i + 1, b); }
  }

  /** A higher target is never reached in an earlier bucket. */
  lemma {:induction false} ReachedIsMonotone(buckets: seq<nat>, target: nat, more: nat, i: nat)
    requires target <= more && i <= |buckets| == LATENCY_BUCKET_COUNT
    ensures ReachedFrom(buckets, target, i) <= ReachedFrom(buckets, more, i)
    decreases LATENCY_BUCKET_COUNT - i
  {
    if i < LATENCY_BUCKET_COUNT {
      ReachedIsMonotone(buckets, target, more, i + 1);
      AtLeast(buckets, more, i + 1);
    }
  }

  lemma {:induction false} AtLeast(buckets: seq<nat>, target: nat, i: nat)
    requires i <= |buckets| == LATENCY_BUCKET_COUNT
    ensures i < LATENCY_BUCKET_COUNT ==> ReachedFrom(buckets, target, i) >= i
    ensures i == LATENCY_BUCKET_COUNT ==> ReachedFrom(buckets, target, i) == i - 1
    decreases LATENCY_BUCKET_COUNT - i
  {
    if i < LATENCY_BUCKET_COUNT { AtLeast(buckets, target, i + 1); }
  }

  // ----- the reference: samples in order -----

  predicate Ordered(s: seq<nat>) { forall i, j :: 0 <= i < j < |s| ==> s[i] <= s[j] }

  function Inserted(s: seq<nat>, x: nat): seq<nat> {
    if s == [] || s[|s| - 1] <= x then s + [x] else Inserted(s[..|s| - 1], x) + [s[|s| - 1]]
  }

  function InOrder(samples: seq<nat>): seq<nat> {
    if samples == [] then [] else Inserted(InOrder(samples[..|samples| - 1]), samples[|samples| - 1])
  }

  lemma {:induction false} InsertedHas(s: seq<nat>, x: nat)
    ensures multiset(Inserted(s, x)) == multiset(s) + multiset{x}
  {
    if s != [] && s[|s| - 1] > x {
      InsertedHas(s[..|s| - 1], x);
      assert s == s[..|s| - 1] + [s[|s| - 1]];
    }
  }

  lemma {:induction false} InsertedBelow(s: seq<nat>, x: nat, bound: nat)
    requires x <= bound && forall i :: 0 <= i < |s| ==> s[i] <= bound
    ensures forall i :: 0 <= i < |Inserted(s, x)| ==> Inserted(s, x)[i] <= bound
  {
    if s != [] && s[|s| - 1] > x { InsertedBelow(s[..|s| - 1], x, bound); }
  }

  lemma {:induction false} InsertedOrdered(s: seq<nat>, x: nat)
    requires Ordered(s)
    ensures Ordered(Inserted(s, x))
  {
    if s != [] && s[|s| - 1] > x {
      InsertedOrdered(s[..|s| - 1], x);
      InsertedBelow(s[..|s| - 1], x, s[|s| - 1]);
    }
  }

  lemma {:induction false} InsertedCounts(s: seq<nat>, x: nat, b: nat)
    ensures CountUpTo(Inserted(s, x), b) == CountUpTo(s, b) + if BucketOf(x) <= b then 1 else 0
  {
    hide BucketOf;
    if s == [] || s[|s| - 1] <= x {
      assert (s + [x])[..|s|] == s;
    } else {
      var t := Inserted(s[..|s| - 1], x);
      InsertedCounts(s[..|s| - 1], x, b);
      assert (t + [s[|s| - 1]])[..|t|] == t;
    }
  }

  /** `InOrder` sorts: an ordered rearrangement with the same counts. */
  lemma {:induction false} InOrderIs(samples: seq<nat>, b: nat)
    ensures Ordered(InOrder(samples)) && multiset(InOrder(samples)) == multiset(samples)
    ensures CountUpTo(InOrder(samples), b) == CountUpTo(samples, b) && |InOrder(samples)| == |samples|
  {
    hide BucketOf;
    if samples != [] {
      var front, last := samples[..|samples| - 1], samples[|samples| - 1];
      InOrderIs(front, b);
      InsertedHas(InOrder(front), last);
      InsertedOrdered(InOrder(front), last);
      InsertedCounts(InOrder(front), last, b);
      assert samples == front + [last];
      SameSize(InOrder(samples), samples);
    }
  }

  lemma SameSize(s: seq<nat>, t: seq<nat>)
    requires multiset(s) == multiset(t)
    ensures |s| == |t|
  {
    assert |multiset(s)| == |s| && |multiset(t)| == |t|;
  }

  /** In ordered samples the bucket of the element at a rank tells how many lie up to a bucket. */
  lemma {:induction false} RankCounts(s: seq<nat>, rank: nat, b: nat)
    requires Ordered(s) && 1 <= rank <= |s|
    ensures BucketOf(s[rank - 1]) <= b ==> CountUpTo(s, b) >= rank
    ensures BucketOf(s[rank - 1]) > b ==> CountUpTo(s, b) < rank
  {
    var front, last := s[..|s| - 1], s[|s| - 1];
    BucketIsMonotone(s[rank - 1], last, 0);
    hide BucketFrom;
    if rank < |s| {
      RankCounts(front, rank, b);
    } else if BucketOf(last) <= b && |front| > 0 {
      BucketIsMonotone(front[|front| - 1], last, 0);
      RankCounts(front, |front|, b);
    }
  }

  /** The histogram agrees with the samples. */
  predicate Matches(buckets: seq<nat>, samples: seq<nat>) {
    |buckets| == LATENCY_BUCKET_COUNT && forall b :: 0 <= b < LATENCY_BUCKET_COUNT ==> buckets[b] == CountIn(samples, b)
  }

  lemma {:induction false} CumulativeIs(buckets: seq<nat>, samples: seq<nat>, n: nat)
    requires Matches(buckets, samples) && n < LATENCY_BUCKET_COUNT
    ensures Cumulative(buckets, n + 1) == CountUpTo(samples, n)
  {
    CountUpToGrows(samples, if n == 0 then 0 else n - 1);
    if n > 0 { CumulativeIs(buckets, samples, n - 1); } else { assert Cumulative(buckets, 0) == 0; }
  }

  /** The buckets add up to the number of samples. */
  lemma BucketsAddUp(buckets: seq<nat>, samples: seq<nat>)
    requires Matches(buckets, samples)
    ensures Cumulative(buckets, LATENCY_BUCKET_COUNT) == |samples|
  {
    CumulativeIs(buckets, samples, LATENCY_BUCKET_COUNT - 1);
    CountUpToGrows(samples, 0);
  }

  /** The bucket found for a rank is the bucket of the sample of that rank. */
  lemma NearestRank(buckets: seq<nat>, samples: seq<nat>, rank: nat)
    requires Matches(buckets, samples) && 1 <= rank <= |samples|
    ensures |InOrder(samples)| == |samples| && Reached(buckets, rank) == BucketOf(InOrder(samples)[rank - 1])
  {
    hide BucketOf, Matches, CountUpTo;
    InOrderIs(samples, 0);
    var s := InOrder(samples);
    var b := BucketOf(s[rank - 1]);
    MatchesSize(buckets, samples);
    forall j: nat | 1 <= j <= LATENCY_BUCKET_COUNT ensures Cumulative(buckets, j) >= rank <==> b < j {
      CumulativeIs(buckets, samples, j - 1);
      InOrderIs(samples, j - 1);
      RankCounts(s, rank, j - 1);
    }
    ReachedIs(buckets, rank, 0, b);
  }

  lemma MatchesSize(buckets: seq<nat>, samples: seq<nat>)
    requires Matches(buckets, samples)
    ensures |buckets| == LATENCY_BUCKET_COUNT
  {
  }

  // ----- percentiles -----

  /** The nearest rank of the `p`-th percentile of `n` samples: the least rank that is at least `p` hundredths of them. */
  function Rank(p: nat, n: nat): nat { (n * p + 99) / 100 }

  lemma RankIs(p: nat, n: nat)
    requires 1 <= p <= 100 && n >= 1
    ensures 1 <= Rank(p, n) <= n && 100 * (Rank(p, n) - 1) < n * p <= 100 * Rank(p, n)
  {
    assert n * p <= n * 100;
    assert n * p >= n;
  }

  lemma RankInRange(p: nat, n: nat)
    requires 1 <= p <= 100 && n >= 1
    ensures 1 <= Rank(p, n) <= n
  {
    RankIs(p, n);
  }

  lemma RankOfHalf(n: nat)
    ensures Rank(50, n) == (n + 1) / 2
  {
  }

  /** The reference: the bound of the bucket of the sample with the nearest rank, and 0 without samples. */
  function PercentileUs(samples: seq<nat>, p: nat): nat
    requires 1 <= p <= 100
  {
    if samples == [] then 0
    else
      RankInRange(p, |samples|);
      InOrderIs(samples, 0);
      LATENCY_BUCKETS_US[BucketOf(InOrder(samples)[Rank(p, |samples|) - 1])]
  }

  function Counts(samples: seq<nat>): (r: seq<nat>)
    ensures Matches(r, samples)
  {
    seq(LATENCY_BUCKET_COUNT, (b: nat) => CountIn(samples, b))
  }

  lemma CountsMatch(samples: seq<nat>)
    ensures Matches(Counts(samples), samples) && |Counts(samples)| == LATENCY_BUCKET_COUNT
  {
  }

  lemma NoPercentile(p: nat)
    requires 1 <= p <= 100
    ensures PercentileUs([], p) == 0
  {
  }

  lemma PercentileByRank(samples: seq<nat>, p: nat)
    requires 1 <= p <= 100 && samples != []
    ensures |Counts(samples)| == LATENCY_BUCKET_COUNT
    ensures PercentileUs(samples, p) == LATENCY_BUCKETS_US[Reached(Counts(samples), Rank(p, |samples|))]
  {
    hide InOrder, BucketOf, Reached, Rank, Counts, Matches;
    RankInRange(p, |samples|);
    InOrderIs(samples, 0);
    CountsMatch(samples);
    NearestRank(Counts(samples), samples, Rank(p, |samples|));
  }

  /** A higher percentile is never smaller. */
  lemma PercentilesRise(samples: seq<nat>, p: nat, q: nat)
    requires 1 <= p <= q <= 100
    ensures PercentileUs(samples, p) <= PercentileUs(samples, q)
  {
    hide PercentileUs, Rank, Counts, ReachedFrom, Matches;
    if samples != [] {
      PercentileByRank(samples, p);
      PercentileByRank(samples, q);
      CountsMatch(samples);
      RankRises(p, q, |samples|);
      ReachedIsMonotone(Counts(samples), Rank(p, |samples|), Rank(q, |samples|), 0);
    } else {
      NoPercentile(p);
      NoPercentile(q);
    }
  }

  lemma RankRises(p: nat, q: nat, n: nat)
    requires p <= q
    ensures Rank(p, n) <= Rank(q, n)
  {
    assert n * p <= n * q;
  }

  /** The bucket bound lies at or above the sample it stands for, unless that is above all bounds. */
  lemma {:induction false} BoundCovers(us: nat, i: nat)
    requires i < LATENCY_BUCKET_COUNT
    ensures us <= LATENCY_BUCKETS_US[BucketFrom(us, i)] || us > LATENCY_BUCKETS_US[LATENCY_BUCKET_COUNT - 1]
    decreases LATENCY_BUCKET_COUNT - i
  {
    if us > LATENCY_BUCKETS_US[i] && i < LATENCY_BUCKET_COUNT - 1 { BoundCovers(us, i + 1); }
  }

  /** The answer is at or above the sample of the nearest rank, unless that sample exceeds the last bound. */
  lemma AnswerCovers(samples: seq<nat>, p: nat)
    requires 1 <= p <= 100 && samples != []
    ensures 1 <= Rank(p, |samples|) <= |InOrder(samples)| == |samples|
    ensures var sample := InOrder(samples)[Rank(p, |samples|) - 1];
            sample <= PercentileUs(samples, p) || sample > LATENCY_BUCKETS_US[LATENCY_BUCKET_COUNT - 1]
  {
    hide Rank, InOrder;
    RankInRange(p, |samples|);
    InOrderIs(samples, 0);
    BoundCovers(InOrder(samples)[Rank(p, |samples|) - 1], 0);
  }

  // ----- where 64 bits are not enough -----

  /** The rank as the program computes it. */
  function WordRank(p: nat, n: nat): nat { Wrap(Wrap(n * p) + 99) / 100 }

  lemma Lopsided(low: nat, high: nat, target: nat)
    requires low < target <= low + high
    ensures var buckets := [low, 0, 0, 0, 0, 0, 0, 0, 0, 0, 0, 0, 0, high];
            && Cumulative(buckets, LATENCY_BUCKET_COUNT) == low + high
            && Reached(buckets, low) == 0 && Reached(buckets, target) == LATENCY_BUCKET_COUNT - 1
  {
    var buckets := [low, 0, 0, 0, 0, 0, 0, 0, 0, 0, 0, 0, 0, high];
    assert Cumulative(buckets, 0) == 0 && Cumulative(buckets, 1) == low;
    Flat(buckets, low, 13);
    ReachedIs(buckets, low, 0, 0);
    ReachedIs(buckets, target, 0, 13);
  }

  lemma {:induction false} Flat(buckets: seq<nat>, low: nat, n: nat)
    requires |buckets| == LATENCY_BUCKET_COUNT && 1 <= n <= 13 && buckets[0] == low && forall i :: 1 <= i < 13 ==> buckets[i] == 0
    ensures forall j :: 1 <= j <= n ==> Cumulative(buckets, j) == low
  {
    if n > 1 { Flat(buckets, low, n - 1); } else { assert Cumulative(buckets, 0) == 0; }
  }

  lemma WordRankIs(p: nat, n: nat)
    requires 1 <= p <= 99 && 1 <= n < WORD
    ensures n * p + 99 < WORD ==> WordRank(p, n) == Rank(p, n)
    ensures n * p + 99 >= WORD ==> WordRank(p, n) < Rank(p, n)
  {
    if n * p < WORD {
      assert Wrap(n * p) == n * p;
    } else {
      assert Wrap(n * p) + WORD <= n * p;
    }
  }

  predicate SameAnswer(buckets: seq<nat>, rank: nat, other: nat)
    requires |buckets| == LATENCY_BUCKET_COUNT
  {
    Reached(buckets, rank) == Reached(buckets, other)
  }

  /** The program finds the right bucket in every histogram of `n` samples exactly when the rank fits 64 bits. */
  lemma OverflowExactly(p: nat, n: nat)
    requires 1 <= p <= 99 && 1 <= n < WORD
    ensures n * p + 99 < WORD <==>
              forall buckets: seq<nat> | |buckets| == LATENCY_BUCKET_COUNT && Cumulative(buckets, LATENCY_BUCKET_COUNT) == n ::
                SameAnswer(buckets, WordRank(p, n), Rank(p, n))
  {
    WordRankIs(p, n);
    RankIs(p, n);
    hide Rank, WordRank, Reached, Cumulative;
    if n * p + 99 >= WORD {
      var low := WordRank(p, n);
      Lopsided(low, n - low, Rank(p, n));
      var buckets := [low, 0, 0, 0, 0, 0, 0, 0, 0, 0, 0, 0, 0, n - low];
      assert !SameAnswer(buckets, WordRank(p, n), Rank(p, n));
    }
  }

  // ----- the counters -----

  function Sum(samples: seq<nat>): nat { if samples == [] then 0 else Sum(samples[..|samples| - 1]) + samples[|samples| - 1] }

  function Max(samples: seq<nat>): nat {
    if samples == [] then 0
    else if Max(samples[..|samples| - 1]) < samples[|samples| - 1] then samples[|samples| - 1]
    else Max(samples[..|samples| - 1])
  }

  lemma {:induction false} MaxIs(samples: seq<nat>)
    ensures forall k :: 0 <= k < |samples| ==> samples[k] <= Max(samples)
    ensures samples != [] ==> Max(samples) in samples
  {
    if samples != [] {
      MaxIs(samples[..|samples| - 1]);
      if |samples| > 1 && Max(samples) != samples[|samples| - 1] { assert Max(samples) in samples[..|samples| - 1]; }
    }
  }

  /** Adding in 64-bit words is adding and then wrapping. */
  lemma WrapAdds(x: nat, y: nat)
    ensures Wrap(Wrap(x) + y) == Wrap(x + y)
  {
  }

  class Metrics {
    var latencyCount: nat
    var latencyTotalUs: nat
    var latencyMaxUs: nat
    const latencyBuckets: array<nat>
    /** Every latency that was ever recorded. */
    ghost var samples: seq<nat>

    ghost predicate Valid()
      reads this, latencyBuckets
    {
      && latencyBuckets.Length == LATENCY_BUCKET_COUNT
      && latencyCount == Wrap(|samples|) && latencyTotalUs == Wrap(Sum(samples)) && latencyMaxUs == Max(samples)
      && forall b :: 0 <= b < LATENCY_BUCKET_COUNT ==> latencyBuckets[b] == Wrap(CountIn(samples, b))
    }

    constructor ()
      ensures Valid() && samples == [] && fresh(latencyBuckets)
    {
      latencyCount, latencyTotalUs, latencyMaxUs, samples := 0, 0, 0, [];
      latencyBuckets := new nat[LATENCY_BUCKET_COUNT](i => 0);
    }

    method RecordLatency(us: nat)
      requires Valid() && us < WORD
      modifies this, latencyBuckets
      ensures Valid() && samples == old(samples) + [us]
    {
      hide Wrap, BucketOf;
      ghost var before := samples;
      assert (before + [us])[..|before|] == before;
      WrapAdds(|before|, 1);
      WrapAdds(Sum(before), us);
      latencyCount := Wrap(latencyCount + 1);
      latencyTotalUs := Wrap(latencyTotalUs + us);
      if latencyMaxUs < us { latencyMaxUs := us; }
      samples := samples + [us];
      CountStep(us);
    }

    /** The loop over the buckets. */
    method CountStep(us: nat)
      requires latencyBuckets.Length == LATENCY_BUCKET_COUNT && samples != [] && samples[|samples| - 1] == us
      requires forall b :: 0 <= b < LATENCY_BUCKET_COUNT ==> latencyBuckets[b] == Wrap(CountIn(samples[..|samples| - 1], b))
      modifies latencyBuckets
      ensures forall b :: 0 <= b < LATENCY_BUCKET_COUNT ==> latencyBuckets[b] == Wrap(CountIn(samples, b))
    {
      hide Wrap;
      ghost var before := samples[..|samples| - 1];
      var i := 0;
      while i < LATENCY_BUCKET_COUNT - 1 && us > LATENCY_BUCKETS_US[i]
        invariant 0 <= i < LATENCY_BUCKET_COUNT && BucketOf(us) == BucketFrom(us, i)
      {
        i := i + 1;
      }
      assert i == BucketOf(us);
      WrapAdds(CountIn(before, i), 1);
      WrapAdds(CountIn(before, i), 0);
      latencyBuckets[i] := Wrap(latencyBuckets[i] + 1);
    }

    /** The bound of the first bucket at which the running sum reaches the target. */
    method Scan(target: nat) returns (us: nat)
      requires Valid()
      ensures |samples| < WORD ==> us == LATENCY_BUCKETS_US[Reached(Counts(samples), target)]
    {
      hide Wrap, CountIn, BucketOf, Counts, Matches, Cumulative;
      ghost var counts := Counts(samples);
      CountsMatch(samples);
      NothingYet(counts);
      var cumulative: nat := 0;
      for i := 0 to LATENCY_BUCKET_COUNT
        invariant |samples| < WORD ==> cumulative == Cumulative(counts, i) && Reached(counts, target) == ReachedFrom(counts, target, i)
      {
        if |samples| < WORD {
          NoCarry(samples, i);
        }
        cumulative := Wrap(cumulative + latencyBuckets[i]);
        if cumulative >= target {
          return LATENCY_BUCKETS_US[i];
        }
      }
      us := LATENCY_BUCKETS_US[LATENCY_BUCKET_COUNT - 1];
    }

    method GetP50LatencyUs() returns (us: nat)
      requires Valid()
      ensures |samples| + 1 < WORD ==> us == PercentileUs(samples, 50)
    {
      hide PercentileUs, Rank, Counts, Reached, CountIn, Sum, Max;
      if latencyCount == 0 {
        if |samples| < WORD { NoPercentile(50); }
        return 0;
      }
      us := Scan(Wrap(latencyCount + 1) / 2);
      if |samples| + 1 < WORD {
        PercentileByRank(samples, 50);
        RankOfHalf(|samples|);
      }
    }

    method GetP95LatencyUs() returns (us: nat)
      requires Valid()
      ensures |samples| * 95 + 99 < WORD ==> us == PercentileUs(samples, 95)
    {
      us := GetHighPercentile(95);
    }

    method GetP99LatencyUs() returns (us: nat)
      requires Valid()
      ensures |samples| * 99 + 99 < WORD ==> us == PercentileUs(samples, 99)
    {
      us := GetHighPercentile(99);
    }

    /** The largest latency recorded so far, and 0 before the first one. */
    method GetMaxLatencyUs() returns (us: nat)
      requires Valid()
      ensures forall k :: 0 <= k < |samples| ==> samples[k] <= us
      ensures if samples == [] then us == 0 else us in samples
    {
      MaxIs(samples);
      hide Sum, CountIn, Wrap;
      us := latencyMaxUs;
    }

    /** What the 95th and the 99th percentile have in common. */
    method GetHighPercentile(p: nat) returns (us: nat)
      requires Valid() && 1 <= p <= 99
      ensures |samples| * p + 99 < WORD ==> us == PercentileUs(samples, p)
    {
      hide PercentileUs, Rank, Counts, Reached, CountIn, Sum, Max, WordRank;
      Small(|samples|, p);
      if latencyCount == 0 {
        if |samples| < WORD { NoPercentile(p); }
        return 0;
      }
      us := Scan(WordRank(p, latencyCount));
      if |samples| * p + 99 < WORD {
        PercentileByRank(samples, p);
        WordRankIs(p, |samples|);
      }
    }
  }

  lemma Small(n: nat, p: nat)
    requires p >= 1
    ensures n * p >= n
  {
  }

  lemma NothingYet(buckets: seq<nat>)
    ensures Cumulative(buckets, 0) == 0
  {
  }

  /** Running sums of the buckets stay within 64 bits as long as the number of samples does. */
  lemma NoCarry(samples: seq<nat>, i: nat)
    requires |samples| < WORD && i < LATENCY_BUCKET_COUNT
    ensures Wrap(CountIn(samples, i)) == CountIn(samples, i) == Counts(samples)[i]
    ensures Wrap(Cumulative(Counts(samples), i) + CountIn(samples, i)) == Cumulative(Counts(samples), i + 1)
  {
    CumulativeIs(Counts(samples), samples, i);
  }
}
