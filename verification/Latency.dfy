/** The fixed-bucket latency histogram, its bucket-resolution percentile, and the exact nearest-rank one. */
module Latency {
  import opened Schemas

  predicate Sorted(s: seq<real>) {
    forall i, j :: 0 <= i < j < |s| ==> s[i] <= s[j]
  }

  function Clamp(delta: real): real {
    if delta < 0.0 then 0.0 else delta
  }

  function Clamped(deltas: seq<real>): (r: seq<real>)
    ensures |r| == |deltas| && forall i :: 0 <= i < |r| ==> r[i] == Clamp(deltas[i])
  {
    seq(|deltas|, i requires 0 <= i < |deltas| => Clamp(deltas[i]))
  }

  /** How many samples are at most `x`. */
  function CountAtMost(samples: seq<real>, x: real): (r: nat)
    ensures r <= |samples|
  {
    if samples == [] then 0 else CountAtMost(samples[..|samples| - 1], x) + if samples[|samples| - 1] <= x then 1 else 0
  }

  function Total(samples: seq<real>): real {
    if samples == [] then 0.0 else Total(samples[..|samples| - 1]) + samples[|samples| - 1]
  }

  /** The first boundary at or above `x`; past the last one lies the overflow bucket. */
  function Bucket(boundaries: seq<real>, x: real): (r: nat)
    ensures r <= |boundaries|
    ensures forall i :: 0 <= i < r ==> boundaries[i] < x
    ensures r < |boundaries| ==> x <= boundaries[r]
  {
    if boundaries == [] || x <= boundaries[0] then 0 else 1 + Bucket(boundaries[1..], x)
  }

  /** How many samples fell in bucket `b`. */
  function CountIn(samples: seq<real>, boundaries: seq<real>, b: nat): nat {
    if samples == [] then 0
    else
      var n := |samples| - 1;
      CountIn(samples[..n], boundaries, b) + if Bucket(boundaries, samples[n]) == b then 1 else 0
  }

  /** The buckets up to and including `b` hold the samples at or below its boundary. */
  function CountUpTo(samples: seq<real>, boundaries: seq<real>, b: nat): nat {
    CountIn(samples, boundaries, b) + if b == 0 then 0 else CountUpTo(samples, boundaries, b - 1)
  }

  function Ceil(x: real): int {
    -(-x).Floor
  }

  function Rank(q: real, n: nat): (r: nat)
    requires n > 0
    ensures 1 <= r <= n
  {
    var rank := Ceil(q * n as real);
    var atLeastOne := if rank < 1 then 1 else rank;
    if atLeastOne > n then n else atLeastOne
  }

  /** Nearest-rank percentile over pre-sorted samples. */
  function ExactPercentile(sorted: seq<real>, q: real): Option<real> {
    if sorted == [] then None else Some(sorted[Rank(q, |sorted|) - 1])
  }

  /** The least element of `samples` no other exceeds. */
  ghost predicate IsMax(m: Option<real>, samples: seq<real>) {
    if samples == [] then m == None
    else m.Some? && m.value in samples && forall i :: 0 <= i < |samples| ==> samples[i] <= m.value
  }

  ghost predicate IsMin(m: Option<real>, samples: seq<real>) {
    if samples == [] then m == None
    else m.Some? && m.value in samples && forall i :: 0 <= i < |samples| ==> m.value <= samples[i]
  }

  /** One counter per bucket and one for the overflow, each holding its bucket's share of the samples. */
  ghost predicate Counted(counts: seq<nat>, boundaries: seq<real>, samples: seq<real>) {
    |counts| == |boundaries| + 1 && forall b :: 0 <= b < |counts| ==> counts[b] == CountIn(samples, boundaries, b)
  }

  lemma CountOne(counts: seq<nat>, boundaries: seq<real>, samples: seq<real>, x: real)
    requires Counted(counts, boundaries, samples)
    ensures var b := Bucket(boundaries, x); Counted(counts[b := counts[b] + 1], boundaries, samples + [x])
  {
    hide Bucket;
    assert (samples + [x])[..|samples|] == samples;
  }

  lemma ExtremesOfOneMore(samples: seq<real>, min: Option<real>, max: Option<real>, x: real)
    requires IsMin(min, samples) && IsMax(max, samples)
    ensures IsMin(if min.None? || x < min.value then Some(x) else min, samples + [x])
    ensures IsMax(if max.None? || x > max.value then Some(x) else max, samples + [x])
  {
    var more := samples + [x];
    assert more[|samples|] == x;
    forall y | y in samples ensures y in more {
      var k :| 0 <= k < |samples| && samples[k] == y;
      assert more[k] == y;
    }
  }

  lemma TotalsOfOneMore(deltas: seq<real>, delta: real)
    ensures Clamped(deltas + [delta]) == Clamped(deltas) + [Clamp(delta)]
    ensures Total(Clamped(deltas) + [Clamp(delta)]) == Total(Clamped(deltas)) + Clamp(delta)
    ensures Negatives(deltas + [delta]) == Negatives(deltas) + if delta < 0.0 then 1 else 0
  {
    assert (deltas + [delta])[..|deltas|] == deltas;
    assert (Clamped(deltas) + [Clamp(delta)])[..|deltas|] == Clamped(deltas);
  }

  lemma Sizes(counts: seq<nat>, boundaries: seq<real>, samples: seq<real>)
    requires Counted(counts, boundaries, samples)
    ensures |counts| == |boundaries| + 1
  {}

  class LatencyHistogram {
    const boundaries: seq<real>
    const counts: array<nat>
    var count: nat
    var totalMs: real
    var minMs: Option<real>
    var maxMs: Option<real>
    var negativeCount: nat
    /** Every latency as recorded, before clamping. */
    ghost var deltas: seq<real>

    ghost function Samples(): (r: seq<real>)
      reads this`deltas
    {
      Clamped(deltas)
    }

    ghost predicate Valid()
      reads this, counts
    {
      && Sorted(boundaries) && Counted(counts[..], boundaries, Samples())
      && count == |deltas| && totalMs == Total(Samples()) && IsMin(minMs, Samples()) && IsMax(maxMs, Samples())
      && negativeCount == Negatives(deltas)
    }

    constructor (boundaries: seq<real>)
      requires Sorted(boundaries)
      ensures Valid() && fresh(counts) && this.boundaries == boundaries && deltas == []
    {
      this.boundaries := boundaries;
      counts := new nat[|boundaries| + 1](_ => 0);
      count, totalMs, minMs, maxMs, negativeCount, deltas := 0, 0.0, None, None, 0, [];
    }

    method Record(deltaMs: real)
      requires Valid()
      modifies this, counts
      ensures Valid() && deltas == old(deltas) + [deltaMs]
    {
      hide Counted, IsMin, IsMax, Total, Negatives, CountIn, Clamped;
      ghost var before, tally := Samples(), counts[..];
      TotalsOfOneMore(deltas, deltaMs);
      CountOne(tally, boundaries, before, Clamp(deltaMs));
      ExtremesOfOneMore(before, minMs, maxMs, Clamp(deltaMs));
      Sizes(tally, boundaries, before);
      var delta := deltaMs;
      if delta < 0.0 {
        negativeCount := negativeCount + 1;
        delta := 0.0;
      }
      var idx := Bucket(boundaries, delta);
      counts[idx] := counts[idx] + 1;
      count := count + 1;
      totalMs := totalMs + delta;
      if minMs.None? || delta < minMs.value {
        minMs := Some(delta);
      }
      if maxMs.None? || delta > maxMs.value {
        maxMs := Some(delta);
      }
      deltas := deltas + [deltaMs];
      assert counts[..] == tally[idx := tally[idx] + 1];
    }

    /** The boundary of the bucket in which the running count reaches its share, or the maximum. */
    method Percentile(q: real) returns (p: Option<real>)
      requires Valid()
      ensures p == None <==> deltas == []
      ensures deltas != [] ==>
        IsMax(maxMs, Samples()) && p == Some(Reached(Samples(), boundaries, q * |deltas| as real, 0, maxMs))
    {
      if count == 0 {
        return None;
      }
      var target := q * count as real;
      assert target == q * |deltas| as real && Samples() != [] && maxMs.Some?;
      var cumulative := 0;
      for i := 0 to counts.Length
        invariant cumulative == if i == 0 then 0 else CountUpTo(Samples(), boundaries, i - 1)
        invariant Reached(Samples(), boundaries, target, i, maxMs) == Reached(Samples(), boundaries, target, 0, maxMs)
      {
        assert counts[..][i] == CountIn(Samples(), boundaries, i);
        cumulative := cumulative + counts[i];
        assert cumulative == CountUpTo(Samples(), boundaries, i);
        if cumulative as real >= target {
          if i < |boundaries| {
            assert Reached(Samples(), boundaries, target, i, maxMs) == boundaries[i];
            return Some(boundaries[i]);
          }
          break;
        }
      }
      p := maxMs;
    }
  }

  function Negatives(deltas: seq<real>): nat {
    if deltas == [] then 0 else Negatives(deltas[..|deltas| - 1]) + if deltas[|deltas| - 1] < 0.0 then 1 else 0
  }

  /** The first boundary, from bucket `i` on, at which the cumulative count has reached `target`. */
  function Reached(samples: seq<real>, boundaries: seq<real>, target: real, i: nat, max: Option<real>): real
    requires i <= |boundaries| + 1 && max.Some?
    decreases |boundaries| - i
  {
    if i >= |boundaries| then max.value
    else if CountUpTo(samples, boundaries, i) as real >= target then boundaries[i]
    else Reached(samples, boundaries, target, i + 1, max)
  }

  // ---------- the histogram against the exact percentile ----------

  lemma {:induction false} BucketUpTo(boundaries: seq<real>, x: real, b: nat)
    requires Sorted(boundaries) && b < |boundaries|
    ensures Bucket(boundaries, x) <= b <==> x <= boundaries[b]
  {
    var r := Bucket(boundaries, x);
    if r < b { assert boundaries[r] <= boundaries[b]; }
  }

  /** The cumulative count of a bucket is the number of samples up to its boundary. */
  lemma {:induction false} UpToIsAtMost(samples: seq<real>, boundaries: seq<real>, b: nat)
    requires Sorted(boundaries) && b < |boundaries|
    ensures CountUpTo(samples, boundaries, b) == CountAtMost(samples, boundaries[b])
  {
    hide Bucket;
    if samples == [] {
      NoneUpTo(boundaries, b);
    } else {
      var n := |samples| - 1;
      UpToIsAtMost(samples[..n], boundaries, b);
      OneMoreUpTo(samples, boundaries, b);
      BucketUpTo(boundaries, samples[n], b);
    }
  }

  lemma {:induction false} NoneUpTo(boundaries: seq<real>, b: nat)
    ensures CountUpTo([], boundaries, b) == 0
  {
    if b > 0 { NoneUpTo(boundaries, b - 1); }
  }

  lemma {:induction false} OneMoreUpTo(samples: seq<real>, boundaries: seq<real>, b: nat)
    requires samples != []
    ensures var n := |samples| - 1;
      CountUpTo(samples, boundaries, b) == CountUpTo(samples[..n], boundaries, b) +
        if Bucket(boundaries, samples[n]) <= b then 1 else 0
  {
    hide Bucket;
    if b > 0 { OneMoreUpTo(samples, boundaries, b - 1); }
  }

  lemma {:induction false} AtMostAppend(a: seq<real>, b: seq<real>, x: real)
    ensures CountAtMost(a + b, x) == CountAtMost(a, x) + CountAtMost(b, x)
  {
    if b == [] { assert a + b == a; } else {
      assert (a + b)[..|a + b| - 1] == a + b[..|b| - 1];
      AtMostAppend(a, b[..|b| - 1], x);
    }
  }

  lemma Without(y: real, a: multiset<real>, b: multiset<real>)
    requires multiset{y} + a == multiset{y} + b
    ensures a == b
  {
    assert a == (multiset{y} + a) - multiset{y};
    assert b == (multiset{y} + b) - multiset{y};
  }

  /** Counting does not depend on the order. */
  lemma {:induction false} AtMostPermuted(a: seq<real>, b: seq<real>, x: real)
    requires multiset(a) == multiset(b)
    ensures CountAtMost(a, x) == CountAtMost(b, x) && |a| == |b|
  {
    if a == [] {
      assert |b| == |multiset(b)| == |multiset(a)| == 0;
    } else {
      var y, rest := a[0], a[1..];
      assert a == [y] + rest;
      assert y in multiset(b);
      var j :| 0 <= j < |b| && b[j] == y;
      var left, right := b[..j], b[j + 1..];
      assert b == left + ([y] + right);
      assert multiset(b) == multiset(left) + multiset{y} + multiset(right);
      assert multiset(a) == multiset{y} + multiset(rest);
      assert multiset(left + right) == multiset(left) + multiset(right);
      Without(y, multiset(rest), multiset(left + right));
      AtMostPermuted(rest, left + right, x);
      AtMostAppend([y], rest, x);
      AtMostAppend(left, right, x);
      AtMostAppend(left, [y] + right, x);
      AtMostAppend([y], right, x);
    }
  }

  /** In sorted samples the k-th is at most `x` exactly when at least k samples are. */
  lemma {:induction false} KthAtMost(sorted: seq<real>, x: real, k: nat)
    requires Sorted(sorted) && 1 <= k <= |sorted|
    ensures sorted[k - 1] <= x <==> CountAtMost(sorted, x) >= k
  {
    var n := |sorted| - 1;
    if sorted[n] <= x {
      AllAtMost(sorted, x);
    } else if k <= n {
      KthAtMost(sorted[..n], x, k);
    }
  }

  lemma {:induction false} AllAtMost(samples: seq<real>, x: real)
    requires forall i :: 0 <= i < |samples| ==> samples[i] <= x
    ensures CountAtMost(samples, x) == |samples|
  {
    if samples != [] { AllAtMost(samples[..|samples| - 1], x); }
  }

  /** A whole count reaches the share `q * n` exactly when it reaches the rank. */
  lemma RankIsTarget(count: nat, q: real, n: nat)
    requires 0 < n && count <= n && 0.0 < q <= 1.0
    ensures count as real >= q * n as real <==> count >= Rank(q, n)
  {
    var target := q * n as real;
    assert target <= n as real by { assert (1.0 - q) * n as real >= 0.0; }
    assert target > 0.0;
    assert Ceil(target) - 1 < n && Ceil(target) >= 1;
  }

  lemma {:induction false} ReachedIsBucket(
      samples: seq<real>, sorted: seq<real>, boundaries: seq<real>, q: real, i: nat, max: Option<real>)
    requires Sorted(boundaries) && Sorted(sorted) && multiset(sorted) == multiset(samples) && samples != [] &&
      sorted != []
    requires 0.0 < q <= 1.0 && max.Some? && i <= |boundaries|
    requires i <= Bucket(boundaries, sorted[Rank(q, |sorted|) - 1])
    ensures var b := Bucket(boundaries, sorted[Rank(q, |sorted|) - 1]);
      Reached(samples, boundaries, q * |samples| as real, i, max) ==
        if b < |boundaries| then boundaries[b] else max.value
    decreases |boundaries| - i
  {
    hide CountAtMost, CountUpTo, Rank, Bucket;
    if i < |boundaries| {
      var k := Rank(q, |sorted|);
      AtMostPermuted(sorted, samples, boundaries[i]);
      UpToIsAtMost(samples, boundaries, i);
      KthAtMost(sorted, boundaries[i], k);
      RankIsTarget(CountAtMost(samples, boundaries[i]), q, |samples|);
      BucketUpTo(boundaries, sorted[k - 1], i);
      if i < Bucket(boundaries, sorted[k - 1]) {
        ReachedIsBucket(samples, sorted, boundaries, q, i + 1, max);
      }
    }
  }

  lemma ExactIsARank(samples: seq<real>, sorted: seq<real>, q: real)
    requires Sorted(sorted) && multiset(sorted) == multiset(samples) && samples != []
    ensures |sorted| == |samples|
    ensures ExactPercentile(sorted, q) == Some(sorted[Rank(q, |sorted|) - 1])
    ensures ExactPercentile(sorted, q).value in samples
  {
    hide Rank;
    AtMostPermuted(sorted, samples, 0.0);
    assert sorted[Rank(q, |sorted|) - 1] in multiset(sorted);
  }

  /**
   * The histogram's percentile is the upper boundary of the bucket that holds the exact one, and the largest sample
   * when that is the overflow bucket: it never understates, and it overstates by less than a bucket.
   */
  lemma PercentileBrackets(
      samples: seq<real>, sorted: seq<real>, boundaries: seq<real>, q: real, max: Option<real>)
    requires Sorted(boundaries) && Sorted(sorted) && multiset(sorted) == multiset(samples)
    requires IsMax(max, samples)
    requires samples != [] && 0.0 < q <= 1.0
    ensures ExactPercentile(sorted, q).Some?
    ensures var exact, p :=
      ExactPercentile(sorted, q).value, Reached(samples, boundaries, q * |samples| as real, 0, max);
      var b := Bucket(boundaries, exact);
      && p == (if b < |boundaries| then boundaries[b] else max.value)
      && exact <= p
      && (b > 0 ==> boundaries[b - 1] < exact)
  {
    hide Rank, Reached, ExactPercentile;
    ExactIsARank(samples, sorted, q);
    ReachedIsBucket(samples, sorted, boundaries, q, 0, max);
  }

  lemma FirstRank(q: real, n: nat)
    requires n > 0 && q <= 0.0
    ensures q * n as real <= 0.0 && Rank(q, n) == 1
  {
    assert (-q) * n as real >= 0.0;
  }

  lemma SmallestFirst(samples: seq<real>, sorted: seq<real>, min: real)
    requires Sorted(sorted) && multiset(sorted) == multiset(samples) && samples != [] && sorted != []
    requires IsMin(Some(min), samples)
    ensures sorted[0] == min
  {
    assert sorted[0] in multiset(sorted) && min in multiset(samples);
    assert sorted[0] in samples && min in sorted;
  }

  /**
   * A share of nothing or less answers the first boundary, which bounds the exact answer only if some sample is that
   * small.
   */
  lemma NoShare(
      samples: seq<real>, sorted: seq<real>, boundaries: seq<real>, q: real, min: Option<real>, max: Option<real>)
    requires Sorted(boundaries) && Sorted(sorted) && multiset(sorted) == multiset(samples)
    requires IsMin(min, samples) && IsMax(max, samples)
    requires samples != [] && q <= 0.0
    ensures ExactPercentile(sorted, q) == min
    ensures var p := Reached(samples, boundaries, q * |samples| as real, 0, max);
      min.value <= p <==> boundaries == [] || min.value <= boundaries[0]
  {
    hide Rank, ExactPercentile, CountUpTo;
    ExactIsARank(samples, sorted, q);
    FirstRank(q, |samples|);
    SmallestFirst(samples, sorted, min.value);
  }
}
