// metrics/Histogram.cc: recording samples, snapshots, and the textual report.
module Histograms {
  import opened Base
  import opened Buckets
  import opened HistogramReports
  import opened SampleVectors

  /** The sample actually recorded. */
  function Clamp(value: int): int {
    if value >= SAMPLE_TYPE_MAX then SAMPLE_TYPE_MAX - 1 else if value < 0 then 0 else value
  }

  /** It is the value itself where that is allowed, and else the allowed one nearest to it. */
  lemma ClampIsNearest(value: int, other: int)
    requires 0 <= other < 0x7FFF_FFFF
    ensures 0 <= Clamp(value) < 0x7FFF_FFFF
    ensures 0 <= value < 0x7FFF_FFFF ==> Clamp(value) == value
    ensures other != Clamp(value) ==> Distance(value, Clamp(value)) < Distance(value, other)
  {
  }

  function Distance(a: int, b: int): nat {
    if a < b then b - a else a - b
  }

  /** How many of the recorded values fall, once clamped, into [lo, hi). */
  function CountIn(values: seq<int>, lo: int, hi: int): nat {
    if values == [] then 0
    else CountIn(values[..|values| - 1], lo, hi) + if lo <= Clamp(values[|values| - 1]) < hi then 1 else 0
  }

  function SumOf(values: seq<int>): int {
    if values == [] then 0 else SumOf(values[..|values| - 1]) + Clamp(values[|values| - 1])
  }

  // ---------------------------------------------------------------------
  // Counting
  // ---------------------------------------------------------------------

  /** A histogram and, as a ghost, every value it was given. */
  class Histogram {
    const ranges: seq<int>
    const samples: SampleVector
    ghost var recorded: seq<int>

    /** Each count is the number of recorded values in its bucket, and the sum is theirs. */
    ghost predicate Valid()
      reads this, samples, samples.counts
    {
      && samples.ranges == ranges && samples.Valid() && |ranges| >= 3
      && ranges[0] == 0 && ranges[|ranges| - 1] == SAMPLE_TYPE_MAX
      && Exact(ranges, samples.counts[..], samples.sum, recorded)
    }

    /** The arguments are not inspected: the histogram is usable exactly when they allow it. */
    constructor (minimum: int, maximum: int, bucketCount: nat)
      requires minimum >= 1 && maximum >= 1 && bucketCount >= 2
      ensures Valid() <==> Constructible(minimum, maximum, bucketCount)
      ensures recorded == [] && fresh(samples) && fresh(samples.counts)
      ensures |ranges| == bucketCount + 1 && Laid(ranges, minimum, maximum)
    {
      var buckets := new BucketRanges(bucketCount + 1);
      InitializeBucketRanges(minimum, maximum, buckets);
      IncreasesExactlyWhenConstructible(buckets.ranges[..], minimum, maximum);
      hide Laid;
      ranges := buckets.ranges[..];
      samples := new SampleVector(buckets.ranges[..]);
      recorded := [];
    }

    method Add(value: int)
      requires Valid()
      modifies this`recorded, samples, samples.counts
      ensures Valid() && recorded == old(recorded) + [value]
    {
      ghost var before, sum := samples.counts[..], samples.sum;
      var v := value;
      if v >= SAMPLE_TYPE_MAX {
        v := SAMPLE_TYPE_MAX - 1;
      }
      if v < 0 {
        v := 0;
      }
      samples.Accumulate(v, 1);
      ExactAfterAdd(ranges, before, samples.counts[..], sum, recorded, value);
      recorded := recorded + [value];
    }

    /** Adding the samples of a histogram with the same buckets, possibly this one,
        records its values after the ones here. */
    method AddSamples(other: Histogram) returns (success: bool)
      requires Valid() && other.Valid() && other.ranges == ranges
      requires (samples == other.samples <==> samples.counts == other.samples.counts)
      modifies this`recorded, samples, samples.counts
      ensures success && Valid() && recorded == old(recorded) + old(other.recorded)
    {
      ghost var mine, theirs := samples.counts[..], other.samples.counts[..];
      ghost var values := other.recorded;
      SameLayoutIsMergeable(ranges, theirs);
      ghost var sum, more := samples.sum, other.samples.sum;
      success := samples.Add(other.samples);
      MergeOfSameLayout(ranges, mine, theirs, ADD);
      ExactAfterMerge(ranges, mine, theirs, samples.counts[..], sum, more, recorded, values);
      recorded := recorded + values;
    }

    /** A vector of its own with the same counts and sum. */
    method SnapshotSampleVector() returns (snapshot: SampleVector)
      requires Valid()
      ensures fresh(snapshot) && snapshot.Valid() && snapshot.ranges == ranges
      ensures snapshot.counts[..] == samples.counts[..] && snapshot.sum == samples.sum
    {
      snapshot := new SampleVector(ranges);
      SnapshotIsEqual(ranges, snapshot.counts[..], samples.counts[..]);
      SameLayoutIsMergeable(ranges, samples.counts[..]);
      var success := snapshot.Add(samples);
    }

    /** The total is the number of values recorded. */
    method TotalCount() returns (count: int)
      requires Valid()
      ensures count == |recorded|
    {
      count := samples.TotalCount();
      TotalIsExact(ranges, samples.counts[..], samples.sum, recorded);
    }

    /** The report: its header's count and average, and lines that show every bucket
        once and account for every recorded value. */
    method WriteAscii(graphIt: bool)
      returns (sampleCount: int, average: Option<real>, lines: seq<Line>, maxSize: real)
      requires Valid()
      ensures sampleCount == |recorded|
      ensures average.None? <==> recorded == []
      ensures average.Some? ==> average.value * |recorded| as real == SumOf(recorded) as real
      ensures Shown(lines, |ranges| - 1, ranges, samples.counts[..], graphIt, maxSize)
      ensures CountRecorded(lines, ranges, recorded)
    {
      hide Shown, CountRecorded;
      var snapshot := SnapshotSampleVector();
      sampleCount := snapshot.TotalCount();
      ghost var counts := samples.counts[..];
      TotalIsExact(ranges, counts, samples.sum, recorded);
      average := None;
      if sampleCount == 0 {
        // the check in the header
        assert snapshot.sum == 0;
      } else {
        average := Some(snapshot.sum as real / sampleCount as real);
      }
      lines, maxSize := WriteLines(ranges, snapshot.counts[..], graphIt, sampleCount);
      RowsCountRecorded(lines, ranges, counts, samples.sum, recorded, graphIt, maxSize);
    }
  }

  /** The three numbers of each row split the recorded values by its bucket. */
  ghost predicate CountRecorded(lines: seq<Line>, r: seq<int>, values: seq<int>) {
    forall k :: 0 <= k < |lines| && lines[k].Row? ==> RowCountsRecorded(lines[k], r, values)
  }

  ghost predicate RowCountsRecorded(line: Line, r: seq<int>, values: seq<int>)
    requires line.Row?
  {
    && line.bucket + 1 < |r|
    && line.past == CountIn(values, 0, r[line.bucket])
    && line.current == CountIn(values, r[line.bucket], r[line.bucket + 1])
    && line.remaining == CountIn(values, r[line.bucket + 1], SAMPLE_TYPE_MAX)
  }

  lemma RowsCountRecorded(lines: seq<Line>, r: seq<int>, counts: seq<int>, sum: int, values: seq<int>,
                          graphIt: bool, maxSize: real)
    requires Exact(r, counts, sum, values) && r[0] == 0 && r[|r| - 1] == SAMPLE_TYPE_MAX
    requires Shown(lines, |counts|, r, counts, graphIt, maxSize)
    ensures CountRecorded(lines, r, values)
  {
    forall k | 0 <= k < |lines| && lines[k].Row?
      ensures RowCountsRecorded(lines[k], r, values)
    {
      var b := lines[k].bucket;
      TotalOfPrefix(r, counts, sum, values, b);
      TotalIsExact(r, counts, sum, values);
      CountInAll(values);
      CountInAdjacent(values, 0, r[b], r[b + 1]);
      CountInAdjacent(values, 0, r[b + 1], SAMPLE_TYPE_MAX);
    }
  }

  ghost predicate Exact(r: seq<int>, counts: seq<int>, sum: int, values: seq<int>) {
    && ValidRanges(r) && |r| == |counts| + 1
    && (forall i {:trigger counts[i]} :: 0 <= i < |counts| ==> counts[i] == CountIn(values, r[i], r[i + 1]))
    && sum == SumOf(values)
  }

  lemma ExactAfterAdd(r: seq<int>, before: seq<int>, after: seq<int>, sum: int, values: seq<int>, value: int)
    requires Exact(r, before, sum, values) && |after| == |before|
    requires forall i {:trigger after[i]} :: 0 <= i < |after| ==>
      after[i] == before[i] + if InBucket(r, i, Clamp(value)) then 1 else 0
    ensures Exact(r, after, sum + Clamp(value), values + [value])
  {
    assert (values + [value])[..|values|] == values;
  }

  lemma {:induction false} CountInConcatenation(a: seq<int>, b: seq<int>, lo: int, hi: int)
    ensures CountIn(a + b, lo, hi) == CountIn(a, lo, hi) + CountIn(b, lo, hi)
    decreases |b|
  {
    if b == [] {
      assert a + b == a;
    } else {
      assert (a + b)[..|a + b| - 1] == a + b[..|b| - 1];
      CountInConcatenation(a, b[..|b| - 1], lo, hi);
    }
  }

  lemma {:induction false} SumOfConcatenation(a: seq<int>, b: seq<int>)
    ensures SumOf(a + b) == SumOf(a) + SumOf(b)
    decreases |b|
  {
    if b == [] {
      assert a + b == a;
    } else {
      assert (a + b)[..|a + b| - 1] == a + b[..|b| - 1];
      SumOfConcatenation(a, b[..|b| - 1]);
    }
  }

  lemma ExactAfterMerge(r: seq<int>, mine: seq<int>, theirs: seq<int>, merged: seq<int>,
                        sum: int, more: int, values: seq<int>, others: seq<int>)
    requires Exact(r, mine, sum, values) && Exact(r, theirs, more, others) && |merged| == |mine|
    requires forall i {:trigger merged[i]} :: 0 <= i < |merged| ==> merged[i] == mine[i] + theirs[i]
    ensures Exact(r, merged, sum + more, values + others)
  {
    SumOfConcatenation(values, others);
    forall i | 0 <= i < |merged|
      ensures merged[i] == CountIn(values + others, r[i], r[i + 1])
    {
      CountInConcatenation(values, others, r[i], r[i + 1]);
    }
  }

  lemma {:induction false} CountInAdjacent(values: seq<int>, a: int, b: int, c: int)
    requires a <= b <= c
    ensures CountIn(values, a, b) + CountIn(values, b, c) == CountIn(values, a, c)
    decreases |values|
  {
    if values != [] {
      CountInAdjacent(values[..|values| - 1], a, b, c);
    }
  }

  lemma {:induction false} CountInAll(values: seq<int>)
    ensures CountIn(values, 0, SAMPLE_TYPE_MAX) == |values|
    decreases |values|
  {
    if values != [] {
      CountInAll(values[..|values| - 1]);
    }
  }

  /** The first k buckets together count the values below boundary k. */
  lemma {:induction false} TotalOfPrefix(r: seq<int>, counts: seq<int>, sum: int, values: seq<int>, k: nat)
    requires Exact(r, counts, sum, values) && k <= |counts|
    ensures Total(counts[..k]) == CountIn(values, r[0], r[k])
    decreases k
  {
    if k == 0 {
      EmptyInterval(values, r[0]);
    } else {
      TotalOfPrefix(r, counts, sum, values, k - 1);
      assert counts[..k][..k - 1] == counts[..k - 1];
      CountInAdjacent(values, r[0], r[k - 1], r[k]);
      assert counts[k - 1] == CountIn(values, r[k - 1], r[k - 1 + 1]);
    }
  }

  lemma {:induction false} EmptyInterval(values: seq<int>, lo: int)
    ensures CountIn(values, lo, lo) == 0
    decreases |values|
  {
    if values != [] {
      EmptyInterval(values[..|values| - 1], lo);
    }
  }

  lemma TotalIsExact(r: seq<int>, counts: seq<int>, sum: int, values: seq<int>)
    requires Exact(r, counts, sum, values) && r[0] == 0 && r[|r| - 1] == SAMPLE_TYPE_MAX
    ensures Total(counts) == |values|
  {
    TotalOfPrefix(r, counts, sum, values, |counts|);
    assert counts[..|counts|] == counts;
    CountInAll(values);
  }

  lemma {:induction false} CountAndSumBounds(values: seq<int>, lo: int, hi: int)
    ensures CountIn(values, lo, hi) <= |values|
    ensures 0 <= SumOf(values) <= |values| * SAMPLE_TYPE_MAX
    decreases |values|
  {
    if values != [] {
      CountAndSumBounds(values[..|values| - 1], lo, hi);
    }
  }

  /** Up to 2^31 - 1 recorded values, no count leaves the range of int and the sum
      stays within 64 bits. */
  lemma NothingOverflows(r: seq<int>, counts: seq<int>, sum: int, values: seq<int>)
    requires Exact(r, counts, sum, values) && |values| <= SAMPLE_TYPE_MAX
    ensures forall i :: 0 <= i < |counts| ==> 0 <= counts[i] <= SAMPLE_TYPE_MAX
    ensures 0 <= sum < 0x8000_0000_0000_0000
  {
    forall i | 0 <= i < |counts|
      ensures 0 <= counts[i] <= SAMPLE_TYPE_MAX
    {
      CountAndSumBounds(values, r[i], r[i + 1]);
    }
    CountAndSumBounds(values, 0, 0);
    SquareBound(|values|);
  }

  lemma SquareBound(n: nat)
    requires n <= SAMPLE_TYPE_MAX
    ensures n * SAMPLE_TYPE_MAX <= SAMPLE_TYPE_MAX * SAMPLE_TYPE_MAX
  {
  }
}
