// metrics/SampleVector.{h,cc} and metrics/HistogramSamples.{h,cc}: counts per bucket,
// the search for a bucket, and the in-place merge of two vectors.
module SampleVectors {
  // ---------------------------------------------------------------------
  // Specification
  // ---------------------------------------------------------------------

  predicate ValidRanges(r: seq<int>) {
    |r| >= 2 && forall i, j :: 0 <= i < j < |r| ==> r[i] < r[j]
  }

  /** Value v is tallied in bucket i. */
  predicate InBucket(r: seq<int>, i: nat, v: int) {
    i + 1 < |r| && r[i] <= v < r[i + 1]
  }

  /** What the first k source buckets hold for the interval [lo, hi). */
  function Held(r: seq<int>, counts: seq<int>, k: nat, lo: int, hi: int): int
    requires |r| == |counts| + 1 && k <= |counts|
  {
    if k == 0 then 0
    else Held(r, counts, k - 1, lo, hi) + if r[k - 1] == lo && r[k] == hi then counts[k - 1] else 0
  }

  /** Target bucket j and source bucket i hold the same interval. */
  predicate SameInterval(target: seq<int>, j: nat, r: seq<int>, i: nat) {
    j + 1 < |target| && i + 1 < |r| && target[j] == r[i] && target[j + 1] == r[i + 1]
  }

  /** Source bucket i is one of the target buckets. */
  ghost predicate HasTarget(target: seq<int>, r: seq<int>, i: nat) {
    exists j: nat :: SameInterval(target, j, r, i)
  }

  /** Every non-empty source bucket is a target bucket. */
  ghost predicate Mergeable(target: seq<int>, r: seq<int>, counts: seq<int>)
    requires |r| == |counts| + 1
  {
    forall i: nat :: i < |counts| && counts[i] != 0 ==> HasTarget(target, r, i)
  }

  /** Bucket k is the first non-empty one that is no target bucket: there the merge fails. */
  ghost predicate FailsAt(target: seq<int>, r: seq<int>, counts: seq<int>, k: nat)
    requires |r| == |counts| + 1
  {
    && k < |counts| && counts[k] != 0 && !HasTarget(target, r, k)
    && forall i: nat :: i < k && counts[i] != 0 ==> HasTarget(target, r, i)
  }

  datatype Operator = ADD | SUBTRACT

  function Signed(op: Operator, n: int): int {
    if op == ADD then n else -n
  }

  /** Target counts after merging the first k buckets of a source. */
  function MergedUpTo(target: seq<int>, into: seq<int>, r: seq<int>, counts: seq<int>, k: nat, op: Operator): (m: seq<int>)
    requires |target| == |into| + 1 && |r| == |counts| + 1 && k <= |counts|
    ensures |m| == |into|
    ensures forall j {:trigger m[j]} :: 0 <= j < |into| ==>
      m[j] == into[j] + Signed(op, Held(r, counts, k, target[j], target[j + 1]))
  {
    seq(|into|, j requires 0 <= j < |into| =>
      into[j] + Signed(op, Held(r, counts, k, target[j], target[j + 1])))
  }

  /** Target counts after adding or subtracting a source, bucket by bucket. */
  function Merged(target: seq<int>, into: seq<int>, r: seq<int>, counts: seq<int>, op: Operator): (m: seq<int>)
    requires |target| == |into| + 1 && |r| == |counts| + 1
    ensures |m| == |into|
  {
    MergedUpTo(target, into, r, counts, |counts|, op)
  }

  /** Subtracting a source that was added restores the counts. */
  lemma AddThenSubtract(target: seq<int>, into: seq<int>, r: seq<int>, counts: seq<int>)
    requires |target| == |into| + 1 && |r| == |counts| + 1
    ensures Merged(target, Merged(target, into, r, counts, ADD), r, counts, SUBTRACT) == into
  {
  }

  /** A source holds for its own bucket j exactly what it counts there. */
  lemma {:induction false} HeldForOwnBucket(r: seq<int>, counts: seq<int>, k: nat, j: nat)
    requires ValidRanges(r) && |r| == |counts| + 1 && k <= |counts| && j < |counts|
    ensures Held(r, counts, k, r[j], r[j + 1]) == if j < k then counts[j] else 0
    decreases k
  {
    if k > 0 {
      HeldForOwnBucket(r, counts, k - 1, j);
    }
  }

  lemma SameLayoutIsMergeable(r: seq<int>, counts: seq<int>)
    requires |r| == |counts| + 1
    ensures Mergeable(r, r, counts)
  {
    forall i: nat | i < |counts|
      ensures HasTarget(r, r, i)
    {
      assert SameInterval(r, i, r, i);
    }
  }

  /** Merging into buckets of the same layout is addition, bucket by bucket. */
  lemma MergeOfSameLayout(r: seq<int>, into: seq<int>, counts: seq<int>, op: Operator)
    requires ValidRanges(r) && |r| == |counts| + 1 == |into| + 1
    ensures forall j :: 0 <= j < |into| ==> Merged(r, into, r, counts, op)[j] == into[j] + Signed(op, counts[j])
  {
    hide ValidRanges, Held;
    forall j | 0 <= j < |into|
      ensures Held(r, counts, |counts|, r[j], r[j + 1]) == counts[j]
    {
      HeldForOwnBucket(r, counts, |counts|, j);
    }
  }

  /** A failed merge leaves all counts as they were exactly when the bucket it fails at is
      the first non-empty one, and the sum, which changed before the merge, exactly when
      there was nothing to add to it. */
  lemma FailureChangesNothingExactlyWhen(target: seq<int>, into: seq<int>, sum: int,
                                         r: seq<int>, counts: seq<int>, more: int, k: nat, op: Operator)
    requires ValidRanges(r) && |target| == |into| + 1 && |r| == |counts| + 1 && FailsAt(target, r, counts, k)
    ensures MergedUpTo(target, into, r, counts, k, op) == into <==> forall i :: 0 <= i < k ==> counts[i] == 0
    ensures (MergedUpTo(target, into, r, counts, k, op), sum + Signed(op, more)) == (into, sum)
            <==> more == 0 && forall i :: 0 <= i < k ==> counts[i] == 0
  {
    if forall i :: 0 <= i < k ==> counts[i] == 0 {
      NothingMerged(target, into, r, counts, k, op);
    } else {
      var i: nat :| i < k && counts[i] != 0;
      assert HasTarget(target, r, i);
      var j: nat :| SameInterval(target, j, r, i);
      HeldForOwnBucket(r, counts, k, i);
      assert MergedUpTo(target, into, r, counts, k, op)[j] == into[j] + Signed(op, counts[i]);
    }
  }

  /** A snapshot equals its original. */
  lemma SnapshotIsEqual(r: seq<int>, zeros: seq<int>, counts: seq<int>)
    requires ValidRanges(r) && |r| == |counts| + 1 == |zeros| + 1
    requires forall j :: 0 <= j < |zeros| ==> zeros[j] == 0
    ensures Merged(r, zeros, r, counts, ADD) == counts
  {
    MergeOfSameLayout(r, zeros, counts, ADD);
  }

  /** A vector less itself is empty. */
  lemma SelfSubtractionIsEmpty(r: seq<int>, counts: seq<int>)
    requires ValidRanges(r) && |r| == |counts| + 1
    ensures forall j :: 0 <= j < |counts| ==> Merged(r, counts, r, counts, SUBTRACT)[j] == 0
  {
    MergeOfSameLayout(r, counts, counts, SUBTRACT);
  }

  /** What Accumulate does to counts and sum, and what recording a value n times does. */
  function Accumulated(r: seq<int>, counts: seq<int>, sum: int, value: int, count: int): (seq<int>, int)
    requires |r| == |counts| + 1
  {
    (seq(|counts|, i requires 0 <= i < |counts| => counts[i] + if InBucket(r, i, value) then 1 else 0),
     sum + count * value)
  }

  function RecordedTimes(r: seq<int>, counts: seq<int>, sum: int, value: int, n: nat): (t: (seq<int>, int))
    requires |r| == |counts| + 1
    ensures |t.0| == |counts|
  {
    if n == 0 then (counts, sum)
    else
      var t := RecordedTimes(r, counts, sum, value, n - 1);
      Accumulated(r, t.0, t.1, value, 1)
  }

  lemma {:induction false} RecordedTimesCounts(r: seq<int>, counts: seq<int>, sum: int, value: int, n: nat, i: nat)
    requires |r| == |counts| + 1 && i < |counts|
    ensures RecordedTimes(r, counts, sum, value, n).0[i] == counts[i] + if InBucket(r, i, value) then n else 0
    ensures RecordedTimes(r, counts, sum, value, n).1 == sum + n * value
  {
    if n > 0 {
      RecordedTimesCounts(r, counts, sum, value, n - 1, i);
      assert n * value == (n - 1) * value + value;
    }
  }

  /** With a count, of either sign, the effect is that of recording the value n times
      exactly when n is one and the sum grows by the value; of count times, only for a
      count of one. */
  lemma AccumulateRecordsExactlyWhen(r: seq<int>, counts: seq<int>, sum: int, value: int, count: int,
                                     n: nat, bucket: nat)
    requires |r| == |counts| + 1 && InBucket(r, bucket, value)
    ensures Accumulated(r, counts, sum, value, count) == RecordedTimes(r, counts, sum, value, n)
            <==> n == 1 && (value == 0 || count == 1)
    ensures Accumulated(r, counts, sum, value, count).1 == RecordedTimes(r, counts, sum, value, n).1
            <==> value == 0 || count == n
  {
    RecordedTimesCounts(r, counts, sum, value, n, bucket);
    if value != 0 && count != n {
      assert (count - n) * value != 0;
    }
    if n == 1 {
      assert RecordedTimes(r, counts, sum, value, 0) == (counts, sum);
    } else {
      assert Accumulated(r, counts, sum, value, count).0[bucket] == counts[bucket] + 1;
    }
  }

  // ---------------------------------------------------------------------
  // The iterator
  // ---------------------------------------------------------------------

  /** Walks over the non-empty buckets of counts, which may change behind it. */
  class SampleVectorIterator {
    const counts: array<int>
    const ranges: seq<int>
    var index: nat

    ghost predicate Valid()
      reads this, counts
    {
      && ValidRanges(ranges) && |ranges| == counts.Length + 1
      && index <= counts.Length
      && (index < counts.Length ==> counts[index] != 0)
    }

    constructor (counts: array<int>, ranges: seq<int>)
      requires ValidRanges(ranges) && |ranges| == counts.Length + 1
      ensures Valid() && this.counts == counts && this.ranges == ranges
      ensures forall i :: 0 <= i < index ==> counts[i] == 0
    {
      this.counts := counts;
      this.ranges := ranges;
      index := 0;
      new;
      SkipEmptyBuckets();
    }

    predicate Done()
      reads this
    {
      index == counts.Length
    }

    method SkipEmptyBuckets()
      requires ValidRanges(ranges) && |ranges| == counts.Length + 1 && index <= counts.Length
      modifies this
      ensures Valid() && old(index) <= index
      ensures forall i :: old(index) <= i < index ==> counts[i] == 0
    {
      if Done() {
        return;
      }
      while index < counts.Length
        invariant old(index) <= index <= counts.Length
        invariant forall i :: old(index) <= i < index ==> counts[i] == 0
      {
        if counts[index] != 0 {
          return;
        }
        index := index + 1;
      }
    }

    method Next()
      requires ValidRanges(ranges) && |ranges| == counts.Length + 1 && index < counts.Length
      modifies this
      ensures Valid() && old(index) < index
      ensures forall i :: old(index) < i < index ==> counts[i] == 0
    {
      index := index + 1;
      SkipEmptyBuckets();
    }

    method Get() returns (min: int, max: int, count: int)
      requires Valid() && !Done()
      ensures min == ranges[index] && max == ranges[index + 1] && count == counts[index]
    {
      min, max, count := ranges[index], ranges[index + 1], counts[index];
    }
  }

  // ---------------------------------------------------------------------
  // The vector
  // ---------------------------------------------------------------------

  class SampleVector {
    const ranges: seq<int>
    const counts: array<int>
    var sum: int

    ghost predicate Valid()
      reads this
    {
      ValidRanges(ranges) && |ranges| == counts.Length + 1
    }

    constructor (ranges: seq<int>)
      requires |ranges| >= 2
      ensures Valid() <==> ValidRanges(ranges)
      ensures this.ranges == ranges && counts.Length == |ranges| - 1 && fresh(counts) && sum == 0
      ensures forall i :: 0 <= i < counts.Length ==> counts[i] == 0
    {
      this.ranges := ranges;
      counts := new int[|ranges| - 1](_ => 0);
      sum := 0;
    }

    /** The binary search stops at the one bucket that holds the value. */
    method GetBucketIndex(value: int) returns (mid: nat)
      requires Valid() && ranges[0] <= value < ranges[counts.Length]
      ensures InBucket(ranges, mid, value)
      ensures forall i: nat :: InBucket(ranges, i, value) ==> i == mid
    {
      var under := 0;
      var over := counts.Length;
      mid := under + (over - under) / 2;
      while mid != under
        invariant 0 <= under < over <= counts.Length && mid == under + (over - under) / 2
        invariant ranges[under] <= value < ranges[over]
        decreases over - under
      {
        if ranges[mid] <= value {
          under := mid;
        } else {
          over := mid;
        }
        mid := under + (over - under) / 2;
      }
    }

    /** As written: one more in the bucket, whatever the count, and count times the
        value on the sum. */
    method Accumulate(value: int, count: int)
      requires Valid() && ranges[0] <= value < ranges[counts.Length]
      modifies this`sum, counts
      ensures sum == old(sum) + count * value
      ensures forall i :: 0 <= i < counts.Length ==>
        counts[i] == old(counts[i]) + if InBucket(ranges, i, value) then 1 else 0
      ensures (counts[..], sum) == Accumulated(ranges, old(counts[..]), old(sum), value, count)
    {
      ghost var before := counts[..];
      var index := GetBucketIndex(value);
      counts[index] := counts[index] + 1;
      sum := sum + count * value;
      assert counts[..] == Accumulated(ranges, before, old(sum), value, count).0;
    }

    method TotalCount() returns (count: int)
      ensures count == Total(counts[..])
    {
      count := 0;
      var i := 0;
      while i < counts.Length
        invariant i <= counts.Length && count == Total(counts[..i])
      {
        assert counts[..i + 1][..i] == counts[..i];
        count := count + counts[i];
        i := i + 1;
      }
      assert counts[..i] == counts[..];
    }

    method Iterator() returns (iter: SampleVectorIterator)
      requires Valid()
      ensures fresh(iter) && iter.Valid() && iter.counts == counts && iter.ranges == ranges
      ensures forall i :: 0 <= i < iter.index ==> counts[i] == 0
    {
      iter := new SampleVectorIterator(counts, ranges);
    }

    /** Merges what the iterator yields into the counts, also when the iterator walks
        over these very counts. It succeeds exactly when every non-empty bucket of the
        source is a bucket here, and has then changed the counts bucket by bucket. */
    method AddSubtractImpl(iter: SampleVectorIterator, op: Operator) returns (success: bool)
      requires Valid() && iter.Valid()
      requires forall i :: 0 <= i < iter.index ==> iter.counts[i] == 0
      requires iter.counts == counts ==> iter.ranges == ranges
      modifies counts, iter
      ensures success <==> Mergeable(ranges, iter.ranges, old(iter.counts[..]))
      ensures success ==> counts[..] == Merged(ranges, old(counts[..]), iter.ranges, old(iter.counts[..]), op)
      // a failure leaves the source buckets before the failing one merged
      ensures !success ==> exists k: nat ::
        FailsAt(ranges, iter.ranges, old(iter.counts[..]), k)
        && counts[..] == MergedUpTo(ranges, old(counts[..]), iter.ranges, old(iter.counts[..]), k, op)
    {
      hide MergedUpTo, Held, Mergeable, FailsAt;
      ghost var r, from, into := iter.ranges, iter.counts[..], counts[..];
      var index := 0;
      NothingMerged(ranges, into, r, from, iter.index, op);
      while index < counts.Length && !iter.Done()
        invariant index <= counts.Length && iter.Valid()
        invariant forall i :: iter.index <= i < iter.counts.Length ==> iter.counts[i] == from[i]
        invariant Progress(ranges, r, from, index, iter.index)
        invariant counts[..] == MergedUpTo(ranges, into, r, from, iter.index, op)
        decreases counts.Length - index, iter.counts.Length - iter.index
      {
        var k := iter.index;
        var min, max, count := iter.Get();
        if min == ranges[index] && max == ranges[index + 1] {
          // walking over these very counts, the iterator stands at the bucket it meets
          assert iter.counts == counts ==> index == k;
          ghost var before := counts[..];
          counts[index] := counts[index] + if op == ADD then count else -count;
          assert counts[..] == before[index := before[index] + Signed(op, from[k])];
          assert forall i :: k < i < iter.counts.Length ==> iter.counts[i] == from[i];
          iter.Next();
          assert forall i :: k < i < iter.index ==> iter.counts[i] == from[i];
          MergedOne(ranges, into, r, from, index, k, iter.index, op);
        } else if min > ranges[index] {
          index := index + 1;
        } else {
          NoTarget(ranges, r, from, index, k);
          return false;
        }
      }
      success := iter.Done();
      if success {
        EverythingMerged(ranges, r, from, index);
      } else {
        NoTarget(ranges, r, from, index, iter.index);
      }
    }

    method Add(other: SampleVector) returns (success: bool)
      requires Valid() && other.Valid() && (other.counts == counts ==> other.ranges == ranges)
      modifies this`sum, counts
      ensures sum == old(sum) + old(other.sum)
      ensures success <==> Mergeable(ranges, other.ranges, old(other.counts[..]))
      ensures success ==> counts[..] == Merged(ranges, old(counts[..]), other.ranges, old(other.counts[..]), ADD)
      ensures !success ==> exists k: nat ::
        FailsAt(ranges, other.ranges, old(other.counts[..]), k)
        && counts[..] == MergedUpTo(ranges, old(counts[..]), other.ranges, old(other.counts[..]), k, ADD)
    {
      sum := sum + other.sum;
      var iter := other.Iterator();
      success := AddSubtractImpl(iter, ADD);
    }

    method Subtract(other: SampleVector) returns (success: bool)
      requires Valid() && other.Valid() && (other.counts == counts ==> other.ranges == ranges)
      modifies this`sum, counts
      ensures sum == old(sum) - old(other.sum)
      ensures success <==> Mergeable(ranges, other.ranges, old(other.counts[..]))
      ensures success ==> counts[..] == Merged(ranges, old(counts[..]), other.ranges, old(other.counts[..]), SUBTRACT)
      ensures !success ==> exists k: nat ::
        FailsAt(ranges, other.ranges, old(other.counts[..]), k)
        && counts[..] == MergedUpTo(ranges, old(counts[..]), other.ranges, old(other.counts[..]), k, SUBTRACT)
    {
      sum := sum - other.sum;
      var iter := other.Iterator();
      success := AddSubtractImpl(iter, SUBTRACT);
    }
  }

  function Total(counts: seq<int>): int {
    if counts == [] then 0 else Total(counts[..|counts| - 1]) + counts[|counts| - 1]
  }

  // ---------------------------------------------------------------------
  // The merge loop
  // ---------------------------------------------------------------------

  /** Source buckets before k are merged, and the ones from k on lie beyond the
      target buckets before index. */
  ghost predicate Progress(target: seq<int>, r: seq<int>, counts: seq<int>, index: nat, k: nat)
    requires |r| == |counts| + 1 && k <= |counts| && index < |target|
  {
    && (forall i: nat :: i < k && counts[i] != 0 ==> HasTarget(target, r, i))
    && (k < |counts| ==> counts[k] != 0 && forall j :: 0 <= j < index ==> target[j] < r[k])
  }

  lemma {:induction false} HeldOfEmpty(r: seq<int>, counts: seq<int>, from: nat, k: nat)
    requires |r| == |counts| + 1 && from <= k <= |counts|
    requires forall i :: from <= i < k ==> counts[i] == 0
    ensures forall lo, hi :: Held(r, counts, k, lo, hi) == Held(r, counts, from, lo, hi)
    decreases k
  {
    if from < k {
      HeldOfEmpty(r, counts, from, k - 1);
    }
  }

  lemma NothingMerged(target: seq<int>, into: seq<int>, r: seq<int>, counts: seq<int>, k: nat, op: Operator)
    requires |target| == |into| + 1 && |r| == |counts| + 1 && k <= |counts|
    requires forall i :: 0 <= i < k ==> counts[i] == 0
    ensures MergedUpTo(target, into, r, counts, k, op) == into
  {
    HeldOfEmpty(r, counts, 0, k);
  }

  lemma MergedOne(target: seq<int>, into: seq<int>, r: seq<int>, counts: seq<int>,
                  index: nat, k: nat, next: nat, op: Operator)
    requires ValidRanges(target) && ValidRanges(r) && |target| == |into| + 1 && |r| == |counts| + 1
    requires index < |into| && k < next <= |counts| && Progress(target, r, counts, index, k)
    requires SameInterval(target, index, r, k)
    requires forall i :: k < i < next ==> counts[i] == 0
    requires next < |counts| ==> counts[next] != 0
    ensures Progress(target, r, counts, index, next)
    ensures var before := MergedUpTo(target, into, r, counts, k, op);
      MergedUpTo(target, into, r, counts, next, op) == before[index := before[index] + Signed(op, counts[k])]
  {
    ProgressByOne(target, r, counts, index, k, next);
    hide Progress, ValidRanges, Held, HasTarget;
    var before, after := MergedUpTo(target, into, r, counts, k, op), MergedUpTo(target, into, r, counts, next, op);
    forall j | 0 <= j < |into|
      ensures after[j] == before[j] + if j == index then Signed(op, counts[k]) else 0
    {
      HeldByOne(target, r, counts, index, k, next, j);
    }
  }

  lemma ProgressByOne(target: seq<int>, r: seq<int>, counts: seq<int>, index: nat, k: nat, next: nat)
    requires ValidRanges(r) && |r| == |counts| + 1 && index < |target| && k < next <= |counts|
    requires Progress(target, r, counts, index, k) && SameInterval(target, index, r, k)
    requires forall i :: k < i < next ==> counts[i] == 0
    requires next < |counts| ==> counts[next] != 0
    ensures Progress(target, r, counts, index, next)
  {
    assert HasTarget(target, r, k);
  }

  lemma HeldByOne(target: seq<int>, r: seq<int>, counts: seq<int>, index: nat, k: nat, next: nat, j: nat)
    requires ValidRanges(target) && |r| == |counts| + 1 && j + 1 < |target|
    requires k < next <= |counts| && SameInterval(target, index, r, k)
    requires forall i :: k < i < next ==> counts[i] == 0
    ensures Held(r, counts, next, target[j], target[j + 1])
         == Held(r, counts, k, target[j], target[j + 1]) + if j == index then counts[k] else 0
  {
    HeldOfEmpty(r, counts, k + 1, next);
  }

  lemma EverythingMerged(target: seq<int>, r: seq<int>, counts: seq<int>, index: nat)
    requires |r| == |counts| + 1 && index < |target| && Progress(target, r, counts, index, |counts|)
    ensures Mergeable(target, r, counts)
  {
  }

  lemma NoTarget(target: seq<int>, r: seq<int>, counts: seq<int>, index: nat, k: nat)
    requires ValidRanges(target) && ValidRanges(r) && |r| == |counts| + 1 && index < |target| && k < |counts|
    requires Progress(target, r, counts, index, k)
    requires index < |target| - 1 ==> r[k] <= target[index] && !(r[k] == target[index] && r[k + 1] == target[index + 1])
    ensures FailsAt(target, r, counts, k) && !Mergeable(target, r, counts)
  {
    forall j: nat
      ensures !SameInterval(target, j, r, k)
    {
    }
  }
}
