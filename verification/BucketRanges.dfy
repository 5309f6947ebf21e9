// metrics/BucketRanges.{h,cc} and the construction of exponential buckets in
// metrics/Histogram.cc.
module Buckets {

  const SAMPLE_TYPE_MAX: int := 0x7FFF_FFFF
  const BUCKET_COUNT_MAX: int := 16384

  /** Boundaries: entry i is the smallest sample of bucket i, and the last entry the
      bound of the last bucket. */
  class BucketRanges {
    const ranges: array<int>

    constructor (numRanges: nat)
      ensures fresh(ranges) && ranges.Length == numRanges
      ensures forall i :: 0 <= i < numRanges ==> ranges[i] == 0
    {
      ranges := new int[numRanges](_ => 0);
    }

    method SetRange(i: nat, value: int)
      requires i < ranges.Length && value > 0
      modifies ranges
      ensures ranges[..] == old(ranges[..])[i := value]
    {
      ranges[i] := value;
    }
  }

  // ---------------------------------------------------------------------
  // The rounded ideal root
  // ---------------------------------------------------------------------

  function Pow(b: int, n: nat): int {
    if n == 0 then 1 else b * Pow(b, n - 1)
  }

  lemma {:induction false} PowMonotone(a: nat, b: nat, n: nat)
    requires a <= b
    ensures 0 <= Pow(a, n) <= Pow(b, n)
  {
    if n > 0 {
      PowMonotone(a, b, n - 1);
      ProductMonotone(a, b, Pow(a, n - 1), Pow(b, n - 1));
    }
  }

  lemma ProductMonotone(a: nat, b: nat, c: nat, d: nat)
    requires a <= b && c <= d
    ensures 0 <= a * c <= b * d
  {
    assert a * c <= b * c <= b * d;
  }

  lemma {:induction false} PowStrict(a: nat, b: nat, n: nat)
    requires a < b && n > 0
    ensures Pow(a, n) < Pow(b, n)
  {
    PowMonotone(a, b, n - 1);
    var x, y := Pow(a, n - 1), Pow(b, n - 1);
    PowPositive(b, n - 1);
    assert a * x <= a * y < b * y;
  }

  lemma {:induction false} PowPositive(b: int, n: nat)
    requires b > 0
    ensures Pow(b, n) > 0
  {
    if n > 0 {
      PowPositive(b, n - 1);
    }
  }

  lemma {:induction false} PowAtLeastBase(b: nat, n: nat)
    requires b > 0 && n > 0
    ensures Pow(b, n) >= b
  {
    PowPositive(b, n - 1);
    var p := Pow(b, n - 1);
    assert b * p >= b;
  }

  lemma Associate(x: int, y: int, z: int)
    ensures x * y * z == x * (y * z)
  {
  }

  lemma Interchange(a: int, b: int, x: int, y: int)
    ensures a * b * (x * y) == a * x * (b * y)
  {
    Associate(a, b, x * y);
    Associate(b, x, y);
    Associate(x, b, y);
    Associate(a, x, b * y);
  }

  lemma {:induction false} PowOfProduct(a: int, b: int, n: nat)
    ensures Pow(a * b, n) == Pow(a, n) * Pow(b, n)
  {
    if n > 0 {
      PowOfProduct(a, b, n - 1);
      Interchange(a, b, Pow(a, n - 1), Pow(b, n - 1));
    }
  }

  /** The least j from k on with target < (2j+1)^n. */
  function RootFrom(target: nat, n: nat, k: nat): (j: nat)
    requires n > 0
    ensures j >= k && target < Pow(2 * j + 1, n)
    ensures forall i :: k <= i < j ==> Pow(2 * i + 1, n) <= target
    decreases target - k
  {
    if target < Pow(2 * k + 1, n) then k
    else
      PowAtLeastBase(2 * k + 1, n);
      RootFrom(target, n, k + 1)
  }

  /** 2^n * c^(n-1) * m: the n-th power of twice the ideal boundary. */
  function Doubled(c: nat, m: nat, n: nat): (t: int)
    requires n > 0
    ensures t >= 0
  {
    PowMonotone(0, 2, n);
    PowMonotone(0, c, n - 1);
    var p := Pow(c, n - 1);
    assert Pow(2, n) * p >= 0;
    Pow(2, n) * p * m
  }

  /** The boundary that the code computes as floor(exp(log_next) + 0.5), where
      log_next is log(c) + (log(m) - log(c)) / n: with x = c * (m/c)^(1/n), the
      integer k for which (2k-1)^n <= (2x)^n < (2k+1)^n. */
  function RoundedRoot(c: nat, m: nat, n: nat): nat
    requires n > 0
  {
    RootFrom(Doubled(c, m, n), n, 0)
  }

  // the same over ideal reals

  function RealPow(x: real, n: nat): real {
    if n == 0 then 1.0 else x * RealPow(x, n - 1)
  }

  lemma {:induction false} RealPowMonotone(x: real, y: real, n: nat)
    requires 0.0 <= x <= y
    ensures 0.0 <= RealPow(x, n) <= RealPow(y, n)
  {
    if n > 0 {
      RealPowMonotone(x, y, n - 1);
      var p, q := RealPow(x, n - 1), RealPow(y, n - 1);
      assert x * p <= y * p <= y * q;
    }
  }

  lemma {:induction false} RealPowStrict(x: real, y: real, n: nat)
    requires 0.0 <= x < y && n > 0
    ensures RealPow(x, n) < RealPow(y, n)
  {
    RealPowMonotone(x, y, n - 1);
    RealPowPositive(y, n - 1);
    RealProductStrict(x, y, RealPow(x, n - 1), RealPow(y, n - 1));
  }

  lemma RealProductStrict(x: real, y: real, p: real, q: real)
    requires 0.0 <= x < y && p <= q && 0.0 < q
    ensures x * p < y * q
  {
    assert x * p <= x * q < y * q;
  }

  lemma {:induction false} RealPowPositive(x: real, n: nat)
    requires x > 0.0
    ensures RealPow(x, n) > 0.0
  {
    if n > 0 {
      RealPowPositive(x, n - 1);
    }
  }

  lemma {:induction false} RealPowOfInt(b: int, n: nat)
    ensures RealPow(b as real, n) == Pow(b, n) as real
  {
    if n > 0 {
      RealPowOfInt(b, n - 1);
      IntProductAsReal(b, Pow(b, n - 1));
    }
  }

  lemma IntProductAsReal(a: int, b: int)
    ensures (a * b) as real == (a as real) * (b as real)
  {
  }

  lemma {:induction false} RealPowDoubled(x: real, n: nat)
    ensures RealPow(2.0 * x, n) == Pow(2, n) as real * RealPow(x, n)
  {
    if n > 0 {
      RealPowDoubled(x, n - 1);
      var p, q := Pow(2, n - 1) as real, RealPow(x, n - 1);
      assert Pow(2, n) as real == 2.0 * p;
      assert 2.0 * x * (p * q) == 2.0 * p * (x * q);
    }
  }

  /** For the ideal boundary x, with x^n = c^(n-1) * m, rounding x gives RoundedRoot. */
  lemma RoundedRootIsRounding(x: real, c: nat, m: nat, n: nat)
    requires n > 0 && x > 0.0
    requires RealPow(x, n) == (Pow(c, n - 1) * m) as real
    ensures (x + 0.5).Floor == RoundedRoot(c, m, n)
  {
    var k := (x + 0.5).Floor;
    var t := Doubled(c, m, n);
    RealPowDoubled(x, n);
    var p := Pow(c, n - 1);
    assert Pow(2, n) * p * m == Pow(2, n) * (p * m);
    IntProductAsReal(Pow(2, n), p * m);
    assert RealPow(2.0 * x, n) == t as real;
    RealPowStrict(2.0 * x, (2 * k + 1) as real, n);
    RealPowOfInt(2 * k + 1, n);
    assert t < Pow(2 * k + 1, n);
    if k > 0 {
      RealPowMonotone((2 * k - 1) as real, 2.0 * x, n);
      RealPowOfInt(2 * k - 1, n);
    }
    RootIsUnique(t, n, k);
  }

  lemma RootIsUnique(t: nat, n: nat, k: nat)
    requires n > 0 && t < Pow(2 * k + 1, n) && (k > 0 ==> Pow(2 * k - 1, n) <= t)
    ensures RootFrom(t, n, 0) == k
  {
    var j := RootFrom(t, n, 0);
    if j < k {
      PowMonotone(2 * j + 1, 2 * k - 1, n);
    }
  }

  // ---------------------------------------------------------------------
  // The layout
  // ---------------------------------------------------------------------

  /** The boundary after c, when n more are to end at m. */
  function NextBoundary(c: nat, m: nat, n: nat): (next: nat)
    requires n > 0
    ensures next > c
  {
    if RoundedRoot(c, m, n) > c then RoundedRoot(c, m, n) else c + 1
  }

  /** The boundaries InitializeBucketRanges writes. */
  ghost predicate Laid(r: seq<int>, minimum: int, maximum: int) {
    var count := |r| - 1;
    && count >= 2 && minimum >= 1 && maximum >= 1
    && r[0] == 0 && r[1] == minimum && r[count] == SAMPLE_TYPE_MAX
    && (forall i :: 1 <= i < count ==> r[i] >= 1)
    && (forall i :: 2 <= i < count ==> r[i] == NextBoundary(r[i - 1], maximum, count - i))
  }

  method InitializeBucketRanges(minimum: int, maximum: int, ranges: BucketRanges)
    requires minimum >= 1 && maximum >= 1 && ranges.ranges.Length >= 3 && ranges.ranges[0] == 0
    modifies ranges.ranges
    ensures Laid(ranges.ranges[..], minimum, maximum)
  {
    var bucketIndex := 1;
    var current := minimum;
    ranges.SetRange(bucketIndex, current);
    var bucketCount := ranges.ranges.Length - 1;
    bucketIndex := bucketIndex + 1;
    while bucketCount > bucketIndex
      invariant 2 <= bucketIndex <= bucketCount
      invariant current == ranges.ranges[bucketIndex - 1] >= 1
      invariant ranges.ranges[0] == 0 && ranges.ranges[1] == minimum
      invariant forall i :: 1 <= i < bucketIndex ==> ranges.ranges[i] >= 1
      invariant forall i :: 2 <= i < bucketIndex ==>
        ranges.ranges[i] == NextBoundary(ranges.ranges[i - 1], maximum, bucketCount - i)
    {
      var next := RoundedRoot(current, maximum, bucketCount - bucketIndex);
      if next > current {
        current := next;
      } else {
        current := current + 1;
      }
      ranges.SetRange(bucketIndex, current);
      bucketIndex := bucketIndex + 1;
    }
    ranges.SetRange(bucketCount, SAMPLE_TYPE_MAX);
  }

  /** Bernoulli's inequality, without division. */
  lemma {:induction false} Bernoulli(a: nat, d: nat, n: nat)
    requires n > 0
    ensures Pow(a + d, n) >= Pow(a, n) + n * (Pow(a, n - 1) * d)
  {
    if n == 1 {
      assert Pow(a, 0) == 1 && Pow(a, 1) == a && Pow(a + d, 1) == a + d;
    } else {
      Bernoulli(a, d, n - 1);
      PowMonotone(0, a, n - 2);
      BernoulliStep(a, d, n, Pow(a + d, n - 1), Pow(a, n - 2));
    }
  }

  lemma BernoulliStep(a: nat, d: nat, n: nat, x: int, p: nat)
    requires n > 1 && x >= a * p + (n - 1) * (p * d)
    ensures (a + d) * x >= a * (a * p) + n * (a * p * d)
  {
    var u, v := a * p, p * d;
    var w := a * p * d;
    Associate(a, p, d);
    assert d * u == w;
    var y := u + (n - 1) * v;
    assert (n - 1) * v >= 0;
    assert (a + d) * x >= (a + d) * y;
    assert a * ((n - 1) * v) == (n - 1) * w by {
      Associate(a, n - 1, v);
      Associate(n - 1, a, v);
    }
    assert a * y == a * u + (n - 1) * w;
    assert d * y >= d * u;
  }

  /** The rounded boundary stays below the arithmetic mean of n - 1 copies of c and
      one of m: n * (2k - 1) <= 2 * ((n - 1) * c + m). */
  lemma RootBelowMean(c: nat, m: nat, n: nat)
    requires n > 0 && 0 < c <= m
    ensures var k := RoundedRoot(c, m, n); n * (2 * k - 1) <= 2 * (n * c + (m - c))
  {
    var k, mean := RoundedRoot(c, m, n), n * c + (m - c);
    if k > 0 {
      RootIsLeast(c, m, n);
      hide RoundedRoot, Doubled, Pow;
      var t := Doubled(c, m, n);
      PowPositive(n, n);
      ProductMonotone(Pow(n, n), Pow(n, n), Pow(2 * k - 1, n), t);
      MeanPower(c, m, n);
      PowOfProduct(n, 2 * k - 1, n);
      PowReflectsOrder(n * (2 * k - 1), 2 * mean, n);
    }
  }

  lemma RootIsLeast(c: nat, m: nat, n: nat)
    requires n > 0
    ensures var k := RoundedRoot(c, m, n); k > 0 ==> 0 <= Pow(2 * k - 1, n) <= Doubled(c, m, n)
  {
    var k := RoundedRoot(c, m, n);
    if k > 0 {
      assert 2 * (k - 1) + 1 == 2 * k - 1;
      PowMonotone(0, 2 * k - 1, n);
    }
  }

  lemma PowReflectsOrder(x: nat, y: nat, n: nat)
    requires n > 0 && Pow(x, n) <= Pow(y, n)
    ensures x <= y
  {
    if y < x {
      PowStrict(y, x, n);
    }
  }

  lemma MeanPower(c: nat, m: nat, n: nat)
    requires n > 0 && 0 < c <= m
    ensures Pow(n, n) * Doubled(c, m, n) <= Pow(2 * (n * c + (m - c)), n)
  {
    var d := m - c;
    var mean := n * c + d;
    Bernoulli(n * c, d, n);
    PowOfProduct(n, c, n);
    PowOfProduct(n, c, n - 1);
    PowOfProduct(2, mean, n);
    var nn, cc, two := Pow(n, n - 1), Pow(c, n - 1), Pow(2, n);
    assert Pow(mean, n) >= n * nn * (cc * m) by {
      MeanPowerStep(n, nn, c, cc, d);
    }
    PowMonotone(0, 2, n);
    var x := n * nn * (cc * m);
    assert two * Pow(mean, n) >= two * x;
    assert n * nn * (two * cc * m) == two * x by {
      Associate(two, cc, m);
      Swap(n * nn, two, cc * m);
    }
  }

  lemma Swap(a: int, b: int, x: int)
    ensures a * (b * x) == b * (a * x)
  {
  }

  lemma MeanPowerStep(n: nat, nn: int, c: nat, cc: int, d: nat)
    ensures n * nn * (c * cc) + n * (nn * cc * d) == n * nn * (cc * (c + d))
  {
    assert cc * (c + d) == c * cc + cc * d;
    Associate(nn, cc, d);
    Associate(n, nn, cc * d);
  }

  /** One boundary leaves room for the rest: if n more have to fit below m, then
      after the next one n - 1 still fit, and the last one is m itself. */
  lemma NextLeavesRoom(c: nat, m: nat, n: nat)
    requires n > 0 && 0 < c && c + n <= m
    ensures NextBoundary(c, m, n) + (n - 1) <= m
    ensures n == 1 ==> NextBoundary(c, m, n) == m
  {
    var k := RoundedRoot(c, m, n);
    if n == 1 {
      assert Pow(2, 1) == 2 && Pow(c, 0) == 1;
      assert Doubled(c, m, 1) == 2 * m;
      assert Pow(2 * m + 1, 1) == 2 * m + 1;
      RootIsUnique(2 * m, 1, m);
    } else {
      RootBelowMean(c, m, n);
      RoomBelowMean(c, m - c, n, k);
    }
  }

  lemma RoomBelowMean(c: nat, d: nat, n: nat, k: int)
    requires 1 < n <= d && n * (2 * k - 1) <= 2 * (n * c + d)
    ensures k <= c + d - n + 1
  {
    var first := c + d - n + 2;   // the first boundary too high
    RoomProducts(c, d, n);
    assert n * (2 * k - 1) == 2 * (n * k) - n;
    ProductReflectsOrder(n, k, first);
  }

  lemma RoomProducts(c: nat, d: nat, n: nat)
    requires 1 < n <= d
    ensures 2 * (n * c + d) + n < 2 * (n * (c + d - n + 2))
  {
    assert n * (c + d - n + 2) == n * c + n * (d - n) + 2 * n;
    AtLeast(n - 1, d - n);
    assert n * (d - n) == (n - 1) * (d - n) + (d - n);
  }

  lemma AtLeast(a: nat, b: nat)
    ensures a * b >= 0
  {
  }

  lemma ProductReflectsOrder(n: int, x: int, y: int)
    requires n > 0 && n * x < n * y
    ensures x < y
  {
  }

  // ---------------------------------------------------------------------
  // What a layout guarantees
  // ---------------------------------------------------------------------

  ghost predicate StrictlyIncreasing(r: seq<int>) {
    forall i, j :: 0 <= i < j < |r| ==> r[i] < r[j]
  }

  /** Boundaries 1 to count - 1 always increase, by at least one each. */
  lemma {:induction false} BoundariesClimb(r: seq<int>, minimum: int, maximum: int, i: nat, j: nat)
    requires Laid(r, minimum, maximum) && 1 <= i <= j < |r| - 1
    ensures r[j] >= r[i] + (j - i)
    decreases j
  {
    if i < j {
      BoundariesClimb(r, minimum, maximum, i, j - 1);
    }
  }

  lemma {:induction false} BoundariesKeepRoom(r: seq<int>, minimum: int, maximum: int, i: nat)
    requires Laid(r, minimum, maximum) && |r| - 1 >= 3
    requires |r| - 1 <= maximum - minimum + 2 && minimum < maximum
    requires 1 <= i < |r| - 1
    ensures r[i] + (|r| - 2 - i) <= maximum
    ensures i == |r| - 2 ==> r[i] == maximum
  {
    if i > 1 {
      BoundariesKeepRoom(r, minimum, maximum, i - 1);
      NextLeavesRoom(r[i - 1], maximum, |r| - 1 - i);
    }
  }

  /** With at least three buckets the last inner boundary is the maximum exactly when
      there are at most maximum - minimum + 2 of them: the bound that
      InspectConstructionArguments imposes is the least restrictive one. */
  lemma EndsAtMaximumExactlyWhenBucketsFit(r: seq<int>, minimum: int, maximum: int)
    requires Laid(r, minimum, maximum) && |r| - 1 >= 3 && minimum < maximum
    ensures r[|r| - 2] == maximum <==> |r| - 1 <= maximum - minimum + 2
  {
    if |r| - 1 <= maximum - minimum + 2 {
      BoundariesKeepRoom(r, minimum, maximum, |r| - 2);
    } else {
      BoundariesClimb(r, minimum, maximum, 1, |r| - 2);
    }
  }

  /** Without room for n more boundaries up to m, the rounded root is no further than the
      next integer. */
  lemma RootWithoutRoom(c: nat, m: nat, n: nat)
    requires n > 0 && c > 0 && c + n > m
    ensures NextBoundary(c, m, n) == c + 1
  {
    if c <= m {
      RootBelowMean(c, m, n);
      hide RoundedRoot;
      BelowNextInteger(n, RoundedRoot(c, m, n), c, m - c);
    } else if RoundedRoot(c, m, n) > 0 {
      RootIsLeast(c, m, n);
      DoubledBelowPower(c, m, n);
      hide RoundedRoot, Doubled, Pow;
      PowStrictReflects(2 * RoundedRoot(c, m, n) - 1, 2 * c, n);
    }
  }

  lemma BelowNextInteger(n: int, k: int, c: int, d: int)
    requires d < n && n > 0 && n * (2 * k - 1) <= 2 * (n * c + d)
    ensures k <= c + 1
  {
    assert n * (2 * c + 2) == 2 * (n * c) + 2 * n;
    ProductReflectsOrder(n, 2 * k - 1, 2 * c + 2);
  }

  lemma DoubledBelowPower(c: nat, m: nat, n: nat)
    requires n > 0 && m < c
    ensures Doubled(c, m, n) < Pow(2 * c, n)
  {
    PowOfProduct(2, c, n);
    PowPositive(2, n);
    PowPositive(c, n - 1);
    ScaledBelow(Pow(2, n), Pow(c, n - 1), m, c);
  }

  lemma ScaledBelow(p: int, q: int, m: int, c: int)
    requires p > 0 && q > 0 && m < c
    ensures p * q * m < p * (c * q)
  {
    Associate(p, q, m);
    assert q * m < q * c;
    assert p * (q * m) < p * (q * c);
  }

  lemma PowStrictReflects(x: nat, y: nat, n: nat)
    requires n > 0 && Pow(x, n) < Pow(y, n)
    ensures x < y
  {
    if y <= x {
      PowMonotone(y, x, n);
    }
  }

  /** Without room from the minimum on, the boundaries are consecutive integers. */
  lemma {:induction false} BoundariesWithoutRoom(r: seq<int>, minimum: int, maximum: int, i: nat)
    requires Laid(r, minimum, maximum) && 1 <= i < |r| - 1
    requires minimum + |r| - 3 > maximum
    ensures r[i] == minimum + i - 1
  {
    if i > 1 {
      BoundariesWithoutRoom(r, minimum, maximum, i - 1);
      RootWithoutRoom(r[i - 1], maximum, |r| - 1 - i);
    }
  }

  /** Where the inner boundaries end, for any arguments. */
  lemma LastInnerBoundary(r: seq<int>, minimum: int, maximum: int)
    requires Laid(r, minimum, maximum)
    ensures var count := |r| - 1;
      r[count - 1] == if count >= 3 && minimum + count - 2 <= maximum then maximum else minimum + count - 2
  {
    var count := |r| - 1;
    if count >= 3 && minimum + count - 2 <= maximum {
      BoundariesKeepRoom(r, minimum, maximum, count - 1);
    } else if count >= 3 {
      BoundariesWithoutRoom(r, minimum, maximum, count - 1);
    }
  }

  /** The minimum and the buckets after it stay below INT_MAX, and so does the maximum if
      there is a boundary for it. */
  predicate Constructible(minimum: int, maximum: int, count: nat) {
    minimum + count - 2 < SAMPLE_TYPE_MAX && (count >= 3 ==> maximum < SAMPLE_TYPE_MAX)
  }

  /** For any arguments the layout increases exactly under that condition on them. */
  lemma IncreasesExactlyWhenConstructible(r: seq<int>, minimum: int, maximum: int)
    requires Laid(r, minimum, maximum)
    ensures StrictlyIncreasing(r) <==> Constructible(minimum, maximum, |r| - 1)
  {
    var count := |r| - 1;
    LastInnerBoundary(r, minimum, maximum);
    if r[count - 1] < SAMPLE_TYPE_MAX {
      forall i, j | 1 <= i <= j < count
        ensures r[j] >= r[i] + (j - i)
      {
        BoundariesClimb(r, minimum, maximum, i, j);
      }
    }
  }

  /** Three buckets from 1 to INT_MAX: the last one is empty. */
  lemma LargestMaximumIsUnusable()
    ensures var r := [0, 1, SAMPLE_TYPE_MAX, SAMPLE_TYPE_MAX];
      Laid(r, 1, SAMPLE_TYPE_MAX) && !StrictlyIncreasing(r)
  {
    var r := [0, 1, SAMPLE_TYPE_MAX, SAMPLE_TYPE_MAX];
    NextLeavesRoom(1, SAMPLE_TYPE_MAX, 1);
    assert !(r[2] < r[3]);
  }

  /** The arguments as adjusted, and whether they are acceptable. */
  method InspectConstructionArguments(minimum: int, maximum: int, bucketCount: nat)
    returns (ok: bool, min: int, max: int, count: nat)
    ensures min == (if minimum < 1 then 1 else minimum)
    ensures max == (if maximum >= 0x7FFF_FFFF then 0x7FFF_FFFE else maximum)
    ensures count == (if bucketCount >= 16384 then 16383 else bucketCount)
    ensures ok <==> min < max && 3 <= count <= max - min + 2
    ensures ok ==> Accepted(min, max, count)
  {
    min, max, count := minimum, maximum, bucketCount;
    if min < 1 {
      min := 1;
    }
    if max >= SAMPLE_TYPE_MAX {
      max := SAMPLE_TYPE_MAX - 1;
    }
    if count >= BUCKET_COUNT_MAX {
      count := BUCKET_COUNT_MAX - 1;
    }
    if min >= max {
      return false, min, max, count;
    }
    if count < 3 {
      return false, min, max, count;
    }
    // neither the difference nor its sum with 2 leaves the range of int
    assert 0 <= max - min <= max - min + 2 <= SAMPLE_TYPE_MAX;
    if count > max - min + 2 {
      return false, min, max, count;
    }
    ok := true;
  }

  predicate Accepted(min: int, max: int, count: nat) {
    1 <= min < max < SAMPLE_TYPE_MAX && 3 <= count < BUCKET_COUNT_MAX && count <= max - min + 2
  }

  /** For all accepted arguments the boundaries increase strictly from 0 over the
      minimum to the maximum and the largest sample, so none of them overflows. */
  lemma AcceptedLayout(r: seq<int>, min: int, max: int, count: nat)
    requires Accepted(min, max, count) && |r| == count + 1 && Laid(r, min, max)
    ensures StrictlyIncreasing(r)
    ensures r[0] == 0 && r[1] == min && r[count - 1] == max && r[count] == SAMPLE_TYPE_MAX
    ensures forall i :: 0 <= i <= count ==> 0 <= r[i] <= SAMPLE_TYPE_MAX
  {
    EndsAtMaximumExactlyWhenBucketsFit(r, min, max);
    forall i, j | 1 <= i <= j < count
      ensures r[j] >= r[i] + (j - i)
    {
      BoundariesClimb(r, min, max, i, j);
    }
    forall i | 1 <= i < count
      ensures min <= r[i] <= max
    {
      BoundariesClimb(r, min, max, 1, i);
      BoundariesClimb(r, min, max, i, count - 1);
    }
  }

  /** Accepted arguments are among those with a usable layout. */
  lemma AcceptedIsConstructible(min: int, max: int, count: nat)
    requires Accepted(min, max, count)
    ensures Constructible(min, max, count)
  {
  }
}
