// The textual report of metrics/Histogram.cc: bars, rows, and the collapsing of
// runs of empty buckets.
module HistogramReports {
  import opened SampleVectors

  const LINE_LENGTH := 72
  const TRANSITION_WIDTH := 5

  predicate NonNegative(counts: seq<int>) {
    forall i :: 0 <= i < |counts| ==> counts[i] >= 0
  }

  /** GetBucketSize: counts per unit of width, up to the transition width. */
  function BucketSize(r: seq<int>, counts: seq<int>, i: nat): real
    requires ValidRanges(r) && |r| == |counts| + 1 && i < |counts|
  {
    var width := r[i + 1] - r[i];
    counts[i] as real / (if width > TRANSITION_WIDTH then TRANSITION_WIDTH else width) as real
  }

  /** The size of a bucket is its count for each unit of width, of which at most five are
      taken into account; so of two with the same count a wider one is not taller. */
  lemma SizeIsDensity(r: seq<int>, counts: seq<int>, i: nat, j: nat)
    requires ValidRanges(r) && |r| == |counts| + 1 && i < |counts| && j < |counts|
    ensures r[i + 1] - r[i] <= 5 ==> BucketSize(r, counts, i) * (r[i + 1] - r[i]) as real == counts[i] as real
    ensures r[i + 1] - r[i] >= 5 ==> BucketSize(r, counts, i) * 5.0 == counts[i] as real
    ensures counts[i] == counts[j] >= 0 && r[i + 1] - r[i] <= r[j + 1] - r[j]
            ==> BucketSize(r, counts, j) <= BucketSize(r, counts, i)
  {
    var v, w := BucketSize(r, counts, i), BucketSize(r, counts, j);
    if counts[i] == counts[j] >= 0 && r[i + 1] - r[i] <= r[j + 1] - r[j] {
      WiderIsLower(counts[i] as real, Units(r, i), Units(r, j));
    }
  }

  /** The units of width that are taken into account. */
  function Units(r: seq<int>, i: nat): real
    requires ValidRanges(r) && i + 1 < |r|
  {
    if r[i + 1] - r[i] > TRANSITION_WIDTH then TRANSITION_WIDTH as real else (r[i + 1] - r[i]) as real
  }

  lemma WiderIsLower(count: real, narrow: real, wide: real)
    requires count >= 0.0 && 0.0 < narrow <= wide
    ensures count / wide <= count / narrow
  {
    var a, b := count / wide, count / narrow;
    assert a * wide == b * narrow;
    assert a >= 0.0;
    assert a * narrow <= a * wide;
    assert (a - b) * narrow <= 0.0;
  }

  lemma SizeFollowsCount(r: seq<int>, counts: seq<int>, i: nat)
    requires ValidRanges(r) && |r| == |counts| + 1 && i < |counts| && counts[i] >= 0
    ensures BucketSize(r, counts, i) >= 0.0
    ensures BucketSize(r, counts, i) == 0.0 <==> counts[i] == 0
  {
    var width := r[i + 1] - r[i];
    Quotient(counts[i] as real, (if width > TRANSITION_WIDTH then TRANSITION_WIDTH else width) as real);
  }

  lemma Quotient(a: real, b: real)
    requires a >= 0.0 && b > 0.0
    ensures a / b >= 0.0 && (a / b == 0.0 <==> a == 0.0)
  {
    assert a / b * b == a;
  }

  /** The size of some bucket that no bucket exceeds, zero exactly when there is nothing
      to draw. */
  ghost predicate IsPeak(max: real, r: seq<int>, counts: seq<int>)
    requires ValidRanges(r) && |r| == |counts| + 1
  {
    && (forall i :: 0 <= i < |counts| ==> BucketSize(r, counts, i) <= max)
    && (exists i :: 0 <= i < |counts| && BucketSize(r, counts, i) == max)
    && (max == 0.0 <==> forall i :: 0 <= i < |counts| ==> counts[i] == 0)
  }

  method GetPeakBucketSize(r: seq<int>, counts: seq<int>) returns (max: real)
    requires ValidRanges(r) && |r| == |counts| + 1 && NonNegative(counts)
    ensures IsPeak(max, r, counts)
  {
    hide BucketSize;
    max := 0.0;
    ghost var at := 0;
    var i := 0;
    while i < |counts|
      invariant 0 <= i <= |counts| && max >= 0.0
      invariant forall k :: 0 <= k < i ==> BucketSize(r, counts, k) <= max
      invariant i > 0 ==> 0 <= at < i && BucketSize(r, counts, at) == max
      invariant i == 0 ==> max == 0.0
      invariant max == 0.0 <==> forall k :: 0 <= k < i ==> counts[k] == 0
    {
      SizeFollowsCount(r, counts, i);
      var currentSize := BucketSize(r, counts, i);
      if currentSize > max {
        max := currentSize;
        at := i;
      } else if i == 0 {
        at := 0;
      }
      i := i + 1;
    }
  }

  function Repeat(c: char, n: nat): (s: string)
    ensures |s| == n && forall k :: 0 <= k < n ==> s[k] == c
  {
    seq(n, _ => c)
  }

  /** A line of 73 characters whose 'O' stands at the rounded share of 72. */
  ghost predicate IsBar(bar: string, currentSize: real, maxSize: real)
    requires maxSize > 0.0
  {
    exists x: nat ::
      && x <= LINE_LENGTH
      && bar == Repeat('-', x) + "O" + Repeat(' ', LINE_LENGTH - x)
      && x as real - 0.5 <= LINE_LENGTH as real * (currentSize / maxSize) < x as real + 0.5
  }

  lemma ShareInRange(a: real, b: real)
    requires 0.0 <= a <= b && b > 0.0
    ensures 0.0 <= a / b <= 1.0
  {
    var q := a / b;
    assert q * b == a;
    assert q > 1.0 ==> (q - 1.0) * b > 0.0;
  }

  method WriteAsciiBucketGraph(currentSize: real, maxSize: real) returns (bar: string)
    requires 0.0 <= currentSize <= maxSize && maxSize > 0.0
    ensures IsBar(bar, currentSize, maxSize) && |bar| == 73
  {
    ShareInRange(currentSize, maxSize);
    var scaled := LINE_LENGTH as real * (currentSize / maxSize) + 0.5;
    var xCount := scaled.Floor;
    var xRemainder := LINE_LENGTH - xCount;
    ghost var x := xCount;
    assert 0 <= x <= LINE_LENGTH;
    bar := "";
    while 0 < xCount
      invariant 0 <= xCount <= x && bar == Repeat('-', x - xCount)
    {
      xCount := xCount - 1;
      bar := bar + "-";
    }
    bar := bar + "O";
    ghost var left := bar;
    while 0 < xRemainder
      invariant 0 <= xRemainder <= LINE_LENGTH - x && bar == left + Repeat(' ', LINE_LENGTH - x - xRemainder)
    {
      xRemainder := xRemainder - 1;
      bar := bar + " ";
    }
    assert bar == Repeat('-', x) + "O" + Repeat(' ', LINE_LENGTH - x);
  }

  // ---------------------------------------------------------------------
  // The lines
  // ---------------------------------------------------------------------

  /** A plotted bucket with what is printed beside it, or a run of empty buckets. */
  datatype Line =
    | Row(bucket: nat, bar: string, past: int, current: int, remaining: int, share: real, below: real)
    | Gap(first: nat, last: nat)
  {
    function First(): nat {
      if Row? then bucket else first
    }

    function After(): nat {
      if Row? then bucket + 1 else last + 1
    }
  }

  /** The lines show buckets 0 to n - 1, each once and in order. */
  predicate Consecutive(lines: seq<Line>, n: nat) {
    if lines == [] then n == 0
    else
      var line := lines[|lines| - 1];
      line.After() == n && line.First() < n && Consecutive(lines[..|lines| - 1], line.First())
  }

  /** Non-empty, or with no empty bucket beside it. */
  predicate Plain(counts: seq<int>, i: nat) {
    && i < |counts|
    && (counts[i] == 0 ==> (i > 0 ==> counts[i - 1] != 0) && (i + 1 < |counts| ==> counts[i + 1] != 0))
  }

  /** A gap is a maximal run of two or more empty buckets; any other bucket is a row. */
  predicate Maximal(line: Line, counts: seq<int>) {
    match line
    case Gap(first, last) =>
      && first < last < |counts|
      && (forall i :: first <= i <= last ==> counts[i] == 0)
      && (first > 0 ==> counts[first - 1] != 0)
      && (last + 1 < |counts| ==> counts[last + 1] != 0)
    case Row(i, _, _, _, _, _, _) => Plain(counts, i)
  }

  predicate IsPercentage(x: real, part: int, whole: int) {
    x * whole as real == 100.0 * part as real
  }

  /** What a row prints: the samples below, in and above its bucket, and percentages. */
  ghost predicate Accounted(line: Line, r: seq<int>, counts: seq<int>, graphIt: bool, maxSize: real)
    requires ValidRanges(r) && |r| == |counts| + 1
  {
    line.Row? ==>
      && line.bucket < |counts|
      && line.past == Total(counts[..line.bucket])
      && line.current == counts[line.bucket]
      && line.past + line.current + line.remaining == Total(counts)
      && IsPercentage(line.share, line.current, Total(counts))
      && (line.bucket > 0 ==> IsPercentage(line.below, line.past, Total(counts)))
      && (graphIt ==> maxSize > 0.0 && IsBar(line.bar, BucketSize(r, counts, line.bucket), maxSize))
  }

  lemma TotalByOne(counts: seq<int>, i: nat)
    requires i < |counts|
    ensures Total(counts[..i + 1]) == Total(counts[..i]) + counts[i]
  {
    assert counts[..i + 1][..i] == counts[..i];
  }

  lemma {:induction false} TotalBounds(counts: seq<int>, i: nat)
    requires NonNegative(counts) && i < |counts|
    ensures Total(counts) >= counts[i]
    decreases |counts|
  {
    var rest := counts[..|counts| - 1];
    if i < |rest| {
      TotalBounds(rest, i);
    } else if |rest| > 0 {
      TotalBounds(rest, 0);
    }
  }

  /** A row with a neighbour or itself non-empty divides by neither zero peak nor zero total. */
  lemma NothingDividesByZero(counts: seq<int>, i: nat)
    requires NonNegative(counts) && |counts| >= 2 && Plain(counts, i)
    ensures Total(counts) > 0
    ensures exists i :: 0 <= i < |counts| && counts[i] != 0
  {
    var k := if counts[i] != 0 then i else if i > 0 then i - 1 else i + 1;
    TotalBounds(counts, k);
    assert counts[k] != 0;
  }

  lemma ScaledShare(n: int, total: int)
    requires total > 0
    ensures n as real / (total as real / 100.0) * total as real == 100.0 * n as real
  {
    var scaled := total as real / 100.0;
    var q := n as real / scaled;
    assert q * scaled == n as real;
    assert scaled * 100.0 == total as real;
    assert q * (scaled * 100.0) == (q * scaled) * 100.0;
  }

  /** The samples below bucket i, and those in and above it. */
  predicate Split(counts: seq<int>, i: nat, past: int, remaining: int) {
    i <= |counts| && past == Total(counts[..i]) && past + remaining == Total(counts)
  }

  lemma SplitByRow(counts: seq<int>, i: nat, past: int, remaining: int)
    requires i < |counts| && Split(counts, i, past, remaining)
    ensures Split(counts, i + 1, past + counts[i], remaining - counts[i])
  {
    TotalByOne(counts, i);
  }

  lemma SplitByGap(counts: seq<int>, gap: Line, past: int, remaining: int)
    requires gap.Gap? && Maximal(gap, counts) && Split(counts, gap.first, past, remaining)
    ensures gap.last < |counts| && Split(counts, gap.last + 1, past, remaining)
  {
    EmptyRun(counts, gap.first, gap.last + 1);
  }

  lemma SplitEnds(counts: seq<int>, past: int, remaining: int)
    ensures Split(counts, 0, 0, Total(counts))
    ensures Split(counts, |counts|, past, remaining) ==> remaining == 0
  {
    assert counts[..0] == [] && counts[..|counts|] == counts;
  }

  /** The percentages of a row, of the bucket and of what lies below it. */
  method WriteAsciiBucketContext(past: int, current: int, remaining: int, i: nat)
    returns (share: real, below: real)
    requires past + current + remaining > 0
    ensures IsPercentage(share, current, past + current + remaining)
    ensures i > 0 ==> IsPercentage(below, past, past + current + remaining)
  {
    var scaledSum := (past + current + remaining) as real / 100.0;
    ScaledShare(current, past + current + remaining);
    ScaledShare(past, past + current + remaining);
    share := current as real / scaledSum;
    below := 0.0;
    if 0 < i {
      below := past as real / scaledSum;
    }
  }

  lemma PeakIsPositive(r: seq<int>, counts: seq<int>, max: real, i: nat)
    requires ValidRanges(r) && |r| == |counts| + 1 && NonNegative(counts) && IsPeak(max, r, counts)
    requires i < |counts| && exists k :: 0 <= k < |counts| && counts[k] != 0
    ensures 0.0 <= BucketSize(r, counts, i) <= max && max > 0.0
  {
    SizeFollowsCount(r, counts, i);
    hide BucketSize;
  }

  /** One plotted line; remaining no longer has the samples of its bucket. */
  method WriteRow(r: seq<int>, counts: seq<int>, graphIt: bool, maxSize: real, i: nat, past: int, remaining: int)
    returns (row: Line)
    requires ValidRanges(r) && |r| == |counts| + 1 && |counts| >= 2 && NonNegative(counts)
    requires graphIt ==> IsPeak(maxSize, r, counts)
    requires i < |counts| && Plain(counts, i) && Split(counts, i, past, counts[i] + remaining)
    ensures row.Row? && row.bucket == i
    ensures Maximal(row, counts) && Accounted(row, r, counts, graphIt, maxSize)
  {
    hide BucketSize, IsBar, IsPercentage, Plain, Total, NonNegative, ValidRanges;
    NothingDividesByZero(counts, i);
    var bar := "";
    if graphIt {
      PeakIsPositive(r, counts, maxSize, i);
      bar := WriteAsciiBucketGraph(BucketSize(r, counts, i), maxSize);
    }
    var share, below := WriteAsciiBucketContext(past, counts[i], remaining, i);
    row := Row(i, bar, past, counts[i], remaining, share, below);
  }

  /** The lines show buckets 0 to n - 1, each once and in order, in maximal gaps and in
      rows that account for all samples. */
  ghost predicate Shown(lines: seq<Line>, n: nat, r: seq<int>, counts: seq<int>, graphIt: bool, maxSize: real)
    requires ValidRanges(r) && |r| == |counts| + 1
  {
    && Consecutive(lines, n)
    && forall k :: 0 <= k < |lines| ==>
      Maximal(lines[k], counts) && Accounted(lines[k], r, counts, graphIt, maxSize)
  }

  /** The inner loop of WriteAsciiImpl: the last bucket of a run of empty ones. */
  method SkipEmptyBuckets(counts: seq<int>, first: nat) returns (i: nat)
    requires first + 1 < |counts| && counts[first] == 0 && counts[first + 1] == 0
    requires first > 0 ==> counts[first - 1] != 0
    ensures Maximal(Gap(first, i), counts)
    ensures i + 1 < |counts| ==> counts[i + 1] != 0
  {
    i := first;
    while i < |counts| - 1 && 0 == counts[i + 1]
      invariant first <= i < |counts|
      invariant forall k :: first <= k <= i ==> counts[k] == 0
      invariant i == first ==> counts[i + 1] == 0
    {
      i := i + 1;
    }
  }

  /** WriteAsciiImpl from the snapshot on. */
  method WriteLines(r: seq<int>, counts: seq<int>, graphIt: bool, sampleCount: int)
    returns (lines: seq<Line>, maxSize: real)
    requires ValidRanges(r) && |r| == |counts| + 1 && |counts| >= 2 && NonNegative(counts)
    requires sampleCount == Total(counts)
    ensures Shown(lines, |counts|, r, counts, graphIt, maxSize)
  {
    maxSize := 0.0;
    if graphIt {
      maxSize := GetPeakBucketSize(r, counts);
    }
    lines := WriteBuckets(r, counts, graphIt, maxSize, sampleCount);
  }

  method WriteBuckets(r: seq<int>, counts: seq<int>, graphIt: bool, maxSize: real, sampleCount: int)
    returns (lines: seq<Line>)
    requires ValidRanges(r) && |r| == |counts| + 1 && |counts| >= 2 && NonNegative(counts)
    requires sampleCount == Total(counts) && (graphIt ==> IsPeak(maxSize, r, counts))
    ensures Shown(lines, |counts|, r, counts, graphIt, maxSize)
  {
    hide Accounted, BucketSize, IsPeak, Maximal, NonNegative, Shown, Split, Total, ValidRanges;
    NothingShown(r, counts, graphIt, maxSize);
    SplitEnds(counts, 0, 0);
    var remaining, past := sampleCount, 0;
    var i := 0;
    lines := [];
    while i < |counts|
      invariant 0 <= i <= |counts|
      invariant Split(counts, i, past, remaining) && past + remaining == sampleCount
      invariant 0 < i < |counts| && counts[i] == 0 ==> counts[i - 1] != 0
      invariant Shown(lines, i, r, counts, graphIt, maxSize)
    {
      var current := counts[i];
      SplitByRow(counts, i, past, remaining);
      remaining := remaining - current;
      if 0 == current && i < |counts| - 1 && 0 == counts[i + 1] {
        var first := i;
        i := SkipEmptyBuckets(counts, first);
        var gap := Gap(first, i);
        SplitByGap(counts, gap, past, remaining);
        GapIsShown(lines, gap, r, counts, graphIt, maxSize);
        lines := lines + [gap];
        i := i + 1;
      } else {
        var row := WriteRow(r, counts, graphIt, maxSize, i, past, remaining);
        OneMoreLine(lines, row, r, counts, graphIt, maxSize);
        lines := lines + [row];
        past := past + current;
        i := i + 1;
      }
    }
    SplitEnds(counts, past, remaining);
    // the check at the end of the report
    assert past == sampleCount;
  }

  lemma NothingShown(r: seq<int>, counts: seq<int>, graphIt: bool, maxSize: real)
    requires ValidRanges(r) && |r| == |counts| + 1
    ensures Shown([], 0, r, counts, graphIt, maxSize)
  {
  }

  lemma OneMoreLine(lines: seq<Line>, line: Line, r: seq<int>, counts: seq<int>, graphIt: bool, maxSize: real)
    requires ValidRanges(r) && |r| == |counts| + 1
    requires Shown(lines, line.First(), r, counts, graphIt, maxSize) && line.First() < line.After()
    requires Maximal(line, counts) && Accounted(line, r, counts, graphIt, maxSize)
    ensures Shown(lines + [line], line.After(), r, counts, graphIt, maxSize)
  {
    hide Maximal, Accounted;
    assert (lines + [line])[..|lines|] == lines;
  }

  lemma GapIsShown(lines: seq<Line>, gap: Line, r: seq<int>, counts: seq<int>, graphIt: bool, maxSize: real)
    requires ValidRanges(r) && |r| == |counts| + 1
    requires gap.Gap? && Maximal(gap, counts) && Shown(lines, gap.first, r, counts, graphIt, maxSize)
    ensures Shown(lines + [gap], gap.last + 1, r, counts, graphIt, maxSize)
  {
    OneMoreLine(lines, gap, r, counts, graphIt, maxSize);
  }

  /** Two reports of the same counts break the buckets into the same rows and gaps. */
  lemma {:induction false} LayoutIsUnique(a: seq<Line>, b: seq<Line>, counts: seq<int>, n: nat)
    requires n <= |counts| && Consecutive(a, n) && Consecutive(b, n)
    requires n < |counts| && n > 0 ==> counts[n] != 0 || counts[n - 1] != 0
    requires forall k :: 0 <= k < |a| ==> Maximal(a[k], counts)
    requires forall k :: 0 <= k < |b| ==> Maximal(b[k], counts)
    ensures |a| == |b|
    ensures forall k :: 0 <= k < |a| ==>
      a[k].Row? == b[k].Row? && a[k].First() == b[k].First() && a[k].After() == b[k].After()
    decreases n
  {
    if n > 0 {
      var x, y := a[|a| - 1], b[|b| - 1];
      assert x.First() == y.First() && x.Row? == y.Row?;
      LayoutIsUnique(a[..|a| - 1], b[..|b| - 1], counts, x.First());
    }
  }

  function Plotted(lines: seq<Line>): int {
    if lines == [] then 0
    else
      var line := lines[|lines| - 1];
      Plotted(lines[..|lines| - 1]) + if line.Row? then line.current else 0
  }

  /** No sample is lost in a gap: the rows add up to the total. */
  lemma {:induction false} RowsAddUp(lines: seq<Line>, r: seq<int>, counts: seq<int>,
                                     graphIt: bool, maxSize: real, n: nat)
    requires ValidRanges(r) && |r| == |counts| + 1 && n <= |counts|
    requires Shown(lines, n, r, counts, graphIt, maxSize)
    ensures Plotted(lines) == Total(counts[..n])
    decreases n
  {
    if n > 0 {
      var line := lines[|lines| - 1];
      RowsAddUp(lines[..|lines| - 1], r, counts, graphIt, maxSize, line.First());
      if line.Row? {
        TotalByOne(counts, line.bucket);
      } else {
        EmptyRun(counts, line.first, n);
      }
    }
  }

  lemma {:induction false} EmptyRun(counts: seq<int>, first: nat, n: nat)
    requires first <= n <= |counts|
    requires forall i :: first <= i < n ==> counts[i] == 0
    ensures Total(counts[..n]) == Total(counts[..first])
    decreases n
  {
    if first < n {
      TotalByOne(counts, n - 1);
      EmptyRun(counts, first, n - 1);
    }
  }
}
