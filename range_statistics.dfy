/** Range-difference statistics of one scan: `n_gaps` and `mean_sdev_range_diff`
    of place_detector.h. The scan is a non-empty sequence of ranges; the pair
    (last, first) closes the loop and is examined first. */
module RangeStatistics {
  import opened Sums

  /** `DBL_MAX`, the largest finite double, (2 - 2^-52) * 2^1023, written out exactly. */
  const DblMax: real := 179769313486231570814527423731704356798070567525844996598917476803157260780028538760589558632766878171540458953514382464234321326889464182768467546703537516986049910576551282076245490090389328944075868508455133942304583236903222948165808559332123348274797826204144723168738177180919299881250404026184124858368.0

  /** Absolute difference of the k-th pair: k = 0 is the wrap pair (first, last),
      k >= 1 the pair (k - 1, k). */
  function PairDiff(r: seq<real>, k: nat): (d: real)
    requires k < |r|
    ensures d >= 0.0
  {
    if k == 0 then Abs(r[0] - r[|r| - 1]) else Abs(r[k] - r[k - 1])
  }

  /** As `PairDiff`, except that for k >= 1 both ranges are first clipped to `thresh`;
      the wrap pair is never clipped. */
  function ClippedPairDiff(r: seq<real>, thresh: real, k: nat): (d: real)
    requires k < |r|
    ensures d >= 0.0
  {
    if k == 0 then Abs(r[0] - r[|r| - 1]) else Abs(Min(r[k], thresh) - Min(r[k - 1], thresh))
  }

  /** The n pair differences, wrap pair first. */
  function Diffs(r: seq<real>): (d: seq<real>)
    ensures |d| == |r|
  {
    seq(|r|, k requires 0 <= k < |r| => PairDiff(r, k))
  }

  /** The `lenDiff` vector of `mean_sdev_range_diff`. */
  function ClippedDiffs(r: seq<real>, thresh: real): (d: seq<real>)
    ensures |d| == |r|
  {
    seq(|r|, k requires 0 <= k < |r| => ClippedPairDiff(r, thresh, k))
  }

  /** Number of entries of `s` strictly above `thresh`. */
  function CountAbove(s: seq<real>, thresh: real): (c: nat)
    ensures c <= |s|
  {
    if |s| == 0 then 0
    else CountAbove(s[..|s| - 1], thresh) + (if s[|s| - 1] > thresh then 1 else 0)
  }

  /** What `n_gaps` returns. */
  function GapCount(r: seq<real>, thresh: real): (g: nat)
    ensures g <= |r|
  {
    CountAbove(Diffs(r), thresh)
  }

  /** The pair `mean_sdev_range_diff` returns, with the square root supplied by the caller. */
  function RangeDiffMean(r: seq<real>, thresh: real): real
    requires |r| >= 1
  {
    Mean(ClippedDiffs(r, thresh))
  }

  function RangeDiffSdev(r: seq<real>, thresh: real, sqrt: real -> real): real
    requires |r| >= 1
  {
    sqrt(Radicand(ClippedDiffs(r, thresh)))
  }

  /** `n_gaps`: the wrap pair, then every consecutive pair, each counted when its
      absolute difference exceeds `thresh`. */
  method NGaps(r: seq<real>, thresh: real) returns (nGaps: nat)
    requires |r| >= 1
    ensures nGaps == GapCount(r, thresh)
    ensures nGaps <= |r|
  {
    ghost var d := Diffs(r);
    nGaps := 0;
    if Abs(r[0] - r[|r| - 1]) > thresh {
      nGaps := nGaps + 1;
    }
    assert d[..1] == [d[0]];
    for i := 0 to |r| - 1
      invariant nGaps == CountAbove(d[..i + 1], thresh)
    {
      nGaps := nGaps + (if Abs(r[i + 1] - r[i]) > thresh then 1 else 0);
      assert d[..i + 2][..i + 1] == d[..i + 1];
    }
    assert d[..|r|] == d;
  }

  /** `mean_sdev_range_diff`: builds `lenDiff` by appending, then reports its mean
      and `sqrt(sqSum / n - mean * mean)`. */
  method MeanSdevRangeDiff(r: seq<real>, thresh: real, sqrt: real -> real)
    returns (mean: real, sdev: real)
    requires |r| >= 1
    ensures mean == RangeDiffMean(r, thresh)
    ensures sdev == RangeDiffSdev(r, thresh, sqrt)
  {
    var lenDiff := [Abs(r[0] - r[|r| - 1])];
    for i := 0 to |r| - 1
      invariant |lenDiff| == i + 1
      invariant forall k :: 0 <= k <= i ==> lenDiff[k] == ClippedPairDiff(r, thresh, k)
    {
      lenDiff := lenDiff + [Abs(Min(r[i + 1], thresh) - Min(r[i], thresh))];
    }
    assert lenDiff == ClippedDiffs(r, thresh);
    mean := Mean(lenDiff);
    sdev := sqrt(Radicand(lenDiff));
  }

  lemma {:induction false} CountAboveAntitone(s: seq<real>, t1: real, t2: real)
    requires t1 <= t2
    ensures CountAbove(s, t1) >= CountAbove(s, t2)
  {
    if |s| > 0 {
      CountAboveAntitone(s[..|s| - 1], t1, t2);
    }
  }

  lemma {:induction false} CountAboveAll(s: seq<real>, thresh: real)
    requires forall k :: 0 <= k < |s| ==> s[k] > thresh
    ensures CountAbove(s, thresh) == |s|
  {
    if |s| > 0 {
      CountAboveAll(s[..|s| - 1], thresh);
    }
  }

  lemma {:induction false} CountAboveNone(s: seq<real>, thresh: real)
    requires forall k :: 0 <= k < |s| ==> s[k] <= thresh
    ensures CountAbove(s, thresh) == 0
  {
    if |s| > 0 {
      CountAboveNone(s[..|s| - 1], thresh);
    }
  }

  /** A higher threshold never yields more gaps. */
  lemma GapCountAntitone(r: seq<real>, t1: real, t2: real)
    requires t1 <= t2
    ensures GapCount(r, t1) >= GapCount(r, t2)
  {
    CountAboveAntitone(Diffs(r), t1, t2);
  }

  /** A negative threshold counts every one of the n pairs, the wrap pair included. */
  lemma GapCountNegativeThreshold(r: seq<real>, thresh: real)
    requires thresh < 0.0
    ensures GapCount(r, thresh) == |r|
  {
    CountAboveAll(Diffs(r), thresh);
  }

  /** A flat scan has no gaps at any non-negative threshold. */
  lemma GapCountFlatScan(r: seq<real>, thresh: real)
    requires forall k :: 0 <= k < |r| ==> r[k] == r[0]
    requires thresh >= 0.0
    ensures GapCount(r, thresh) == 0
  {
    CountAboveNone(Diffs(r), thresh);
  }

  /** Two worked scans: a flat one and one that alternates by 10. */
  lemma GapCountExamples()
    ensures GapCount([10.0, 10.0, 10.0, 10.0], 1.0) == 0
    ensures GapCount([10.0, 20.0, 10.0, 20.0], 5.0) == 4
  {
    GapCountFlatScan([10.0, 10.0, 10.0, 10.0], 1.0);
    GapCountAboveAll([10.0, 20.0, 10.0, 20.0], 5.0);
  }

  /** Every pair is counted when every pair differs by more than `thresh`. */
  lemma GapCountAboveAll(r: seq<real>, thresh: real)
    requires forall k :: 1 <= k < |r| ==> Abs(r[k] - r[k - 1]) > thresh
    requires |r| > 0 ==> Abs(r[0] - r[|r| - 1]) > thresh
    ensures GapCount(r, thresh) == |r|
  {
    CountAboveAll(Diffs(r), thresh);
  }

  /** The wrap entry of `lenDiff` is never clipped, whatever the threshold. */
  lemma WrapEntryUnclipped(r: seq<real>, thresh: real)
    requires |r| >= 1
    ensures ClippedDiffs(r, thresh)[0] == Abs(r[0] - r[|r| - 1])
    ensures ClippedDiffs(r, thresh)[0] == Diffs(r)[0]
  {
  }

  /** With non-negative ranges and threshold, every entry after the wrap entry is at most the threshold. */
  lemma ClippedEntriesBounded(r: seq<real>, thresh: real)
    requires forall k :: 0 <= k < |r| ==> r[k] >= 0.0
    requires thresh >= 0.0
    ensures forall k :: 1 <= k < |r| ==> ClippedDiffs(r, thresh)[k] <= thresh
  {
  }

  /** A threshold at or above every range clips nothing. */
  lemma ClippedDiffsNoClip(r: seq<real>, thresh: real)
    requires forall k :: 0 <= k < |r| ==> r[k] <= thresh
    ensures ClippedDiffs(r, thresh) == Diffs(r)
  {
  }

  /** `mean_sdev_range_diff` with any threshold at or above every range returns the
      pair the no-clipping call with `DBL_MAX` returns, and both are the statistics of
      the unclipped differences. */
  lemma NoClipEqualsDblMax(r: seq<real>, thresh: real, sqrt: real -> real)
    requires |r| >= 1
    requires forall k :: 0 <= k < |r| ==> r[k] <= thresh && r[k] <= DblMax
    ensures RangeDiffMean(r, thresh) == RangeDiffMean(r, DblMax) == Mean(Diffs(r))
    ensures RangeDiffSdev(r, thresh, sqrt) == RangeDiffSdev(r, DblMax, sqrt) == sqrt(Radicand(Diffs(r)))
  {
    ClippedDiffsNoClip(r, thresh);
    ClippedDiffsNoClip(r, DblMax);
  }

  /** With threshold 0 (and non-negative ranges) only the unclipped wrap entry survives,
      so the mean is |r[0] - r[n-1]| / n. */
  lemma ZeroThresholdMean(r: seq<real>)
    requires |r| >= 1
    requires forall k :: 0 <= k < |r| ==> r[k] >= 0.0
    ensures RangeDiffMean(r, 0.0) == Abs(r[0] - r[|r| - 1]) / (|r| as real)
  {
    var d := ClippedDiffs(r, 0.0);
    assert forall k :: 1 <= k < |d| ==> d[k] == 0.0 by {
      forall k | 1 <= k < |d|
        ensures d[k] == 0.0
      {
        assert Min(r[k], 0.0) == 0.0 && Min(r[k - 1], 0.0) == 0.0;
      }
    }
    SumZeroTail(d);
  }

  /** Every entry of `lenDiff` is an absolute difference, so the mean is never negative. */
  lemma RangeDiffMeanNonNegative(r: seq<real>, thresh: real)
    requires |r| >= 1
    ensures RangeDiffMean(r, thresh) >= 0.0
  {
    MeanNonNegative(ClippedDiffs(r, thresh));
  }

  /** The value under the square root is never negative in exact arithmetic. */
  lemma RangeDiffRadicandNonNegative(r: seq<real>, thresh: real)
    requires |r| >= 1
    ensures Radicand(ClippedDiffs(r, thresh)) >= 0.0
  {
    RadicandNonNegative(ClippedDiffs(r, thresh));
  }
}
