/** `feature_set_a` of place_detector.h: the range-statistics block of the feature
    vector, assembled by appending in a fixed order. */
module FeatureSet {
  import opened Sums
  import opened RangeStatistics

  /** Threshold grid of the clipped statistics: 0, 5, ..., while below 50. */
  const DelRange: real := 5.0
  const MaxRange: real := 50.0
  /** First gap grid: 0, 0.5, ..., while below 20. */
  const DelGap1: real := 0.5
  const MaxGap1: real := 20.0
  /** Second gap grid: 20, 25, ..., while below 50. */
  const DelGap2: real := 5.0
  const MaxGap2: real := 50.0

  function ClipThreshold(k: nat): real
  {
    k as real * DelRange
  }

  /** Threshold of the j-th gap count: the two gap grids one after the other. */
  function GapThreshold(j: nat): real
  {
    if j < 40 then j as real * DelGap1 else MaxGap1 + (j - 40) as real * DelGap2
  }

  /** The two entries `mean_sdev_range_diff(r, thresh)` contributes. */
  function ClipStats(r: seq<real>, thresh: real, sqrt: real -> real): seq<real>
    requires |r| >= 1
  {
    [RangeDiffMean(r, thresh), RangeDiffSdev(r, thresh, sqrt)]
  }

  /** Statistics for the first k thresholds of the clipped grid, in order. */
  function ClipBlock(r: seq<real>, k: nat, sqrt: real -> real): seq<real>
    requires |r| >= 1
  {
    if k == 0 then [] else ClipBlock(r, k - 1, sqrt) + ClipStats(r, ClipThreshold(k - 1), sqrt)
  }

  /** The j-th point `first + j * step` of a threshold grid. */
  function GridPoint(first: real, step: real, j: nat): real
  {
    first + j as real * step
  }

  /** Gap counts for the first k points of the grid `first`, `first + step`, ..., in order. */
  function GapBlock(r: seq<real>, first: real, step: real, k: nat): seq<real>
  {
    if k == 0 then [] else GapBlock(r, first, step, k - 1) + [GapCount(r, GridPoint(first, step, k - 1)) as real]
  }

  /** Entries 0..23: the no-clip statistics, the clipped statistics, the raw mean and spread. */
  function StatsPart(r: seq<real>, sqrt: real -> real): seq<real>
    requires |r| >= 1
  {
    ClipStats(r, DblMax, sqrt) + ClipBlock(r, 10, sqrt) + [Mean(r), sqrt(Radicand(r))]
  }

  /** Entries 24..69: the gap counts of both grids. */
  function GapPart(r: seq<real>): seq<real>
  {
    GapBlock(r, 0.0, DelGap1, 40) + GapBlock(r, MaxGap1, DelGap2, 6)
  }

  /** The vector `feature_set_a` returns. */
  function FeatureVector(r: seq<real>, sqrt: real -> real): seq<real>
    requires |r| >= 1
  {
    StatsPart(r, sqrt) + GapPart(r)
  }

  /** The first stepped loop: appends `mean_sdev_range_diff` at thresholds 0, 5, ...
      while the threshold is below 50. */
  method AppendClippedStats(r: seq<real>, sqrt: real -> real, featureVec: seq<real>) returns (out: seq<real>)
    requires |r| >= 1
    ensures out == featureVec + ClipBlock(r, 10, sqrt)
  {
    out := featureVec;
    var k := 0;
    while k as real * DelRange < MaxRange
      invariant 0 <= k <= 10
      invariant out == featureVec + ClipBlock(r, k, sqrt)
      decreases 10 - k
    {
      var mean, sdev := MeanSdevRangeDiff(r, ClipThreshold(k), sqrt);
      assert out + [mean, sdev] == featureVec + ClipBlock(r, k + 1, sqrt) by {
        assert ClipStats(r, ClipThreshold(k), sqrt) == [mean, sdev];
        AppendAssociates(featureVec, ClipBlock(r, k, sqrt), [mean, sdev]);
      }
      out := out + [mean, sdev];
      k := k + 1;
    }
  }

  /** The second stepped loop: appends `n_gaps` at thresholds 0, 0.5, ... while the
      threshold is below 20. */
  method AppendFineGaps(r: seq<real>, featureVec: seq<real>) returns (out: seq<real>)
    requires |r| >= 1
    ensures out == featureVec + GapBlock(r, 0.0, DelGap1, 40)
  {
    out := featureVec;
    var k := 0;
    while k as real * DelGap1 < MaxGap1
      invariant 0 <= k <= 40
      invariant out == featureVec + GapBlock(r, 0.0, DelGap1, k)
      decreases 40 - k
    {
      var nGaps := NGaps(r, k as real * DelGap1);
      assert out + [nGaps as real] == featureVec + GapBlock(r, 0.0, DelGap1, k + 1) by {
        AppendAssociates(featureVec, GapBlock(r, 0.0, DelGap1, k), [nGaps as real]);
      }
      out := out + [nGaps as real];
      k := k + 1;
    }
  }

  /** The third stepped loop: appends `n_gaps` at thresholds 20, 25, ... while the
      threshold is below 50. */
  method AppendCoarseGaps(r: seq<real>, featureVec: seq<real>) returns (out: seq<real>)
    requires |r| >= 1
    ensures out == featureVec + GapBlock(r, MaxGap1, DelGap2, 6)
  {
    out := featureVec;
    var k := 0;
    while MaxGap1 + k as real * DelGap2 < MaxGap2
      invariant 0 <= k <= 6
      invariant out == featureVec + GapBlock(r, MaxGap1, DelGap2, k)
      decreases 6 - k
    {
      var nGaps := NGaps(r, MaxGap1 + k as real * DelGap2);
      assert out + [nGaps as real] == featureVec + GapBlock(r, MaxGap1, DelGap2, k + 1) by {
        AppendAssociates(featureVec, GapBlock(r, MaxGap1, DelGap2, k), [nGaps as real]);
      }
      out := out + [nGaps as real];
      k := k + 1;
    }
  }

  /** `feature_set_a`. Each stepped `double` loop counter is an integer count `k` with
      threshold `k * step`; the loop conditions are the source's. The raw sdev uses the
      mean just pushed, and the vector is returned. */
  method FeatureSetA(r: seq<real>, sqrt: real -> real) returns (featureVec: seq<real>)
    requires |r| >= 1
    ensures featureVec == FeatureVector(r, sqrt)
    ensures |featureVec| == 70
  {
    var mean, sdev := MeanSdevRangeDiff(r, DblMax, sqrt);
    featureVec := [mean, sdev];
    featureVec := AppendClippedStats(r, sqrt, featureVec);
    var rawMean := Mean(r);
    featureVec := featureVec + [rawMean];
    var rawSdev := sqrt(Radicand(r));
    featureVec := featureVec + [rawSdev];
    assert featureVec == StatsPart(r, sqrt) by {
      AppendAssociates(ClipStats(r, DblMax, sqrt) + ClipBlock(r, 10, sqrt), [rawMean], [rawSdev]);
    }
    ghost var stats := featureVec;
    featureVec := AppendFineGaps(r, featureVec);
    featureVec := AppendCoarseGaps(r, featureVec);
    assert featureVec == FeatureVector(r, sqrt) by {
      AppendAssociates(stats, GapBlock(r, 0.0, DelGap1, 40), GapBlock(r, MaxGap1, DelGap2, 6));
    }
    assert |FeatureVector(r, sqrt)| == 70 by {
      FeatureVectorLayout(r, sqrt);
    }
  }

  lemma AppendAssociates(a: seq<real>, b: seq<real>, c: seq<real>)
    ensures (a + b) + c == a + (b + c)
  {
  }

  lemma {:induction false} ClipBlockAt(r: seq<real>, k: nat, sqrt: real -> real)
    requires |r| >= 1
    ensures |ClipBlock(r, k, sqrt)| == 2 * k
    ensures forall j :: 0 <= j < k ==>
      ClipBlock(r, k, sqrt)[2 * j] == ClipStats(r, ClipThreshold(j), sqrt)[0] &&
      ClipBlock(r, k, sqrt)[2 * j + 1] == ClipStats(r, ClipThreshold(j), sqrt)[1]
  {
    if k > 0 {
      ClipBlockAt(r, k - 1, sqrt);
      var prev := ClipBlock(r, k - 1, sqrt);
      var block := ClipBlock(r, k, sqrt);
      assert block == prev + ClipStats(r, ClipThreshold(k - 1), sqrt);
      forall j | 0 <= j < k
        ensures block[2 * j] == ClipStats(r, ClipThreshold(j), sqrt)[0]
        ensures block[2 * j + 1] == ClipStats(r, ClipThreshold(j), sqrt)[1]
      {
        if j < k - 1 {
          assert block[2 * j] == prev[2 * j] && block[2 * j + 1] == prev[2 * j + 1];
        } else {
          assert j == k - 1;
        }
      }
    }
  }

  lemma {:induction false} GapBlockAt(r: seq<real>, first: real, step: real, k: nat)
    ensures |GapBlock(r, first, step, k)| == k
    ensures forall j :: 0 <= j < k ==>
      GapBlock(r, first, step, k)[j] == GapCount(r, GridPoint(first, step, j)) as real
  {
    if k > 0 {
      GapBlockAt(r, first, step, k - 1);
      var prev := GapBlock(r, first, step, k - 1);
      var block := GapBlock(r, first, step, k);
      assert block == prev + [GapCount(r, GridPoint(first, step, k - 1)) as real];
      forall j | 0 <= j < k
        ensures block[j] == GapCount(r, GridPoint(first, step, j)) as real
      {
        if j < k - 1 {
          assert block[j] == prev[j];
        } else {
          assert j == k - 1;
        }
      }
    }
  }

  /** Entries 0..23 of the vector. */
  lemma StatsPartLayout(r: seq<real>, sqrt: real -> real)
    requires |r| >= 1
    ensures |StatsPart(r, sqrt)| == 24
    ensures StatsPart(r, sqrt)[0] == RangeDiffMean(r, DblMax)
    ensures StatsPart(r, sqrt)[1] == RangeDiffSdev(r, DblMax, sqrt)
    ensures forall k :: 0 <= k < 10 ==>
      StatsPart(r, sqrt)[2 + 2 * k] == RangeDiffMean(r, ClipThreshold(k)) &&
      StatsPart(r, sqrt)[3 + 2 * k] == RangeDiffSdev(r, ClipThreshold(k), sqrt)
    ensures StatsPart(r, sqrt)[22] == Mean(r)
    ensures StatsPart(r, sqrt)[23] == sqrt(Radicand(r))
  {
    ClipBlockAt(r, 10, sqrt);
    var b := ClipBlock(r, 10, sqrt);
    var s := StatsPart(r, sqrt);
    assert s == ClipStats(r, DblMax, sqrt) + b + [Mean(r), sqrt(Radicand(r))];
    forall k | 0 <= k < 10
      ensures s[2 + 2 * k] == b[2 * k] && s[3 + 2 * k] == b[2 * k + 1]
    {
    }
  }

  /** Entries 24..69 of the vector: entry 24 + j is the gap count at `GapThreshold(j)`. */
  lemma GapPartLayout(r: seq<real>)
    ensures |GapPart(r)| == 46
    ensures forall j :: 0 <= j < 46 ==> GapPart(r)[j] == GapCount(r, GapThreshold(j)) as real
  {
    GapBlockAt(r, 0.0, DelGap1, 40);
    GapBlockAt(r, MaxGap1, DelGap2, 6);
    var fine := GapBlock(r, 0.0, DelGap1, 40);
    var coarse := GapBlock(r, MaxGap1, DelGap2, 6);
    forall j | 0 <= j < 46
      ensures GapPart(r)[j] == GapCount(r, GapThreshold(j)) as real
    {
      if j < 40 {
        assert GapPart(r)[j] == fine[j];
        assert 0.0 + j as real * DelGap1 == GapThreshold(j);
      } else {
        assert GapPart(r)[j] == coarse[j - 40];
      }
    }
  }

  /** Where each statistic sits in the 70-entry vector. */
  lemma FeatureVectorLayout(r: seq<real>, sqrt: real -> real)
    requires |r| >= 1
    ensures |FeatureVector(r, sqrt)| == 70
    ensures FeatureVector(r, sqrt)[0] == RangeDiffMean(r, DblMax)
    ensures FeatureVector(r, sqrt)[1] == RangeDiffSdev(r, DblMax, sqrt)
    ensures forall k :: 0 <= k < 10 ==>
      FeatureVector(r, sqrt)[2 + 2 * k] == RangeDiffMean(r, ClipThreshold(k)) &&
      FeatureVector(r, sqrt)[3 + 2 * k] == RangeDiffSdev(r, ClipThreshold(k), sqrt)
    ensures FeatureVector(r, sqrt)[22] == Mean(r)
    ensures FeatureVector(r, sqrt)[23] == sqrt(Radicand(r))
    ensures forall j :: 0 <= j < 46 ==> FeatureVector(r, sqrt)[24 + j] == GapCount(r, GapThreshold(j)) as real
  {
    StatsPartLayout(r, sqrt);
    GapPartLayout(r);
  }

  /** The thresholds rise along the gap entries and across the two grids. */
  lemma GapThresholdMonotone(a: nat, b: nat)
    requires a <= b < 46
    ensures GapThreshold(a) <= GapThreshold(b)
  {
  }

  /** The 46 gap counts (entries 24..69) never increase along the vector. */
  lemma GapEntriesNonIncreasing(r: seq<real>, sqrt: real -> real)
    requires |r| >= 1
    ensures |FeatureVector(r, sqrt)| == 70
    ensures forall a, b :: 24 <= a <= b < 70 ==> FeatureVector(r, sqrt)[a] >= FeatureVector(r, sqrt)[b]
  {
    FeatureVectorLayout(r, sqrt);
    forall a, b | 24 <= a <= b < 70
      ensures FeatureVector(r, sqrt)[a] >= FeatureVector(r, sqrt)[b]
    {
      GapThresholdMonotone(a - 24, b - 24);
      GapCountAntitone(r, GapThreshold(a - 24), GapThreshold(b - 24));
      assert FeatureVector(r, sqrt)[24 + (a - 24)] == GapCount(r, GapThreshold(a - 24)) as real;
      assert FeatureVector(r, sqrt)[24 + (b - 24)] == GapCount(r, GapThreshold(b - 24)) as real;
    }
  }
}
