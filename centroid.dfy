/** The centre of gravity of the polygon vertices, `cog` of place_detector.h. */
module Centroid {
  import opened Sums
  import opened Geometry

  function Xs(pts: seq<Point>): (s: seq<real>)
    ensures |s| == |pts|
  {
    seq(|pts|, k requires 0 <= k < |pts| => pts[k].x)
  }

  function Ys(pts: seq<Point>): (s: seq<real>)
    ensures |s| == |pts|
  {
    seq(|pts|, k requires 0 <= k < |pts| => pts[k].y)
  }

  /** The arithmetic mean of the vertices, coordinate by coordinate. */
  function MeanPoint(pts: seq<Point>): Point
    requires |pts| >= 1
  {
    Point(Mean(Xs(pts)), Mean(Ys(pts)))
  }

  function TranslateAll(pts: seq<Point>, dx: real, dy: real): (moved: seq<Point>)
    ensures |moved| == |pts|
  {
    seq(|pts|, k requires 0 <= k < |pts| => Translate(pts[k], dx, dy))
  }

  /** `cog`: the x accumulator adds n * x[i] and is divided by n * n at the end, the
      y accumulator adds y[i] and is divided by n. Both come out as arithmetic means. */
  method Cog(pts: seq<Point>) returns (c: Point)
    requires |pts| >= 1
    ensures c == MeanPoint(pts)
  {
    var n := |pts| as real;
    ghost var xs, ys := Xs(pts), Ys(pts);
    var cogX, cogY := 0.0, 0.0;
    for i := 0 to |pts|
      invariant cogX == ScaledSum(xs[..i], n)
      invariant cogY == Sum(ys[..i])
    {
      ScaledSumStep(xs, i, n);
      SumStep(ys, i);
      cogX := cogX + n * pts[i].x;
      cogY := cogY + pts[i].y;
    }
    assert xs[..|pts|] == xs && ys[..|pts|] == ys;
    CogScaling(pts, n, cogX, cogY);
    cogX := cogX / (n * n);
    cogY := cogY / n;
    c := Point(cogX, cogY);
  }

  /** Dividing the two accumulated totals by n * n and by n gives the mean point. */
  lemma CogScaling(pts: seq<Point>, n: real, sumX: real, sumY: real)
    requires |pts| >= 1 && n == |pts| as real
    requires sumX == ScaledSum(Xs(pts), n) && sumY == Sum(Ys(pts))
    ensures Point(sumX / (n * n), sumY / n) == MeanPoint(pts)
  {
    ScaledSumIsMean(Xs(pts), n);
  }

  /** Moving every vertex by (dx, dy) moves the centroid by (dx, dy). */
  lemma MeanPointTranslate(pts: seq<Point>, dx: real, dy: real)
    requires |pts| >= 1
    ensures MeanPoint(TranslateAll(pts, dx, dy)) == Translate(MeanPoint(pts), dx, dy)
  {
    var moved := TranslateAll(pts, dx, dy);
    assert Xs(moved) == Shift(Xs(pts), dx);
    assert Ys(moved) == Shift(Ys(pts), dy);
    MeanShift(Xs(pts), dx);
    MeanShift(Ys(pts), dy);
  }

  /** The centroid of copies of one point is that point. */
  lemma MeanPointConstant(pts: seq<Point>, p: Point)
    requires |pts| >= 1
    requires forall k :: 0 <= k < |pts| ==> pts[k] == p
    ensures MeanPoint(pts) == p
  {
    MeanConstant(Xs(pts), p.x);
    MeanConstant(Ys(pts), p.y);
  }
}
