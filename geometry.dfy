/** Cartesian points and the three-point orientation test of place_detector.h. */
module Geometry {

  datatype Point = Point(x: real, y: real)

  function Translate(p: Point, dx: real, dy: real): Point
  {
    Point(p.x + dx, p.y + dy)
  }

  /** The cross product `orientation` evaluates:
      (q.y - p.y) * (r.x - q.x) - (q.x - p.x) * (r.y - q.y). */
  function Cross(p: Point, q: Point, r: Point): real
  {
    (q.y - p.y) * (r.x - q.x) - (q.x - p.x) * (r.y - q.y)
  }

  /** Conversion of a double to `int`, which truncates toward zero. */
  function TruncToInt(v: real): (i: int)
    ensures v >= 0.0 ==> (i as real) <= v < (i as real) + 1.0
    ensures v <= 0.0 ==> (i as real) - 1.0 < v <= (i as real)
  {
    if v >= 0.0 then v.Floor else -((-v).Floor)
  }

  /** 0 when the truncated cross product is zero (collinear), 1 when it is positive
      (clockwise), 2 when it is negative (counter-clockwise). */
  function Orientation(p: Point, q: Point, r: Point): (o: int)
    ensures o == 0 || o == 1 || o == 2
  {
    var val := TruncToInt(Cross(p, q, r));
    if val == 0 then 0 else if val > 0 then 1 else 2
  }

  /** Truncation toward zero commutes with negation. */
  lemma TruncNegate(v: real)
    ensures TruncToInt(-v) == -TruncToInt(v)
  {
  }

  /** Because the product is truncated, the test reports "collinear" exactly when the
      cross product lies strictly between -1 and 1, "clockwise" exactly when it is
      at least 1, and "counter-clockwise" exactly when it is at most -1. */
  lemma OrientationBands(p: Point, q: Point, r: Point)
    ensures Orientation(p, q, r) == 0 <==> -1.0 < Cross(p, q, r) < 1.0
    ensures Orientation(p, q, r) == 1 <==> Cross(p, q, r) >= 1.0
    ensures Orientation(p, q, r) == 2 <==> Cross(p, q, r) <= -1.0
  {
  }

  /** Swapping the outer points negates the cross product. */
  lemma CrossSwap(p: Point, q: Point, r: Point)
    ensures Cross(r, q, p) == -Cross(p, q, r)
  {
  }

  /** Swapping the outer points keeps "collinear" and exchanges the two turn directions. */
  lemma OrientationSwap(p: Point, q: Point, r: Point)
    ensures Orientation(p, q, r) == 0 ==> Orientation(r, q, p) == 0
    ensures Orientation(p, q, r) == 1 ==> Orientation(r, q, p) == 2
    ensures Orientation(p, q, r) == 2 ==> Orientation(r, q, p) == 1
  {
    CrossSwap(p, q, r);
    TruncNegate(Cross(p, q, r));
  }

  lemma CrossTranslate(p: Point, q: Point, r: Point, dx: real, dy: real)
    ensures Cross(Translate(p, dx, dy), Translate(q, dx, dy), Translate(r, dx, dy)) == Cross(p, q, r)
  {
  }

  /** Moving all three points by the same vector does not change the orientation. */
  lemma OrientationTranslate(p: Point, q: Point, r: Point, dx: real, dy: real)
    ensures Orientation(Translate(p, dx, dy), Translate(q, dx, dy), Translate(r, dx, dy)) == Orientation(p, q, r)
  {
    CrossTranslate(p, q, r, dx, dy);
  }

  /** A triple whose last two points coincide is always reported collinear. */
  lemma OrientationRepeatedPoint(p: Point, q: Point)
    ensures Orientation(p, q, q) == 0
  {
    assert Cross(p, q, q) == 0.0;
  }
}
