/**
 * Points of the editor's play field and the length of a polyline through them.
 */
module Geometry {

  /** A position in editor-local space. Integer coordinates make offsets exact. */
  datatype Point = Point(x: int, y: int)

  /** The zero vector: the first control point of a slider, relative to its position. */
  const Origin: Point := Point(0, 0)

  /** Vector sum. */
  function Add(a: Point, b: Point): Point
  {
    Point(a.x + b.x, a.y + b.y)
  }

  /** Vector difference `a - b`: the offset that leads from `b` to `a`. */
  function Sub(a: Point, b: Point): (r: Point)
    ensures Add(b, r) == a
    ensures r == Origin <==> a == b
  {
    Point(a.x - b.x, a.y - b.y)
  }

  /**
   * The distance between two points. It is a parameter of the model: the
   * source takes a single-precision Euclidean square root.
   */
  type Metric = (Point, Point) -> real

  ghost predicate NonNegative(metric: Metric)
  {
    forall p, q :: metric(p, q) >= 0.0
  }

  /** A metric that is zero exactly between equal points. */
  ghost predicate Separating(metric: Metric)
  {
    forall p, q :: metric(p, q) == 0.0 <==> p == q
  }

  /** The sum of the distances between consecutive points of `pts`. */
  function PolylineLength(metric: Metric, pts: seq<Point>): real
    decreases |pts|
  {
    if |pts| < 2 then 0.0
    else PolylineLength(metric, pts[..|pts| - 1]) + metric(pts[|pts| - 2], pts[|pts| - 1])
  }

  /** A polyline has a non-negative length, and none at all below two points. */
  lemma {:induction false} PolylineLengthNonNegative(metric: Metric, pts: seq<Point>)
    requires NonNegative(metric)
    ensures PolylineLength(metric, pts) >= 0.0
    ensures |pts| < 2 ==> PolylineLength(metric, pts) == 0.0
  {
    if |pts| >= 2 {
      PolylineLengthNonNegative(metric, pts[..|pts| - 1]);
    }
  }

  /**
   * Under a non-negative metric that separates points, a polyline has length
   * zero exactly when all of its points coincide.
   */
  lemma {:induction false} PolylineLengthZeroIff(metric: Metric, pts: seq<Point>)
    requires NonNegative(metric) && Separating(metric)
    ensures PolylineLength(metric, pts) == 0.0 <==> forall i :: 0 <= i < |pts| ==> pts[i] == pts[0]
  {
    if |pts| >= 2 {
      var init := pts[..|pts| - 1];
      PolylineLengthZeroIff(metric, init);
      PolylineLengthNonNegative(metric, init);
      var a, b := pts[|pts| - 2], pts[|pts| - 1];
      assert metric(a, b) >= 0.0;
      if PolylineLength(metric, pts) == 0.0 {
        assert PolylineLength(metric, init) == 0.0 && metric(a, b) == 0.0;
        forall i | 0 <= i < |pts| ensures pts[i] == pts[0] {
          if i < |pts| - 1 {
            assert init[i] == init[0];
          } else {
            assert init[|pts| - 2] == init[0];
          }
        }
      }
      if forall i :: 0 <= i < |pts| ==> pts[i] == pts[0] {
        assert forall i :: 0 <= i < |init| ==> init[i] == init[0];
        assert a == pts[0] && b == pts[0];
      }
    }
  }
}
