/**
 * One piece of a slider path under construction: an ordered, growable list
 * of control points, flattened on demand by an approximator chosen by the
 * number of points.
 */
module Segments {
  import opened Geometry

  /** A value that may be absent (the source's nullable `Vector2?`). */
  datatype Option<T> = None | Some(value: T)

  /** The two flattening algorithms a segment can delegate to. */
  datatype ApproximatorKind = LinearApproximator | BezierApproximator

  /**
   * Flattening of a list of control points into a polyline by the named
   * algorithm. Both algorithms are parameters of the model.
   */
  type Approximate = (ApproximatorKind, seq<Point>) -> seq<Point>

  /** The points a segment flattens: its own, then the cursor if one is given. */
  function WorkingList(controlPoints: seq<Point>, cursor: Option<Point>): seq<Point>
  {
    match cursor
    case Some(c) => controlPoints + [c]
    case None => controlPoints
  }

  /** One or two points are joined by straight lines; any other count is a Bezier curve. */
  function ChooseApproximator(count: int): ApproximatorKind
  {
    if count == 1 || count == 2 then LinearApproximator else BezierApproximator
  }

  /** The polyline a segment produces for the given cursor. */
  function Approximation(approximate: Approximate, controlPoints: seq<Point>, cursor: Option<Point>): seq<Point>
  {
    var working := WorkingList(controlPoints, cursor);
    approximate(ChooseApproximator(|working|), working)
  }

  /** The distance a segment records for the given cursor. */
  function SegmentLength(approximate: Approximate, metric: Metric, controlPoints: seq<Point>, cursor: Option<Point>): real
  {
    PolylineLength(metric, Approximation(approximate, controlPoints, cursor))
  }

  /**
   * The working list keeps the stored points as its prefix and adds exactly
   * the cursor; a non-empty segment is flattened linearly when that list has
   * one or two points and as a Bezier curve when it has three or more.
   */
  lemma ApproximatorByCount(controlPoints: seq<Point>, cursor: Option<Point>)
    requires |controlPoints| >= 1
    ensures var working := WorkingList(controlPoints, cursor);
      && working[..|controlPoints|] == controlPoints
      && |working| == |controlPoints| + (if cursor.Some? then 1 else 0)
      && (cursor.Some? ==> working[|controlPoints|] == cursor.value)
      && (ChooseApproximator(|working|) == LinearApproximator <==> |working| <= 2)
      && (ChooseApproximator(|working|) == BezierApproximator <==> |working| >= 3)
  {
  }

  /** A recorded distance is never negative, and is zero for a polyline of fewer than two points. */
  lemma SegmentLengthNonNegative(approximate: Approximate, metric: Metric, controlPoints: seq<Point>, cursor: Option<Point>)
    requires NonNegative(metric)
    ensures SegmentLength(approximate, metric, controlPoints, cursor) >= 0.0
    ensures |Approximation(approximate, controlPoints, cursor)| < 2 ==> SegmentLength(approximate, metric, controlPoints, cursor) == 0.0
  {
    PolylineLengthNonNegative(metric, Approximation(approximate, controlPoints, cursor));
  }

  /** The linear approximator returns one or two points as they are. */
  ghost predicate LinearIsIdentity(approximate: Approximate)
  {
    forall pts :: |pts| <= 2 ==> approximate(LinearApproximator, pts) == pts
  }

  /**
   * A segment of one point followed by the cursor is the straight line to
   * the cursor, as long as the metric says, when the linear approximator
   * keeps its input.
   */
  lemma StraightSegmentLength(approximate: Approximate, metric: Metric, start: Point, cursor: Point)
    requires LinearIsIdentity(approximate)
    ensures Approximation(approximate, [start], Some(cursor)) == [start, cursor]
    ensures SegmentLength(approximate, metric, [start], Some(cursor)) == metric(start, cursor)
  {
    var working := WorkingList([start], Some(cursor));
    assert working == [start, cursor] && |working| == 2;
    assert approximate(LinearApproximator, working) == working;
    assert [start, cursor][..1] == [start];
    assert PolylineLength(metric, [start, cursor]) == PolylineLength(metric, [start]) + metric(start, cursor);
  }

  class Segment {
    /** The length of the polyline of the most recent `Calculate`. */
    var distance: real
    /** The committed control points, in placement order. */
    var controlPoints: seq<Point>

    /** A segment starts with the single point it continues from. */
    constructor (offset: Point)
      ensures controlPoints == [offset]
      ensures distance == 0.0
    {
      controlPoints := [offset];
      distance := 0.0;
    }

    /**
     * Flattens the stored points, followed by `cursor` when given, and
     * recomputes `distance` from scratch as the length of the result. The
     * stored points are left as they are.
     */
    method Calculate(approximate: Approximate, metric: Metric, cursor: Option<Point>) returns (points: seq<Point>)
      modifies this`distance
      ensures controlPoints == old(controlPoints)
      ensures points == Approximation(approximate, controlPoints, cursor)
      ensures distance == PolylineLength(metric, points)
      ensures distance == SegmentLength(approximate, metric, controlPoints, cursor)
    {
      var allControlPoints := controlPoints;
      if cursor.Some? {
        allControlPoints := allControlPoints + [cursor.value];
      }
      var approximator := ChooseApproximator(|allControlPoints|);

      distance := 0.0;

      points := approximate(approximator, allControlPoints);
      var i := 0;
      while i < |points| - 1
        invariant 0 <= i && (|points| > 0 ==> i < |points|)
        invariant |points| == 0 ==> distance == 0.0
        invariant |points| > 0 ==> distance == PolylineLength(metric, points[..i + 1])
      {
        assert points[..i + 2][..i + 1] == points[..i + 1];
        distance := distance + metric(points[i], points[i + 1]);
        i := i + 1;
      }
      assert |points| > 0 ==> points[..i + 1] == points;
    }
  }
}
