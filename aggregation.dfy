/**
 * How the segments of a slider under construction are combined into the
 * slider's control points, curve type and distance.
 */
module Aggregation {
  import opened Geometry
  import opened Segments

  /** The curve types a placed slider can be given. */
  datatype CurveType = Linear | Bezier

  /** Every segment's points, segment after segment, each in its own order. */
  function Flatten(segments: seq<seq<Point>>): seq<Point>
    decreases |segments|
  {
    if segments == [] then []
    else Flatten(segments[..|segments| - 1]) + segments[|segments| - 1]
  }

  /** The number of points held by all segments together. */
  function TotalPoints(segments: seq<seq<Point>>): nat
    decreases |segments|
  {
    if segments == [] then 0
    else TotalPoints(segments[..|segments| - 1]) + |segments[|segments| - 1]|
  }

  function Sum(values: seq<real>): real
    decreases |values|
  {
    if values == [] then 0.0
    else Sum(values[..|values| - 1]) + values[|values| - 1]
  }

  /** More than two control points make a Bezier curve; otherwise the curve is linear. */
  function CurveTypeFor(count: int): CurveType
  {
    if count > 2 then Bezier else Linear
  }

  ghost predicate AllNonEmpty(segments: seq<seq<Point>>)
  {
    forall i :: 0 <= i < |segments| ==> |segments[i]| >= 1
  }

  ghost predicate AllNonNegative(values: seq<real>)
  {
    forall i :: 0 <= i < |values| ==> values[i] >= 0.0
  }

  /** Flattening loses and invents no point. */
  lemma {:induction false} FlattenLength(segments: seq<seq<Point>>)
    ensures |Flatten(segments)| == TotalPoints(segments)
  {
    if segments != [] {
      FlattenLength(segments[..|segments| - 1]);
    }
  }

  /** Segments that are never empty hold at least one point each. */
  lemma {:induction false} TotalPointsAtLeastCount(segments: seq<seq<Point>>)
    requires AllNonEmpty(segments)
    ensures TotalPoints(segments) >= |segments|
  {
    if segments != [] {
      TotalPointsAtLeastCount(segments[..|segments| - 1]);
    }
  }

  lemma {:induction false} SumNonNegative(values: seq<real>)
    requires AllNonNegative(values)
    ensures Sum(values) >= 0.0
  {
    if values != [] {
      SumNonNegative(values[..|values| - 1]);
    }
  }

  /** A segment added after the others contributes its points after theirs. */
  lemma FlattenAppend(segments: seq<seq<Point>>, last: seq<Point>)
    ensures Flatten(segments + [last]) == Flatten(segments) + last
    ensures TotalPoints(segments + [last]) == TotalPoints(segments) + |last|
  {
    assert (segments + [last])[..|segments|] == segments;
  }

  /**
   * The curve type follows the same threshold as the choice of approximator:
   * for a list that is not empty, a linear curve is one flattened linearly.
   */
  lemma CurveTypeMatchesApproximator(count: int)
    requires count >= 1
    ensures CurveTypeFor(count) == Linear <==> ChooseApproximator(count) == LinearApproximator
    ensures CurveTypeFor(count) == Bezier <==> ChooseApproximator(count) == BezierApproximator
  {
  }
}
