/**
 * The placement mask of the osu! editor that builds a slider from pointer
 * events: the object whose handlers grow the segments in place and whose
 * per-frame update writes the path to the slider. Every handler is proved
 * to do what the matching function of `Placement` says.
 */
module PlacementMask {
  import opened Geometry
  import opened Segments
  import opened Aggregation
  import opened Placement

  /** The slider being placed; it belongs to the editor, the mask only writes to it. */
  class Slider {
    var position: Point
    var startTime: real
    var controlPoints: seq<Point>
    var curveType: CurveType
    var distance: real

    constructor ()
      ensures Fields() == DefaultSlider
    {
      position := Origin;
      startTime := 0.0;
      controlPoints := [];
      curveType := Linear;
      distance := 0.0;
    }

    function Fields(): Output
      reads this
    {
      Output(position, startTime, controlPoints, curveType, distance)
    }
  }

  /** The control points of each segment, in order. */
  function PointsOf(segments: seq<Segment>): seq<seq<Point>>
    reads segments
  {
    seq(|segments|, i requires 0 <= i < |segments| reads segments => segments[i].controlPoints)
  }

  /** The distance of each segment, in order. */
  function DistancesOf(segments: seq<Segment>): seq<real>
    reads segments
  {
    seq(|segments|, i requires 0 <= i < |segments| reads segments => segments[i].distance)
  }

  class SliderPlacementMask {
    const hitObject: Slider
    var segments: seq<Segment>
    /** The pointer's offset from the slider's position, the path's live last point. */
    var cursor: Point
    var state: PlacementState
    /** How often the host's `BeginPlacement` and `EndPlacement` hooks were called. */
    ghost var beginPlacements: nat
    ghost var endPlacements: nat
    /** How many control-point markers `controlPointContainer` holds; the drawing itself is not modelled. */
    var markers: nat

    /** The mask's state as a value. */
    ghost function Model(): Session
      reads this, hitObject, segments
    {
      Session(PointsOf(segments), DistancesOf(segments), cursor, state, hitObject.Fields(),
              beginPlacements, endPlacements, markers)
    }

    /**
     * Distinct segment objects, and a well-formed model in which the curve
     * was begun at most once and markers exist exactly once it was begun.
     */
    ghost predicate Valid()
      reads this, hitObject, segments
    {
      && (forall i, j :: 0 <= i < j < |segments| ==> segments[i] != segments[j])
      && WellFormed(Model())
      && BeganOnce(Model())
      && MarkersDrawn(Model())
    }

    /** A new mask: one segment at the origin, state `Initial`, a new slider. */
    constructor ()
      ensures Valid()
      ensures Model() == NewSession()
      ensures fresh(hitObject)
      ensures forall i :: 0 <= i < |segments| ==> fresh(segments[i])
    {
      hitObject := new Slider();
      var first := new Segment(Origin);
      segments := [first];
      cursor := Origin;
      state := Initial;
      beginPlacements, endPlacements := 0, 0;
      markers := 0;
      new;
      assert PointsOf(segments) == [[Origin]];
    }

    method OnMouseMove(mousePosition: Point) returns (handled: bool)
      requires Valid()
      modifies this, hitObject
      ensures Valid() && segments == old(segments)
      ensures Model() == MouseMoved(old(Model()), mousePosition)
      ensures handled
    {
      handled := true;
      match state
      case Initial =>
        hitObject.position := mousePosition;
      case Body =>
        cursor := Sub(mousePosition, hitObject.position);
        // the marker whose next point follows the pointer exists
        assert markers >= 1;
    }

    method OnClick(button: MouseButton, clockTime: real) returns (handled: bool)
      requires Valid()
      modifies this, hitObject, segments[|segments| - 1]
      ensures Valid() && segments == old(segments)
      ensures Model() == Clicked(old(Model()), button, clockTime)
      ensures handled
    {
      handled := true;
      match state {
        case Initial =>
          BeginCurve(clockTime);
        case Body =>
          if button == Left {
            var last := segments[|segments| - 1];
            last.controlPoints := last.controlPoints + [cursor];
            assert PointsOf(segments) == AppendToLast(old(PointsOf(segments)), cursor);
          }
      }
      // every click draws a marker; that leaves the segments as they are
      ghost var points := PointsOf(segments);
      markers := markers + 1;
      assert PointsOf(segments) == points;
    }

    /** Right-button release in `Body` ends the curve; every other release is ignored. */
    method OnMouseUp(button: MouseButton)
      requires Valid()
      modifies this, hitObject
      ensures Valid() && segments == old(segments)
      ensures Model() == MouseReleased(old(Model()), button)
    {
      if state == Body && button == Right {
        EndCurve();
      }
    }

    /**
     * Adds a segment at the last point, then marks the last marker as a
     * separator: with no marker yet, that throws, and the segment stays added.
     */
    method OnDoubleClick() returns (result: HandlerResult)
      requires Valid()
      modifies this
      ensures Valid()
      ensures |segments| == |old(segments)| + 1 && segments[..|old(segments)|] == old(segments)
      ensures fresh(segments[|segments| - 1])
      ensures Model() == DoubleClicked(old(Model()))
      ensures result == DoubleClickResult(old(Model()))
    {
      var previous := segments[|segments| - 1];
      assert PointsOf(segments)[|segments| - 1] == previous.controlPoints;
      var next := new Segment(previous.controlPoints[|previous.controlPoints| - 1]);
      segments := segments + [next];
      if markers == 0 {
        result := Threw;
      } else {
        result := Returned(true);
      }
      assert PointsOf(segments) == old(PointsOf(segments)) + [next.controlPoints];
      assert DistancesOf(segments) == old(DistancesOf(segments)) + [0.0];
    }

    /** Called by `OnClick` before it adds the click's marker, so the mask is valid again only after that. */
    method BeginCurve(clockTime: real)
      requires Valid() && state == Initial
      modifies this, hitObject
      ensures segments == old(segments)
      ensures Model() == CurveBegun(old(Model()), clockTime)
    {
      beginPlacements := beginPlacements + 1;
      hitObject.startTime := clockTime;
      state := Body;
    }

    /** Writes the path from the segments' current points and distances, then tells the host. */
    method EndCurve()
      requires Valid()
      modifies this, hitObject
      ensures Valid() && segments == old(segments)
      ensures Model() == CurveEnded(old(Model()))
    {
      WritePath();
      endPlacements := endPlacements + 1;
    }

    /** One frame: recalculate every segment, the last with the cursor, then write the path. */
    method Update(approximate: Approximate, metric: Metric)
      requires Valid()
      modifies segments, hitObject
      ensures Valid()
      ensures Model() == Updated(old(Model()), approximate, metric)
    {
      var i := 0;
      while i < |segments|
        invariant 0 <= i <= |segments|
        invariant forall j :: 0 <= j < |segments| ==> segments[j].controlPoints == old(segments[j].controlPoints)
        invariant forall j :: 0 <= j < i ==>
          segments[j].distance == SegmentLength(approximate, metric, segments[j].controlPoints, CursorFor(|segments|, j, cursor))
        invariant forall j :: i <= j < |segments| ==> segments[j].distance == old(segments[j].distance)
        invariant hitObject.Fields() == old(hitObject.Fields())
      {
        var _ := segments[i].Calculate(approximate, metric, if i == |segments| - 1 then Some(cursor) else None);
        i := i + 1;
      }
      assert PointsOf(segments) == old(PointsOf(segments));
      assert DistancesOf(segments) == SegmentDistances(approximate, metric, PointsOf(segments), cursor);
      WritePath();
    }

    /** The aggregation shared by `Update` and `EndCurve`. */
    method WritePath()
      requires Valid()
      modifies hitObject
      ensures Valid()
      ensures hitObject.Fields() == WithPath(old(hitObject.Fields()), PointsOf(segments), DistancesOf(segments), cursor)
    {
      hitObject.controlPoints := Flatten(PointsOf(segments)) + [cursor];
      hitObject.curveType := CurveTypeFor(|hitObject.controlPoints|);
      hitObject.distance := Sum(DistancesOf(segments));
    }
  }
}
