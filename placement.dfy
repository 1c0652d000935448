/**
 * The placement of a slider as a state machine over values: the session's
 * state after each pointer event and after each frame's recomputation.
 * The class in slider_placement_mask.dfy is proved to follow these
 * functions step by step.
 */
module Placement {
  import opened Geometry
  import opened Segments
  import opened Aggregation

  /** `Initial`: only the slider's position follows the pointer. `Body`: the curve is being drawn. */
  datatype PlacementState = Initial | Body

  datatype MouseButton = Left | Middle | Right | Other

  /** The fields of the slider being placed that the placement writes. */
  datatype Output = Output(position: Point, startTime: real, controlPoints: seq<Point>, curveType: CurveType, distance: real)

  /** The fields of a newly created slider. */
  const DefaultSlider: Output := Output(Origin, 0.0, [], Linear, 0.0)

  /**
   * Everything the placement keeps: each segment's control points and
   * distance, the cursor (relative to the slider's position), the state, the
   * slider's fields, how often the host's begin and end hooks were called,
   * and how many control-point markers `controlPointContainer` holds.
   */
  datatype Session = Session(
    points: seq<seq<Point>>,
    distances: seq<real>,
    cursor: Point,
    state: PlacementState,
    slider: Output,
    beginPlacements: nat,
    endPlacements: nat,
    markers: nat)

  /** At least one segment, none of them empty, one distance per segment. */
  ghost predicate WellFormed(s: Session)
  {
    && |s.points| >= 1
    && AllNonEmpty(s.points)
    && |s.distances| == |s.points|
  }

  /** The host was told the placement began exactly when the curve is being drawn. */
  ghost predicate BeganOnce(s: Session)
  {
    s.beginPlacements == if s.state == Body then 1 else 0
  }

  /**
   * `controlPointContainer` gains a marker on every click, and the first
   * click leaves `Initial`: it is empty exactly while the state is `Initial`.
   */
  ghost predicate MarkersDrawn(s: Session)
  {
    s.markers == 0 <==> s.state == Initial
  }

  /** The last control point of the last segment. */
  function LastPoint(s: Session): Point
    requires WellFormed(s)
  {
    var last := s.points[|s.points| - 1];
    last[|last| - 1]
  }

  /** A new placement: one segment holding only the origin, in state `Initial`. */
  function NewSession(): (r: Session)
    ensures r.points == [[Origin]] && r.state == Initial
    ensures WellFormed(r) && BeganOnce(r) && MarkersDrawn(r)
  {
    Session([[Origin]], [0.0], Origin, Initial, DefaultSlider, 0, 0, 0)
  }

  /** Pointer moved to `position` (in the editor's coordinates). */
  function MouseMoved(s: Session, position: Point): Session
  {
    match s.state
    case Initial => s.(slider := s.slider.(position := position))
    case Body => s.(cursor := Sub(position, s.slider.position))
  }

  /** The curve begins: start time from the editor clock, state `Body`. */
  function CurveBegun(s: Session, clockTime: real): Session
  {
    s.(slider := s.slider.(startTime := clockTime), state := Body, beginPlacements := s.beginPlacements + 1)
  }

  /** `segments` with `p` added to the end of the last one. */
  function AppendToLast(segments: seq<seq<Point>>, p: Point): seq<seq<Point>>
    requires |segments| >= 1
  {
    segments[..|segments| - 1] + [segments[|segments| - 1] + [p]]
  }

  /** A click with `button` while the editor clock reads `clockTime`; every click adds a marker. */
  function Clicked(s: Session, button: MouseButton, clockTime: real): Session
    requires WellFormed(s)
  {
    var t := match s.state
      case Initial => CurveBegun(s, clockTime)
      case Body =>
        if button == Left then s.(points := AppendToLast(s.points, s.cursor)) else s;
    t.(markers := s.markers + 1)
  }

  /**
   * The slider's control points, curve type and distance as aggregated from
   * the segments' points and distances and the cursor.
   */
  function WithPath(slider: Output, points: seq<seq<Point>>, distances: seq<real>, cursor: Point): Output
  {
    var controlPoints := Flatten(points) + [cursor];
    slider.(controlPoints := controlPoints, curveType := CurveTypeFor(|controlPoints|), distance := Sum(distances))
  }

  /** The curve is finalised: the path is written to the slider and the host is told. */
  function CurveEnded(s: Session): Session
  {
    s.(slider := WithPath(s.slider, s.points, s.distances, s.cursor), endPlacements := s.endPlacements + 1)
  }

  /** A mouse button released. */
  function MouseReleased(s: Session, button: MouseButton): Session
  {
    if s.state == Body && button == Right then CurveEnded(s) else s
  }

  /** A double click starts a segment at the last point of the last one, in either state. */
  function DoubleClicked(s: Session): Session
    requires WellFormed(s)
  {
    s.(points := s.points + [[LastPoint(s)]], distances := s.distances + [0.0])
  }

  /** How a handler ends: it returns whether it handled the event, or it throws. */
  datatype HandlerResult = Returned(handled: bool) | Threw

  /**
   * After adding the segment, a double click marks the last marker of
   * `controlPointContainer` as a separator, which throws when there is none.
   */
  function DoubleClickResult(s: Session): HandlerResult
  {
    if s.markers == 0 then Threw else Returned(true)
  }

  /** Only the last of `count` segments is given the cursor. */
  function CursorFor(count: int, i: int, cursor: Point): Option<Point>
  {
    if i == count - 1 then Some(cursor) else None
  }

  /** Every segment's distance, recomputed with the cursor given to the last. */
  function SegmentDistances(approximate: Approximate, metric: Metric, points: seq<seq<Point>>, cursor: Point): (r: seq<real>)
    ensures |r| == |points|
  {
    seq(|points|, i requires 0 <= i < |points| =>
      SegmentLength(approximate, metric, points[i], CursorFor(|points|, i, cursor)))
  }

  /** One frame: every segment is recalculated, then the path is written to the slider. */
  function Updated(s: Session, approximate: Approximate, metric: Metric): Session
  {
    var distances := SegmentDistances(approximate, metric, s.points, s.cursor);
    s.(distances := distances, slider := WithPath(s.slider, s.points, distances, s.cursor))
  }

  /** What can happen to a placement: the four pointer events and a frame. */
  datatype Event =
    | MouseMove(position: Point)
    | Click(button: MouseButton, clockTime: real)
    | MouseUp(button: MouseButton)
    | DoubleClick
    | Frame

  /** One event; every event keeps a well-formed session well-formed. */
  function Step(s: Session, e: Event, approximate: Approximate, metric: Metric): (r: Session)
    requires WellFormed(s)
    ensures WellFormed(r)
  {
    match e
    case MouseMove(position) => MouseMoved(s, position)
    case Click(button, clockTime) => Clicked(s, button, clockTime)
    case MouseUp(button) => MouseReleased(s, button)
    case DoubleClick => DoubleClicked(s)
    case Frame => Updated(s, approximate, metric)
  }

  /** A sequence of events, in the order they occur. */
  function Run(s: Session, events: seq<Event>, approximate: Approximate, metric: Metric): (r: Session)
    requires WellFormed(s)
    ensures WellFormed(r)
    decreases |events|
  {
    if events == [] then s
    else Run(Step(s, events[0], approximate, metric), events[1..], approximate, metric)
  }
}
