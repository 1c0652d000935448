/**
 * What the placement state machine promises: the effect of each event, the
 * invariants every run keeps, and the shape of the path written to the
 * slider.
 */
module PlacementProperties {
  import opened Geometry
  import opened Segments
  import opened Aggregation
  import opened Placement

  /**
   * A pointer move changes neither the segments nor the state. In `Initial`
   * it moves only the slider; in `Body` it sets only the cursor, to the
   * pointer's offset from the slider's position.
   */
  lemma MouseMoveEffect(s: Session, position: Point)
    ensures var r := MouseMoved(s, position);
      && r.points == s.points && r.distances == s.distances && r.state == s.state
      && r.beginPlacements == s.beginPlacements && r.endPlacements == s.endPlacements
      && r.markers == s.markers
      && (s.state == Initial ==> r.slider == s.slider.(position := position) && r.cursor == s.cursor)
      && (s.state == Body ==> r.slider == s.slider && Add(s.slider.position, r.cursor) == position)
  {
  }

  /**
   * A click in `Initial` begins the curve: start time from the clock, state
   * `Body`, segments untouched. In `Body` a left click adds the cursor to the
   * last segment and leaves every other segment as it was; any other button
   * changes nothing else. Every click adds one marker.
   */
  lemma ClickEffect(s: Session, button: MouseButton, clockTime: real)
    requires WellFormed(s)
    ensures var r := Clicked(s, button, clockTime);
      && r.cursor == s.cursor && r.distances == s.distances && r.endPlacements == s.endPlacements
      && r.markers == s.markers + 1
      && (s.state == Initial ==>
            && r.state == Body && r.points == s.points
            && r.slider == s.slider.(startTime := clockTime)
            && r.beginPlacements == s.beginPlacements + 1)
      && (s.state == Body && button == Left ==>
            && r.state == Body && r.slider == s.slider && r.beginPlacements == s.beginPlacements
            && |r.points| == |s.points|
            && r.points[..|s.points| - 1] == s.points[..|s.points| - 1]
            && r.points[|s.points| - 1] == s.points[|s.points| - 1] + [s.cursor])
      && (s.state == Body && button != Left ==> r == s.(markers := s.markers + 1))
  {
  }

  /** Committing the cursor adds it, and nothing else, to the end of the flattened points. */
  lemma {:induction false} FlattenAppendToLast(segments: seq<seq<Point>>, p: Point)
    requires |segments| >= 1
    ensures Flatten(AppendToLast(segments, p)) == Flatten(segments) + [p]
  {
    var n := |segments|;
    var init := segments[..n - 1];
    assert segments == init + [segments[n - 1]];
    FlattenAppend(init, segments[n - 1]);
    FlattenAppend(init, segments[n - 1] + [p]);
  }

  /**
   * A release ends the curve exactly when the state is `Body` and the button
   * is the right one; no release changes the state.
   */
  lemma MouseUpEffect(s: Session, button: MouseButton)
    ensures var r := MouseReleased(s, button);
      && r.state == s.state && r.points == s.points && r.distances == s.distances && r.cursor == s.cursor
      && (s.state == Body && button == Right ==> r == CurveEnded(s) && r.endPlacements == s.endPlacements + 1)
      && (!(s.state == Body && button == Right) ==> r == s)
  {
  }

  /**
   * A double click, in either state, adds one segment whose only point is
   * the last point of the previous last segment, with distance zero; the
   * earlier segments and their distances stay, and nothing else changes.
   */
  lemma DoubleClickEffect(s: Session)
    requires WellFormed(s)
    ensures var r := DoubleClicked(s);
      && |r.points| == |s.points| + 1
      && r.points[..|s.points|] == s.points
      && r.points[|s.points|] == [LastPoint(s)]
      && r.distances == s.distances + [0.0]
      && r.state == s.state && r.cursor == s.cursor && r.slider == s.slider
      && r.beginPlacements == s.beginPlacements && r.endPlacements == s.endPlacements
      && r.markers == s.markers
  {
  }

  /**
   * Where markers are drawn as every run from a new placement draws them, a
   * double click throws exactly in `Initial`, after it has added its
   * segment, and returns `true` exactly in `Body`; a move in `Body` always
   * finds a marker to update.
   */
  lemma DoubleClickThrowsInInitial(s: Session)
    requires MarkersDrawn(s)
    ensures DoubleClickResult(s) == Threw <==> s.state == Initial
    ensures DoubleClickResult(s) == Returned(true) <==> s.state == Body
    ensures s.state == Body ==> s.markers >= 1
  {
  }

  /** The state only ever goes from `Initial` to `Body`, and only by a click. */
  lemma StateMonotone(s: Session, e: Event, approximate: Approximate, metric: Metric)
    requires WellFormed(s)
    ensures var r := Step(s, e, approximate, metric);
      && (s.state == Body ==> r.state == Body)
      && (s.state == Initial && r.state == Body ==> e.Click?)
  {
  }

  /** Each event keeps `beginPlacements` at one once the curve has begun and at zero before. */
  lemma StepKeepsBeganOnce(s: Session, e: Event, approximate: Approximate, metric: Metric)
    requires WellFormed(s) && BeganOnce(s)
    ensures BeganOnce(Step(s, e, approximate, metric))
  {
  }

  /** Each event keeps the markers drawn exactly when the state has left `Initial`. */
  lemma StepKeepsMarkersDrawn(s: Session, e: Event, approximate: Approximate, metric: Metric)
    requires WellFormed(s) && MarkersDrawn(s)
    ensures MarkersDrawn(Step(s, e, approximate, metric))
  {
  }

  /** Over any run, `controlPointContainer` is empty exactly while the state is `Initial`. */
  lemma {:induction false} RunKeepsMarkersDrawn(s: Session, events: seq<Event>, approximate: Approximate, metric: Metric)
    requires WellFormed(s) && MarkersDrawn(s)
    ensures MarkersDrawn(Run(s, events, approximate, metric))
    decreases |events|
  {
    if events != [] {
      StepKeepsMarkersDrawn(s, events[0], approximate, metric);
      RunKeepsMarkersDrawn(Step(s, events[0], approximate, metric), events[1..], approximate, metric);
    }
  }

  /** Over any run from a new placement, the curve is begun at most once. */
  lemma {:induction false} RunKeepsBeganOnce(s: Session, events: seq<Event>, approximate: Approximate, metric: Metric)
    requires WellFormed(s) && BeganOnce(s)
    ensures var r := Run(s, events, approximate, metric);
      BeganOnce(r) && r.beginPlacements <= 1
    decreases |events|
  {
    if events != [] {
      StepKeepsBeganOnce(s, events[0], approximate, metric);
      RunKeepsBeganOnce(Step(s, events[0], approximate, metric), events[1..], approximate, metric);
    }
  }

  /** A run ends in `Initial` exactly when it started there and no event of it was a click. */
  lemma {:induction false} InitialIffNoClick(s: Session, events: seq<Event>, approximate: Approximate, metric: Metric)
    requires WellFormed(s)
    ensures Run(s, events, approximate, metric).state == Initial <==>
      s.state == Initial && forall i | 0 <= i < |events| :: !events[i].Click?
    decreases |events|
  {
    if events != [] {
      StateMonotone(s, events[0], approximate, metric);
      InitialIffNoClick(Step(s, events[0], approximate, metric), events[1..], approximate, metric);
      assert forall i | 1 <= i < |events| :: events[i] == events[1..][i - 1];
    }
  }

  /**
   * From a new placement, no sequence of events empties a segment, so the
   * last point always exists; the curve was begun at most once, and a double
   * click throws exactly when no click came before it.
   */
  lemma ReachableWellFormed(events: seq<Event>, approximate: Approximate, metric: Metric)
    ensures var r := Run(NewSession(), events, approximate, metric);
      && WellFormed(r) && BeganOnce(r) && MarkersDrawn(r)
      && |r.points[|r.points| - 1]| >= 1
      && (DoubleClickResult(r) == Threw <==> r.state == Initial)
      && (DoubleClickResult(r) == Threw <==> forall i | 0 <= i < |events| :: !events[i].Click?)
  {
    InitialIffNoClick(NewSession(), events, approximate, metric);
    RunKeepsBeganOnce(NewSession(), events, approximate, metric);
    RunKeepsMarkersDrawn(NewSession(), events, approximate, metric);
    DoubleClickThrowsInInitial(Run(NewSession(), events, approximate, metric));
  }

  /**
   * `b` grows out of `a` by changing only its last segment and adding new
   * ones: the segments before `a`'s last are kept, and `a`'s last is a prefix
   * of what stands at its place in `b`.
   */
  ghost predicate Extends(a: seq<seq<Point>>, b: seq<seq<Point>>)
  {
    && 1 <= |a| <= |b|
    && (forall i :: 0 <= i < |a| - 1 ==> b[i] == a[i])
    && a[|a| - 1] <= b[|a| - 1]
  }

  lemma ExtendsTransitive(a: seq<seq<Point>>, b: seq<seq<Point>>, c: seq<seq<Point>>)
    requires Extends(a, b) && Extends(b, c)
    ensures Extends(a, c)
  {
    var k := |a| - 1;
    if k < |b| - 1 {
      assert c[k] == b[k];
    } else {
      assert a[k] <= b[k] <= c[k];
      assert a[k] == b[k][..|a[k]|] && b[k] == c[k][..|b[k]|];
      assert a[k] == c[k][..|a[k]|];
    }
  }

  /** Every event leaves the segments as they were, grows the last one, or adds one. */
  lemma StepExtends(s: Session, e: Event, approximate: Approximate, metric: Metric)
    requires WellFormed(s)
    ensures Extends(s.points, Step(s, e, approximate, metric).points)
  {
    var k := |s.points| - 1;
    assert s.points[k] <= s.points[k] + [s.cursor];
  }

  /** Only the last segment ever grows: earlier segments are frozen for the rest of the run. */
  lemma {:induction false} RunExtends(s: Session, events: seq<Event>, approximate: Approximate, metric: Metric)
    requires WellFormed(s)
    ensures Extends(s.points, Run(s, events, approximate, metric).points)
    decreases |events|
  {
    if events == [] {
      assert s.points[|s.points| - 1] <= s.points[|s.points| - 1];
    } else {
      var t := Step(s, events[0], approximate, metric);
      StepExtends(s, events[0], approximate, metric);
      RunExtends(t, events[1..], approximate, metric);
      ExtendsTransitive(s.points, t.points, Run(t, events[1..], approximate, metric).points);
    }
  }

  /**
   * The path written to the slider: all the segments' points in order, then
   * the cursor, so one more than the segments hold and at least two; the
   * curve is Bezier exactly when that count exceeds two; the distance is the
   * sum of the segments' distances, never negative when they are not.
   * Position and start time are untouched.
   */
  lemma {:induction false} PathShape(slider: Output, points: seq<seq<Point>>, distances: seq<real>, cursor: Point)
    requires |points| >= 1 && AllNonEmpty(points)
    ensures var r := WithPath(slider, points, distances, cursor);
      && |r.controlPoints| == TotalPoints(points) + 1 >= 2
      && r.controlPoints[..|r.controlPoints| - 1] == Flatten(points)
      && r.controlPoints[|r.controlPoints| - 1] == cursor
      && (r.curveType == Bezier <==> TotalPoints(points) + 1 > 2)
      && (r.curveType == Linear <==> TotalPoints(points) + 1 <= 2)
      && r.distance == Sum(distances)
      && (AllNonNegative(distances) ==> r.distance >= 0.0)
      && r.position == slider.position && r.startTime == slider.startTime
  {
    FlattenLength(points);
    TotalPointsAtLeastCount(points);
    if AllNonNegative(distances) {
      SumNonNegative(distances);
    }
  }

  /** With a non-negative metric every recomputed segment distance is non-negative. */
  lemma SegmentDistancesNonNegative(approximate: Approximate, metric: Metric, points: seq<seq<Point>>, cursor: Point)
    requires NonNegative(metric)
    ensures AllNonNegative(SegmentDistances(approximate, metric, points, cursor))
  {
    var ds := SegmentDistances(approximate, metric, points, cursor);
    forall i | 0 <= i < |ds| ensures ds[i] >= 0.0 {
      SegmentLengthNonNegative(approximate, metric, points[i], CursorFor(|points|, i, cursor));
    }
  }

  /**
   * A frame recalculates every segment, the last one with the cursor and the
   * others without, and writes the path to the slider; it changes nothing
   * else, and the slider's distance is not negative.
   */
  lemma UpdateEffect(s: Session, approximate: Approximate, metric: Metric)
    requires WellFormed(s) && NonNegative(metric)
    ensures var r := Updated(s, approximate, metric);
      && r.points == s.points && r.cursor == s.cursor && r.state == s.state
      && r.beginPlacements == s.beginPlacements && r.endPlacements == s.endPlacements
      && r.markers == s.markers
      && |r.distances| == |s.points|
      && (forall i :: 0 <= i < |s.points| - 1 ==>
            r.distances[i] == SegmentLength(approximate, metric, s.points[i], None))
      && r.distances[|s.points| - 1] == SegmentLength(approximate, metric, s.points[|s.points| - 1], Some(s.cursor))
      && r.slider == WithPath(s.slider, s.points, r.distances, s.cursor)
      && r.slider.distance >= 0.0
  {
    SegmentDistancesNonNegative(approximate, metric, s.points, s.cursor);
    PathShape(s.slider, s.points, SegmentDistances(approximate, metric, s.points, s.cursor), s.cursor);
  }

  /** Recomputation keeps nothing from one frame to the next: a second frame changes nothing. */
  lemma UpdateIdempotent(s: Session, approximate: Approximate, metric: Metric)
    ensures var r := Updated(s, approximate, metric);
      Updated(r, approximate, metric) == r
  {
  }

  /** Ending the curve right after a frame writes what that frame wrote. */
  lemma EndCurveAfterUpdate(s: Session, approximate: Approximate, metric: Metric)
    ensures var r := Updated(s, approximate, metric);
      && CurveEnded(r).slider == r.slider
      && CurveEnded(r).state == s.state
  {
  }

  /**
   * A straight slider: move to `start`, click, move to `end`, let a frame
   * pass, release the right button. The slider sits at `start` and runs
   * linearly from its origin to the offset of `end`, as long as the metric
   * says; the state stays `Body` and the host was told once that it ended.
   */
  lemma StraightSlider(approximate: Approximate, metric: Metric, clockTime: real, start: Point, end: Point)
    requires LinearIsIdentity(approximate)
    ensures var placed := Clicked(MouseMoved(NewSession(), start), Left, clockTime);
      var r := MouseReleased(Updated(MouseMoved(placed, end), approximate, metric), Right);
      var offset := Sub(end, start);
      && r.slider.position == start
      && r.slider.controlPoints == [Origin, offset]
      && r.slider.curveType == Linear
      && r.slider.distance == metric(Origin, offset)
      && r.slider.startTime == clockTime
      && r.state == Body && r.endPlacements == 1
  {
    var offset := Sub(end, start);
    var s3 := Session([[Origin]], [0.0], offset, Body, DefaultSlider.(position := start, startTime := clockTime), 1, 0, 1);
    assert MouseMoved(Clicked(MouseMoved(NewSession(), start), Left, clockTime), end) == s3;
    var s4 := Updated(s3, approximate, metric);
    StraightSegmentLength(approximate, metric, Origin, offset);
    assert s4.distances == [metric(Origin, offset)];
    assert Sum(s4.distances) == metric(Origin, offset) by {
      assert s4.distances[..0] == [];
    }
    assert Flatten([[Origin]]) == [Origin];
  }

  /**
   * A double click straight after the first click: two segments, the second
   * holding only the origin it continues from. The next frame therefore
   * writes three points and a Bezier curve.
   */
  lemma DoubleClickAfterFirstClick(approximate: Approximate, metric: Metric, clockTime: real)
    ensures var r := Run(NewSession(),
        [Click(Left, clockTime), DoubleClick, Frame], approximate, metric);
      && r.points == [[Origin], [Origin]]
      && r.slider.controlPoints == [Origin, Origin, Origin]
      && r.slider.curveType == Bezier
  {
    var evs := [Click(Left, clockTime), DoubleClick, Frame];
    var s0 := NewSession();
    var s1 := Step(s0, evs[0], approximate, metric);
    var s2 := Step(s1, evs[1], approximate, metric);
    var s3 := Step(s2, evs[2], approximate, metric);
    assert s2.points == [[Origin], [Origin]];
    assert Flatten(s2.points) == [Origin, Origin] by {
      assert s2.points[..1] == [[Origin]];
      assert s2.points[..1][..0] == [];
    }
    assert Run(s3, evs[3..], approximate, metric) == s3;
    assert Run(s2, evs[2..], approximate, metric) == s3;
    assert Run(s1, evs[1..], approximate, metric) == s3;
  }
}
