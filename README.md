# Slider placement in the osu! editor, modelled in Dafny

This project models the placement mask that the osu! editor uses to build a
slider from pointer events (`SliderPlacementMask`), and proves properties
of that model.

The mask keeps a list of segments. Each segment is an ordered, growable list
of control points. The mask also keeps a cursor offset and a two-valued
placement state (`Initial`, `Body`). Pointer events change this state:

- a move places the slider in `Initial` and moves the cursor in `Body`;
- a click begins the curve in `Initial`, and in `Body` a left click commits
  the cursor to the last segment;
- a right-button release ends the curve;
- a double click starts a new segment at the last point of the last one,
  then marks the last control-point marker as a segment separator.

Once per frame, `Update` recalculates every segment. Only the last segment
is given the cursor. `Update` then writes the slider's control points,
curve type and distance.

## Layout

- `geometry.dfy` (`Geometry`): integer points, the abstract metric, and the
  length of a polyline.
- `segment.dfy` (`Segments`): the `Segment` class and its `Calculate` loop,
  which picks the approximator by point count and sums consecutive
  distances.
- `aggregation.dfy` (`Aggregation`): flattening the segments, counting
  points, summing distances, and choosing the curve type.
- `placement.dfy` (`Placement`): the placement as a state machine over
  values. It has one function per handler (`MouseMoved`, `Clicked`,
  `MouseReleased`, `DoubleClicked`, `CurveBegun`, `CurveEnded`, `Updated`),
  plus `Step` and `Run` over event sequences.
- `placement_properties.dfy` (`PlacementProperties`): what each event does,
  the invariants that every run keeps, the shape of the output, and two
  end-to-end scenarios.
- `slider_placement_mask.dfy` (`PlacementMask`): the classes `Slider` and
  `SliderPlacementMask`. Every handler is proved to change the mask's state
  exactly as the matching `Placement` function says: its postcondition reads
  `Model() == F(old(Model()), …)`. `Valid()` is the object invariant: the
  segment objects are distinct, there is at least one segment, no segment is
  empty, there is one distance per segment, the curve was begun at most
  once, and markers exist exactly once the curve has begun.

Modelling choices:

- Points have integer coordinates, so `cursor = mouse − position` is exact.
- The two approximators are a parameter `approximate`, a function from an
  approximator kind and a point list to a polyline.
- `Vector2.Distance` is a parameter `metric`. Properties that need it to be
  non-negative require `NonNegative(metric)`.
- The editor clock is the `clockTime` argument of a click.
- The host's `BeginPlacement` and `EndPlacement` hooks are ghost counters.
- `controlPointContainer` is modelled by the number of markers it holds
  (`markers`), because a double click throws when it is empty.

## Behaviour of the source that the model keeps

All line numbers refer to
`osu.Game.Rulesets.Osu/Edit/Masks/Slider/SliderPlacementMask.cs`.

- `PlacementState` has only `Initial` and `Body` (:140-144), and `endCurve`
  does not change it (:114-121).
- `OnMouseUp` calls `endCurve` on every right-button release in `Body`
  (:94-95), so a later release ends the curve again and calls `EndPlacement`
  again.
- `Update` has no guard (:123-133), so it keeps recalculating after the
  curve has ended.
- `OnDoubleClick` has no state guard (:99-104). It adds the segment (:101)
  and then calls `controlPointContainer.Last()` (:102). The container only
  gains a marker on a click (:87), and the first click leaves `Initial`
  (:73-74), so in `Initial` the container is empty and the call throws,
  after the segment has been added. `DoubleClickResult` is `Threw` there,
  and `DoubleClickThrowsInInitial` and `ReachableWellFormed` show that this
  happens exactly in `Initial`. `OnMouseMove` calls the same `Last()` in
  `Body` only (:62), where a marker always exists.
- `endCurve` does not recalculate the segments (:116-118). It sums the
  distances left by the most recent `Update`, even if the cursor has moved
  since then. `EndCurveAfterUpdate` shows that the two agree when no event
  came in between.

## Model

| member | source | states |
|---|---|---|
| Geometry.Sub | osu.Game.Rulesets.Osu/Edit/Masks/Slider/SliderPlacementMask.cs:61 | The cursor offset added back to the slider's position gives the pointer position, and the offset is zero exactly when the two positions coincide |
| Geometry.PolylineLengthNonNegative | osu.Game.Rulesets.Osu/Edit/Masks/Slider/SliderPlacementMask.cs:176-180 | A distance accumulated from zero over consecutive pairs is non-negative under a non-negative metric, and is zero for fewer than two points |
| Geometry.PolylineLengthZeroIff | osu.Game.Rulesets.Osu/Edit/Masks/Slider/SliderPlacementMask.cs:176-180 | Under a non-negative, separating metric the accumulated distance is zero if and only if all points of the polyline coincide |
| Segments.ApproximatorByCount | osu.Game.Rulesets.Osu/Edit/Masks/Slider/SliderPlacementMask.cs:157-174 | The working list is the stored points followed by the cursor when one is given; for a non-empty segment it is flattened linearly exactly when it has one or two points, and as a Bezier curve exactly when it has three or more |
| Segments.SegmentLengthNonNegative | osu.Game.Rulesets.Osu/Edit/Masks/Slider/SliderPlacementMask.cs:176-182 | A segment's recorded distance is non-negative, and is zero when its polyline has fewer than two points |
| Segments.StraightSegmentLength | osu.Game.Rulesets.Osu/Edit/Masks/Slider/SliderPlacementMask.cs:159-180 | If the linear approximator keeps its input, a one-point segment given a cursor flattens to the straight line to the cursor and records the metric's distance between the two |
| Segments.Segment.constructor | osu.Game.Rulesets.Osu/Edit/Masks/Slider/SliderPlacementMask.cs:152-155 | A new segment holds exactly the point it was created with |
| Segments.Segment.Calculate | osu.Game.Rulesets.Osu/Edit/Masks/Slider/SliderPlacementMask.cs:157-183 | Returns the approximation of the stored points plus the optional cursor, by the approximator chosen for that count. Resets the distance and recomputes it as that polyline's length, a function of the points and the cursor only, so nothing carries over between calls. The stored points are not modified |
| Aggregation.FlattenLength | osu.Game.Rulesets.Osu/Edit/Masks/Slider/SliderPlacementMask.cs:130 | The concatenation of all segments' points has exactly as many points as the segments hold together |
| Aggregation.TotalPointsAtLeastCount | osu.Game.Rulesets.Osu/Edit/Masks/Slider/SliderPlacementMask.cs:130 | Segments that are never empty hold at least as many points as there are segments |
| Aggregation.SumNonNegative | osu.Game.Rulesets.Osu/Edit/Masks/Slider/SliderPlacementMask.cs:132 | The sum of non-negative segment distances is non-negative |
| Aggregation.FlattenAppend | osu.Game.Rulesets.Osu/Edit/Masks/Slider/SliderPlacementMask.cs:101 | A segment added at the end contributes its points after all earlier ones, and its count to the total |
| Aggregation.CurveTypeMatchesApproximator | osu.Game.Rulesets.Osu/Edit/Masks/Slider/SliderPlacementMask.cs:131 | For a non-empty point list, the curve-type rule (more than two points means Bezier) agrees with the approximator choice (one or two points means Linear) |
| Placement.NewSession | osu.Game.Rulesets.Osu/Edit/Masks/Slider/SliderPlacementMask.cs:32-37 | A new placement has exactly one segment, holding only the origin, and the state is Initial; it is well-formed and the curve has not been begun |
| Placement.Step | osu.Game.Rulesets.Osu/Edit/Masks/Slider/SliderPlacementMask.cs:53-133 | Every pointer event and every frame keeps the session well-formed: at least one segment, none empty, one distance per segment |
| Placement.Run | osu.Game.Rulesets.Osu/Edit/Masks/Slider/SliderPlacementMask.cs:53-133 | Any sequence of events and frames from a well-formed session ends in a well-formed session |
| PlacementProperties.MouseMoveEffect | osu.Game.Rulesets.Osu/Edit/Masks/Slider/SliderPlacementMask.cs:53-67 | A move changes neither the segments nor the state. In Initial it sets only the slider's position. In Body it sets only the cursor, to the pointer minus the slider's position. The marker count is unchanged |
| PlacementProperties.ClickEffect | osu.Game.Rulesets.Osu/Edit/Masks/Slider/SliderPlacementMask.cs:69-90 | In Initial a click sets the start time from the clock and moves to Body with the segments unchanged. In Body a left click appends the cursor to the last segment only. Any other button in Body changes nothing else. Every click adds one marker |
| PlacementProperties.FlattenAppendToLast | osu.Game.Rulesets.Osu/Edit/Masks/Slider/SliderPlacementMask.cs:80 | Committing the cursor to the last segment adds exactly that point at the end of the flattened control points |
| PlacementProperties.MouseUpEffect | osu.Game.Rulesets.Osu/Edit/Masks/Slider/SliderPlacementMask.cs:92-97 | A release ends the curve if and only if the state is Body and the button is Right; no release changes the state, the segments or the cursor |
| PlacementProperties.DoubleClickEffect | osu.Game.Rulesets.Osu/Edit/Masks/Slider/SliderPlacementMask.cs:99-104 | A double click in either state adds exactly one segment, whose only point is the last point of the previous last segment, with distance zero. All earlier segments and their distances, the state, the cursor, the slider, both hook counts and the marker count are unchanged |
| PlacementProperties.DoubleClickThrowsInInitial | osu.Game.Rulesets.Osu/Edit/Masks/Slider/SliderPlacementMask.cs:62-102 | When the container is empty exactly in Initial, a double click throws if and only if the state is Initial, and returns true if and only if the state is Body. In Body the marker that a move updates exists |
| PlacementProperties.StepKeepsMarkersDrawn | osu.Game.Rulesets.Osu/Edit/Masks/Slider/SliderPlacementMask.cs:73-87 | Each event keeps the container empty exactly while the state is Initial |
| PlacementProperties.RunKeepsMarkersDrawn | osu.Game.Rulesets.Osu/Edit/Masks/Slider/SliderPlacementMask.cs:73-87 | Over any run, the container stays empty exactly while the state is Initial |
| PlacementProperties.StateMonotone | osu.Game.Rulesets.Osu/Edit/Masks/Slider/SliderPlacementMask.cs:135-144 | The state never leaves Body, and only a click takes it from Initial to Body |
| PlacementProperties.StepKeepsBeganOnce | osu.Game.Rulesets.Osu/Edit/Masks/Slider/SliderPlacementMask.cs:106-112 | Each event keeps the begin-hook count at 1 in Body and at 0 in Initial |
| PlacementProperties.RunKeepsBeganOnce | osu.Game.Rulesets.Osu/Edit/Masks/Slider/SliderPlacementMask.cs:106-112 | Over any run, the curve is begun at most once |
| PlacementProperties.InitialIffNoClick | osu.Game.Rulesets.Osu/Edit/Masks/Slider/SliderPlacementMask.cs:53-133 | A run ends in Initial if and only if it started in Initial and none of its events was a click: only a click leaves Initial, and nothing returns to it |
| PlacementProperties.ReachableWellFormed | osu.Game.Rulesets.Osu/Edit/Masks/Slider/SliderPlacementMask.cs:53-133 | From a new placement, no sequence of events empties a segment, so the last point of the last segment always exists. The curve was begun at most once, and a double click throws exactly when no event of the run was a click |
| PlacementProperties.StepExtends | osu.Game.Rulesets.Osu/Edit/Masks/Slider/SliderPlacementMask.cs:80 | Each event keeps every segment before the last one, and keeps the last segment's points as a prefix of what stands in its place |
| PlacementProperties.RunExtends | osu.Game.Rulesets.Osu/Edit/Masks/Slider/SliderPlacementMask.cs:99-104 | Over any run only the last segment grows; earlier segments stay frozen |
| PlacementProperties.PathShape | osu.Game.Rulesets.Osu/Edit/Masks/Slider/SliderPlacementMask.cs:116-118 | The written control points are all segments' points in order followed by the cursor, so their count is the total plus one and at least two. The curve is Bezier exactly when that count exceeds two, and Linear otherwise. The distance is the sum of the segment distances, non-negative when they are. Position and start time are unchanged |
| PlacementProperties.SegmentDistancesNonNegative | osu.Game.Rulesets.Osu/Edit/Masks/Slider/SliderPlacementMask.cs:127-128 | Under a non-negative metric every recalculated segment distance is non-negative |
| PlacementProperties.UpdateEffect | osu.Game.Rulesets.Osu/Edit/Masks/Slider/SliderPlacementMask.cs:123-133 | A frame recalculates every segment, giving the cursor to the last one only, and writes the path from the new distances. It changes nothing else, and the slider's distance is non-negative |
| PlacementProperties.UpdateIdempotent | osu.Game.Rulesets.Osu/Edit/Masks/Slider/SliderPlacementMask.cs:123-133 | A second frame with no event in between changes nothing: no state accumulates across recalculations |
| PlacementProperties.EndCurveAfterUpdate | osu.Game.Rulesets.Osu/Edit/Masks/Slider/SliderPlacementMask.cs:114-121 | Ending the curve right after a frame writes the same control points, curve type and distance as that frame, and leaves the state as it was |
| PlacementProperties.StraightSlider | osu.Game.Rulesets.Osu/Edit/Masks/Slider/SliderPlacementMask.cs:53-97 | Move, click, move, one frame, right release gives a linear slider: at the first position, with control points origin and offset, and the metric's distance between them. The state stays Body and the end hook is called once |
| PlacementProperties.DoubleClickAfterFirstClick | osu.Game.Rulesets.Osu/Edit/Masks/Slider/SliderPlacementMask.cs:99-104 | A double click right after the first click gives two segments that each hold only the origin; the next frame writes three points and a Bezier curve |
| PlacementMask.Slider.constructor | osu.Game.Rulesets.Osu/Edit/Masks/Slider/SliderPlacementMask.cs:33 | A new slider has the default fields |
| PlacementMask.SliderPlacementMask.constructor | osu.Game.Rulesets.Osu/Edit/Masks/Slider/SliderPlacementMask.cs:32-37 | The mask starts valid, as a new placement: one fresh segment at the origin, state Initial |
| PlacementMask.SliderPlacementMask.OnMouseMove | osu.Game.Rulesets.Osu/Edit/Masks/Slider/SliderPlacementMask.cs:53-67 | Changes the mask as MouseMoved says, keeps it valid, and reports the event handled. In Body the marker it updates exists |
| PlacementMask.SliderPlacementMask.OnClick | osu.Game.Rulesets.Osu/Edit/Masks/Slider/SliderPlacementMask.cs:69-90 | Changes the mask as Clicked says, including the one marker every click draws, keeps it valid, and reports the event handled. It writes to the last segment object only |
| PlacementMask.SliderPlacementMask.OnMouseUp | osu.Game.Rulesets.Osu/Edit/Masks/Slider/SliderPlacementMask.cs:92-97 | Changes the mask as MouseReleased says and keeps it valid |
| PlacementMask.SliderPlacementMask.OnDoubleClick | osu.Game.Rulesets.Osu/Edit/Masks/Slider/SliderPlacementMask.cs:99-104 | Appends one fresh segment object, keeps the earlier ones, changes the mask as DoubleClicked says, and keeps it valid. It then throws if no marker exists, and otherwise returns true, as DoubleClickResult says |
| PlacementMask.SliderPlacementMask.BeginCurve | osu.Game.Rulesets.Osu/Edit/Masks/Slider/SliderPlacementMask.cs:106-112 | From Initial: sets the start time, calls the begin hook once, and moves to Body, as CurveBegun says. The segments are unchanged |
| PlacementMask.SliderPlacementMask.EndCurve | osu.Game.Rulesets.Osu/Edit/Masks/Slider/SliderPlacementMask.cs:114-121 | Writes the path from the segments' current points and distances and calls the end hook, as CurveEnded says; the state is unchanged |
| PlacementMask.SliderPlacementMask.Update | osu.Game.Rulesets.Osu/Edit/Masks/Slider/SliderPlacementMask.cs:123-133 | The loop calculates each segment in turn, the last one with the cursor. The mask then ends as Updated says, with every segment's points unchanged |
| PlacementMask.SliderPlacementMask.WritePath | osu.Game.Rulesets.Osu/Edit/Masks/Slider/SliderPlacementMask.cs:130-132 | Writes the flattened points plus cursor, the curve type for their count, and the summed distances, as WithPath says |

## Left out

- Rendering is not modelled: `load`, `InternalChildren`, the body and circle
  pieces, the markers' positions, `SliderControlPoint.NextPoint` and
  `SegmentSeparator`. These only draw. Of `controlPointContainer`, only the
  number of markers is kept. For the same reason, a click's pointer position
  is not an input of `OnClick`: the source uses it only for a drawable.
- PlacementMask.SliderPlacementMask.OnDoubleClick: the exception thrown in
  `Initial` is the result `Threw`. What the host does with the exception is
  not modelled. `Step` and `Run` carry on from the state the handler left,
  with the new segment added.
- `LinearApproximator` and `BezierApproximator` are not part of this model.
  They are the parameter `approximate`, and no Bezier flattening is modelled.
  Segments.StraightSegmentLength: the claim that the linear approximator
  returns its input is a hypothesis (`LinearIsIdentity`), not a proved fact.
- `Vector2` is single precision and `Vector2.Distance` takes a square root.
  Points here have integer coordinates and distances are exact reals from an
  abstract metric, so float rounding and summation order are not modelled.
- The editor clock, `BeginPlacement`, `EndPlacement`, `base.Update` and
  `base.OnMouseUp` belong to the host:
  - the clock is an argument of `OnClick`;
  - the two hooks are ghost counters;
  - `base.Update` is not modelled;
  - `OnMouseUp` returns nothing, because the source returns whatever
    `base.OnMouseUp` returns.
- The source's `Objects.Slider` is not part of this model. The Dafny
  `Slider` class keeps only the five fields the mask writes. Their default
  values (the origin, start time 0, no control points, Linear, distance 0)
  are an assumption of `DefaultSlider`.
- Mouse buttons other than left, middle and right are collapsed into
  `Other`; the source only distinguishes Left and Right.
- The polyline that `Calculate` returns is not used by `Update` in the source
  either. It is returned, but nothing else is proved about it.
- The chat component `osu.Game/Overlays/Chat/DrawableChannel.cs` is not part
  of this model. It is interface glue whose behaviour depends on framework
  containers, message ordering and time-zone conversion, and none of these
  are given.
