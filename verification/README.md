# Link geometry of a finite-state-machine diagram editor

This project models the geometric core of the `Link` class in
`src/elements/linkClass.js`. A link is a directed connector between two
circular nodes. It stores its bend as an anchor point in the frame of the
chord from `nodeA` to `nodeB`:

- `parallelPart` is the fraction along the chord.
- `perpendicularPart` is the signed pixel distance off the chord.
- `lineAngleAdjust` is a half-turn flip remembered for the label of a
  straight link.

From these three numbers the link derives what it draws and what it
answers to:

- a straight segment between the node boundaries, or an arc of the circle
  through both node centres and the anchor;
- the arrowhead heading and the label placement;
- whether a screen point selects the link.

The Dafny modules follow that structure:

- `Geometry` (`geometry.dfy`): points, squared distances, and the chord
  frame. `Along` is the dot product and `Across` the cross product with the
  chord. `InBand` is a square-root-free band predicate.
- `LinkModel` (`link.dfy`): the `Link` record, the constructor defaults,
  `getAnchorPoint`, and `setAnchorPoint` with its snap to a straight line.
- `Angles` (`angles.dfy`): angle unwrapping, the span normalisation and
  one-turn probe adjustment of the arc hit test, and the arc label's angle.
- `Endpoints` (`endpoints.dfy`): `getEndPointsAndCircle`, with its result
  as a tagged union (`Straight` or `Arc`).
- `HitTest` (`hittest.dfy`): both branches of `containsPoint`.
- `HorizontalChord` (`horizontal.dfy`): the drag snap and the straight hit
  test worked out for the chord from (0, 0) to (100, 0).
- `Drawing` (`drawing.dfy`): the arrow heading and label placement from
  `draw`.

Modelling conventions:

- Coordinates are exact `real`s.
- Wherever the code takes `Math.sqrt(v)`, the model takes the root as a
  parameter `r` with `r >= 0 && r * r == v` (`IsRoot`). Contracts are then
  stated without roots: a division-based test is proved equivalent to a
  product-based one (`BandByDivision`, `RingByRoot`). A positive root is
  unique (`Geometry.RootUnique`), so the parameter leaves nothing open: the
  chord length `scale` is fixed by `ChordScale` (`LinkModel.ChordScaleUnique`).
- `Math.atan2`, `Math.cos`, `Math.sin`, the node's `closestPointOnCircle`,
  and the global `circleFromThreePoints` are not defined in this file. They
  are fields of an `Externals` value that the operations receive.
- `Math.PI` is the constant `3.141592653589793`.
- `nodeRadius`, `snapToPadding` and `hitTargetPadding` are positive fields
  of a `Config`, because `src/constants.js` is not part of this model.

Two properties of the code that are easy to misread:

- Each arc end lies `nodeRadius` of arc length from its node centre's
  bearing on the circle, not `nodeRadius` in straight-line distance from
  the node centre: the code moves each end angle by `nodeRadius / radius`
  radians (`Endpoints.ArcEndsPulledInward`).
- The angular test of the arc hit test is strict at both ends (line 145).

## Model

| member | source | states |
|---|---|---|
| LinkModel.NewLink | src/elements/linkClass.js:8-17 | a new link joins the given nodes, is straight, and has no label flip |
| LinkModel.NewLinkAnchorIsMidpoint | src/elements/linkClass.js:12-16 | with the default parameters, the anchor is the midpoint of the two node centres |
| LinkModel.BoolAsNumber | src/elements/linkClass.js:41 | JavaScript's boolean-to-number coercion gives 1 exactly for `true` and 0 otherwise |
| LinkModel.ChordScaleUnique | src/elements/linkClass.js:26 | only one value can stand for the chord length `scale`: any two positive roots of the squared chord length are equal |
| LinkModel.GetAnchorPoint | src/elements/linkClass.js:23-31 | the anchor's chord-frame coordinates are the stored ones: it projects at fraction `parallelPart` of the chord and lies `perpendicularPart` pixels off it |
| LinkModel.MirroredLinkSameAnchor | src/elements/linkClass.js:23-31 | describing the anchor from the other node keeps the same point: swap the nodes, take `1 - parallelPart`, negate `perpendicularPart` |
| LinkModel.SetAnchorPoint | src/elements/linkClass.js:33-44 | the nodes never change; `parallelPart` is the drag point's projection fraction. On a snap the link becomes straight, `0 < parallelPart < 1`, and the flip is a half turn exactly when the point was on the negative side. Otherwise `perpendicularPart` is the point's signed distance and the flip is unchanged |
| LinkModel.FlipStaysHalfTurn | src/elements/linkClass.js:41 | a drag keeps `lineAngleAdjust` at no turn or a half turn, the only two values the code gives it |
| LinkModel.AnchorAfterSet | src/elements/linkClass.js:33-44 | after a set, the anchor projects where the drag point does, and lies on the chord after a snap or at the drag point's distance otherwise |
| LinkModel.AnchorRoundTrip | src/elements/linkClass.js:33-38 | away from the snap band, getting the anchor after setting it to `p` returns exactly `p` |
| LinkModel.SnapLandsOnChord | src/elements/linkClass.js:39-43 | a snap moves the anchor to the foot of the perpendicular from the drag point, less than `snapToPadding` away from it |
| LinkModel.MidpointDragIsStraight | src/elements/linkClass.js:33-44 | dragging to the chord's midpoint restores the defaults (fraction one half, straight, no flip) and keeps the nodes |
| LinkModel.SetAnchorSide | src/elements/linkClass.js:37-43 | after a drag, the link is straight exactly when the point snapped or lies on the chord's line, and bows to the positive side exactly when it did not snap and lies on that side |
| HorizontalChord.HorizontalSnap | src/elements/linkClass.js:40-42 | for the chord (0,0)–(100,0) with padding 10, a drag to (x, y) snaps exactly when 0 < x < 100 and abs(y) < 10, flipping exactly when y < 0; otherwise the anchor is y pixels off |
| Geometry.BandByDivision | src/elements/linkClass.js:150-153 | the code's test by division (`0 < percent < 1`, `abs(distance) < pad`) is equivalent to the division-free band predicate |
| Endpoints.GetEndPointsAndCircle | src/elements/linkClass.js:46-84 | the result is a segment exactly when `perpendicularPart` is 0. A segment runs between the nodes' closest boundary points to the chord midpoint. An arc follows the circle `circleFromThreePoints` returns for both centres and the anchor, is reversed exactly when `perpendicularPart > 0`, and has a `reverseScale` of the same sign as `perpendicularPart` |
| Endpoints.MirroredEnds | src/elements/linkClass.js:47-65 | the link described from the other end is drawn over the same ends: a segment with its ends swapped, or an arc of the same circle drawn the other way round with its two end angles swapped |
| Endpoints.TrimmedArc | src/elements/linkClass.js:62-69 | `reverseScale` is +1 for a reversed arc and -1 otherwise, and both ends lie at their angles on the given circle |
| Endpoints.ArcEndsPulledInward | src/elements/linkClass.js:64-65 | the start angle moves `-reverseScale * nodeRadius / radius` off node A's bearing, and the end angle moves by the opposite amount off node B's |
| Endpoints.ArcEndsOnCircle | src/elements/linkClass.js:66-69 | where cosine and sine satisfy the Pythagorean identity, both arc ends are at distance `radius` from the centre |
| Endpoints.StraightEndsIgnoreAnchor | src/elements/linkClass.js:47-58 | the ends of a straight link depend only on its nodes |
| Endpoints.DragShape | src/elements/linkClass.js:47-62 | after a drag, the link draws as a segment exactly when the point snapped or is on the chord's line; otherwise the arc is reversed exactly when the point is on the positive side |
| Angles.UnwrapEnd | src/elements/linkClass.js:107-109 | the end angle is kept or moved one turn forward; when the two angles are within a turn, the result lies in the turn that starts at the start angle |
| Angles.UnwrapEndUnique | src/elements/linkClass.js:137-139 | any whole-turn shift of the end that lands in `[start, start + 2π)` is the one the unwrapping makes |
| Angles.NormaliseSpan | src/elements/linkClass.js:130-139 | the span starts at the start angle, or at the end angle for a reversed arc; its upper bound is the other angle or one turn past it; with angles less than a turn apart it is not reversed (`lo <= hi`) and shorter than a turn, and non-empty (`lo < hi`) when the two angles also differ |
| Angles.AdjustAngle | src/elements/linkClass.js:140-145 | the probe moves by at most one turn; for a span shorter than a turn and a probe within a turn of it, it lands strictly inside exactly when some whole-turn representative of the probe does |
| Angles.ArcLabelAngle | src/elements/linkClass.js:105-110 | for distinct end angles, the label angle is the midpoint of the span the arc is drawn over, up to one turn, in both drawing directions |
| Angles.LabelWithinHalfTurn | src/elements/linkClass.js:105-110 | without the flip, the label angle is equidistant from the start and the unwrapped end, and less than half a turn past the start |
| HitTest.StraightHit | src/elements/linkClass.js:147-153 | a point is a hit exactly when it projects strictly inside the segment and lies less than the padding from its line |
| HorizontalChord.HorizontalSegmentHit | src/elements/linkClass.js:147-153 | for (0,0)–(100,0) with padding 8, (x, y) is a hit exactly when 0 < x < 100 and abs(y) < 8 |
| HitTest.RingByRoot | src/elements/linkClass.js:125-128 | the radial test on the root is equivalent to a square-root-free ring condition |
| HitTest.ArcHit | src/elements/linkClass.js:124-155 | a hit lies in the ring (a point outside it falls through to `false`), and its adjusted bearing strictly inside the span. When the span is shorter than a turn and the bearing within a turn of it, a hit is exactly a ring point with some whole-turn representative of its bearing in the span |
| HitTest.ContainsPoint | src/elements/linkClass.js:122-156 | the hit test of the branch `getEndPointsAndCircle` selects: the band for a segment, the ring and span for an arc |
| HitTest.MirroredLinkSameHit | src/elements/linkClass.js:122-156 | the link described from the other end selects exactly the same points, in both branches |
| Drawing.ArrowAngle | src/elements/linkClass.js:98-102 | a straight link's arrow points from start to end; an arc's arrow is a quarter turn off the end angle, backwards exactly for a reversed arc |
| Drawing.ArrowAfterDrag | src/elements/linkClass.js:98-99 | after a drag that leaves the link curved, the arrowhead is turned back from the end angle exactly when the drag point lies on the chord's positive side |
| Drawing.SnapKeepsArrow | src/elements/linkClass.js:100-101 | two drags that both snap give the same arrowhead heading |
| Drawing.LabelPlacement | src/elements/linkClass.js:104-119 | a straight label sits at the segment's midpoint, turned by `lineAngleAdjust`. An arc label sits on the circle at the drawn span's middle, up to a turn |
| Drawing.SnapKeepsLabelSide | src/elements/linkClass.js:114-118 | two snapping drags leave the label at the same place, and its angles differ exactly by the half turns for each drag point's side |
| Drawing.ArcLabelOnCircle | src/elements/linkClass.js:110-112 | where the Pythagorean identity holds at the label angle, an arc's label is on its circle |

## Left out

- Canvas calls, `drawArrow` and `drawText` (lines 87-119) are rendering. The model stops at the numbers passed to them.
- `getLabelPosition` (lines 19-21) returns `getAnchorPoint()` unchanged, so `LinkModel.GetAnchorPoint` covers it.
- The `TextElement` base class and the link's `text` are not part of this model.
- `circleFromThreePoints`, `closestPointOnCircle`, `Math.atan2`, `Math.cos`, `Math.sin` and `Math.sqrt` are parameters, not definitions. Properties that need their real behaviour are stated under explicit hypotheses: the Pythagorean identity at the angles used, or a root that squares to its argument.
- IEEE-754 rounding is not modelled; arithmetic is exact over the reals. JavaScript evaluates the code's `dy * perpendicularPart / scale` left to right, as `(dy * perpendicularPart) / scale`; the model computes it as `dy * (perpendicularPart / scale)`, which is equal over the reals.
- Degenerate inputs that give `NaN` or `Infinity` in JavaScript are excluded by preconditions:
  - coincident node centres (zero chord length);
  - a fitted circle of zero radius;
  - a straight segment of zero length in the hit test.
- LinkModel.NewLink: does not state `parallelPart == 0.5` on its own; `LinkModel.NewLinkAnchorIsMidpoint` states what that value means (the anchor at the chord's midpoint).
- Angles.AdjustAngle: the equivalence with the whole-turn condition is stated only for a span shorter than a turn and a probe within a turn of it. The code relies on `Math.atan2`'s range for that, which is not modelled.
- Angles.NormaliseSpan: that the span is not reversed and shorter than a turn is stated only for end angles less than a turn apart, and that it is non-empty only when they also differ. Equal end angles give an empty span.
- HitTest.ArcHit: the exact characterisation is conditional, as for `Angles.AdjustAngle`. Unconditionally it states only the two implications.
- HitTest.ContainsPoint: the arc branch carries the same conditions as `HitTest.ArcHit`.
- Endpoints.ArcEndsOnCircle: holds only where `cos` and `sin` satisfy the Pythagorean identity, because the trigonometric functions are parameters.
- Drawing.ArcLabelOnCircle: the same hypothesis on `cos` and `sin`.
- Endpoints.MirroredEnds: for a curved link it assumes that `circleFromThreePoints` returns the same circle with the two node centres in either order (`FitIgnoresOrder`), because that function is a parameter.
- HitTest.MirroredLinkSameHit: the same hypothesis on `circleFromThreePoints`.
