/** What `draw` computes before it calls the canvas
    (src/elements/linkClass.js): the heading of the arrowhead and the point
    and angle at which the link's text is drawn. The canvas calls themselves
    are not modelled. */
module Drawing {
  import opened Geometry
  import opened LinkModel
  import opened Angles
  import opened Endpoints

  datatype Label = Label(position: Point, angle: real)

  /** A straight link's label sits at the middle of the drawn segment,
      turned by `lineAngleAdjust` from the segment's normal direction. A
      curved link's label sits on the circle in the direction that bisects
      the arc actually drawn (up to a whole turn), whichever way it is
      drawn. */
  function LabelPlacement(l: Link, cfg: Config, ext: Externals, scale: real): (lb: Label)
    requires cfg.Valid()
    requires !l.IsStraight() ==> ArcFits(l, ext, scale)
    ensures var e := GetEndPointsAndCircle(l, cfg, ext, scale);
            e.Straight? ==>
              && lb.position == Midpoint(e.startPoint, e.endPoint)
              && lb.angle - l.lineAngleAdjust
                 == ext.atan2(e.endPoint.x - e.startPoint.x, e.startPoint.y - e.endPoint.y)
    ensures var e := GetEndPointsAndCircle(l, cfg, ext, scale);
            e.Arc? ==>
              && lb.position == ext.PointAt(e.circle, lb.angle)
              && (e.startAngle != e.endAngle ==>
                    var sp := NormaliseSpan(e.startAngle, e.endAngle, e.isReversed);
                    lb.angle == sp.Mid() || lb.angle == sp.Mid() + TwoPi)
  {
    match GetEndPointsAndCircle(l, cfg, ext, scale)
    case Straight(s, t) =>
      Label(Midpoint(s, t), ext.atan2(t.x - s.x, s.y - t.y) + l.lineAngleAdjust)
    case Arc(_, _, startAngle, endAngle, circle, _, isReversed) =>
      var angle := ArcLabelAngle(startAngle, endAngle, isReversed);
      Label(ext.PointAt(circle, angle), angle)
  }

  /** The heading of the arrowhead drawn at the end of the link: along the
      segment for a straight link; for a curved one, a quarter turn off the
      end's radius, turned back from the end angle for an arc drawn
      anticlockwise and forward for one drawn clockwise, so that the head
      points along the arc's tangent in the drawing direction. */
  function ArrowAngle(l: Link, cfg: Config, ext: Externals, scale: real): (a: real)
    requires cfg.Valid()
    requires !l.IsStraight() ==> ArcFits(l, ext, scale)
    ensures var e := GetEndPointsAndCircle(l, cfg, ext, scale);
            e.Straight? ==> a == ext.Bearing(e.startPoint, e.endPoint)
    ensures var e := GetEndPointsAndCircle(l, cfg, ext, scale);
            e.Arc? ==>
              && Abs(a - e.endAngle) == Pi / 2.0
              && (a < e.endAngle <==> e.isReversed)
  {
    match GetEndPointsAndCircle(l, cfg, ext, scale)
    case Straight(s, t) =>
      ext.atan2(t.y - s.y, t.x - s.x)
    case Arc(_, _, _, endAngle, _, reverseScale, _) =>
      endAngle - reverseScale * (Pi / 2.0)
  }

  /** After a drag that leaves the link curved, its arrowhead is turned back
      from the end angle exactly when the drag point lies on the positive
      side of the chord, the side to which the arc then bows. */
  lemma ArrowAfterDrag(l: Link, p: Point, scale: real, cfg: Config, ext: Externals)
    requires ChordScale(l, scale) && cfg.Valid()
    requires var r := SetAnchorPoint(l, p, scale, cfg);
             !r.IsStraight() ==> ArcFits(r, ext, scale)
    ensures var r := SetAnchorPoint(l, p, scale, cfg);
            var e := GetEndPointsAndCircle(r, cfg, ext, scale);
            e.Arc? ==> (ArrowAngle(r, cfg, ext, scale) < e.endAngle <==> Across(l.A(), l.B(), p) > 0.0)
  {
    DragShape(l, p, scale, cfg, ext);
  }

  /** Two drags that both snap give the same arrowhead heading: the drawn
      segment does not depend on where on the band the point was dropped. */
  lemma SnapKeepsArrow(l: Link, p: Point, q: Point, scale: real,
                                          cfg: Config, ext: Externals)
    requires ChordScale(l, scale) && cfg.Valid()
    requires SnapsToChord(l, p, cfg) && SnapsToChord(l, q, cfg)
    ensures ArrowAngle(SetAnchorPoint(l, p, scale, cfg), cfg, ext, scale)
            == ArrowAngle(SetAnchorPoint(l, q, scale, cfg), cfg, ext, scale)
  {
    var rp := SetAnchorPoint(l, p, scale, cfg);
    var rq := SetAnchorPoint(l, q, scale, cfg);
    StraightEndsIgnoreAnchor(rp, rq, cfg, ext, scale);
  }

  /** Two drags that both snap leave the label at the same place, and its
      angles differ exactly by the half turns recording which side of the
      chord each drag point was on. */
  lemma SnapKeepsLabelSide(l: Link, p: Point, q: Point, scale: real,
                                             cfg: Config, ext: Externals)
    requires ChordScale(l, scale) && cfg.Valid()
    requires SnapsToChord(l, p, cfg) && SnapsToChord(l, q, cfg)
    ensures var lp := LabelPlacement(SetAnchorPoint(l, p, scale, cfg), cfg, ext, scale);
            var lq := LabelPlacement(SetAnchorPoint(l, q, scale, cfg), cfg, ext, scale);
            && lp.position == lq.position
            && lp.angle - lq.angle == SnapFlip(l, p) - SnapFlip(l, q)
  {
    var rp := SetAnchorPoint(l, p, scale, cfg);
    var rq := SetAnchorPoint(l, q, scale, cfg);
    StraightEndsIgnoreAnchor(rp, rq, cfg, ext, scale);
  }

  /** With `cos` and `sin` obeying the Pythagorean identity at the label's
      angle, a curved link's label lies on its circle. */
  lemma ArcLabelOnCircle(l: Link, cfg: Config, ext: Externals, scale: real)
    requires cfg.Valid() && !l.IsStraight() && ArcFits(l, ext, scale)
    requires ext.UnitAt(LabelPlacement(l, cfg, ext, scale).angle)
    ensures var e := GetEndPointsAndCircle(l, cfg, ext, scale);
            Dist2(e.circle.center, LabelPlacement(l, cfg, ext, scale).position) == Sq(e.circle.radius)
  {
    var e := GetEndPointsAndCircle(l, cfg, ext, scale);
    PointAtOnCircle(ext, e.circle, LabelPlacement(l, cfg, ext, scale).angle);
  }
}
