/** Where a link's drawn curve starts and ends (`getEndPointsAndCircle` in
    src/elements/linkClass.js): a segment between the two node boundaries
    for a straight link, otherwise an arc of the circle through both node
    centres and the anchor, trimmed by the node radius at both ends. */
module Endpoints {
  import opened Geometry
  import opened LinkModel

  datatype Circle = Circle(center: Point, radius: real)

  /** The functions the link calls but does not define, taken as given:
      the host's `Math.atan2` (arguments `y` then `x`), `Math.cos` and
      `Math.sin`, the node's `closestPointOnCircle` and the global
      `circleFromThreePoints`. */
  datatype Externals = Externals(
    atan2: (real, real) -> real,
    cos: real -> real,
    sin: real -> real,
    closestPointOnCircle: (Node, Point) -> Point,
    circleFromThreePoints: (Point, Point, Point) -> Circle)
  {
    /** The direction of `p` seen from `c`. */
    function Bearing(c: Point, p: Point): real {
      atan2(p.y - c.y, p.x - c.x)
    }

    /** The point of circle `c` in direction `angle`. */
    function PointAt(c: Circle, angle: real): Point {
      Point(c.center.x + c.radius * cos(angle), c.center.y + c.radius * sin(angle))
    }

    /** `cos` and `sin` satisfy the Pythagorean identity at `angle`. */
    predicate UnitAt(angle: real) {
      Sq(cos(angle)) + Sq(sin(angle)) == 1.0
    }
  }

  /** The value `getEndPointsAndCircle` returns; `Arc?` is its `hasCircle`. */
  datatype Ends =
    | Straight(startPoint: Point, endPoint: Point)
    | Arc(startPoint: Point, endPoint: Point,
          startAngle: real, endAngle: real,
          circle: Circle, reverseScale: real, isReversed: bool)

  /** The circle through both node centres and the anchor. */
  function FittedCircle(l: Link, ext: Externals, scale: real): Circle
    requires ChordScale(l, scale)
  {
    ext.circleFromThreePoints(l.A(), l.B(), GetAnchorPoint(l, scale))
  }

  /** What the curved branch needs to be defined: the chord length the
      anchor is computed from and a fitted circle of positive radius. */
  predicate ArcFits(l: Link, ext: Externals, scale: real) {
    ChordScale(l, scale) && FittedCircle(l, ext, scale).radius > 0.0
  }

  /** The drawn ends of a link. A straight link runs between the points of
      the two node boundaries nearest the chord's midpoint. A curved link
      follows the fitted circle, bowing to the positive side of the chord
      (`isReversed`) exactly when `perpendicularPart` is positive. */
  function GetEndPointsAndCircle(l: Link, cfg: Config, ext: Externals, scale: real): (e: Ends)
    requires cfg.Valid()
    requires !l.IsStraight() ==> ArcFits(l, ext, scale)
    ensures e.Straight? <==> l.IsStraight()
    ensures e.Straight? ==>
              var m := Midpoint(l.A(), l.B());
              && e.startPoint == ext.closestPointOnCircle(l.nodeA, m)
              && e.endPoint == ext.closestPointOnCircle(l.nodeB, m)
    ensures e.Arc? ==>
              && e.circle == FittedCircle(l, ext, scale)
              && (e.isReversed <==> l.perpendicularPart > 0.0)
              && e.reverseScale * l.perpendicularPart > 0.0
              && e == TrimmedArc(e.circle, l.A(), l.B(), e.isReversed, cfg.nodeRadius, ext)
  {
    if l.perpendicularPart == 0.0 then
      var m := Midpoint(l.A(), l.B());
      Straight(ext.closestPointOnCircle(l.nodeA, m), ext.closestPointOnCircle(l.nodeB, m))
    else
      var circle := FittedCircle(l, ext, scale);
      TrimmedArc(circle, l.A(), l.B(), l.perpendicularPart > 0.0, cfg.nodeRadius, ext)
  }

  /** The arc of `circle` from near `a` to near `b`: each end angle is pulled
      off its centre's bearing by `nodeRadius / radius`, so that the arc
      stops at the node boundaries; `reverseScale` is `+1` for an arc drawn
      anticlockwise (`isReversed`) and `-1` otherwise, and both ends lie at
      their angles on the circle. */
  function TrimmedArc(circle: Circle, a: Point, b: Point, isReversed: bool, nodeRadius: real,
                      ext: Externals): (e: Ends)
    requires circle.radius > 0.0
    ensures e.Arc? && e.circle == circle && e.isReversed == isReversed
    ensures e.reverseScale == (if isReversed then 1.0 else -1.0)
    ensures e.startPoint == ext.PointAt(circle, e.startAngle)
    ensures e.endPoint == ext.PointAt(circle, e.endAngle)
  {
    var reverseScale := if isReversed then 1.0 else -1.0;
    var pull := reverseScale * nodeRadius / circle.radius;
    var startAngle := ext.Bearing(circle.center, a) - pull;
    var endAngle := ext.Bearing(circle.center, b) + pull;
    Arc(ext.PointAt(circle, startAngle), ext.PointAt(circle, endAngle),
        startAngle, endAngle, circle, reverseScale, isReversed)
  }

  /** The arc from `b` to `a` drawn the other way round has the end angles
      of the arc from `a` to `b`, swapped. */
  lemma SwappedArc(circle: Circle, a: Point, b: Point, isReversed: bool, nodeRadius: real,
                   ext: Externals)
    requires circle.radius > 0.0
    ensures var e := TrimmedArc(circle, a, b, isReversed, nodeRadius, ext);
            var f := TrimmedArc(circle, b, a, !isReversed, nodeRadius, ext);
            f.startAngle == e.endAngle && f.endAngle == e.startAngle
  {
    var reverseScale := if isReversed then 1.0 else -1.0;
    assert (-reverseScale) * nodeRadius == -(reverseScale * nodeRadius);
    NegatedQuotient(reverseScale * nodeRadius, circle.radius);
  }

  /** `circleFromThreePoints` gives the same circle with the two node
      centres in either order, as the circle through three points does. */
  predicate FitIgnoresOrder(l: Link, ext: Externals, scale: real)
    requires ChordScale(l, scale)
  {
    ext.circleFromThreePoints(l.B(), l.A(), GetAnchorPoint(l, scale)) == FittedCircle(l, ext, scale)
  }

  /** The link described from the other end (`Mirrored`) is drawn over the
      same ends: a segment with its two ends swapped, or an arc of the same
      circle drawn the other way round between the same two angles. */
  lemma MirroredEnds(l: Link, cfg: Config, ext: Externals, scale: real)
    requires cfg.Valid()
    requires !l.IsStraight() ==> ArcFits(l, ext, scale) && FitIgnoresOrder(l, ext, scale)
    ensures !Mirrored(l).IsStraight() ==> ArcFits(Mirrored(l), ext, scale)
    ensures var e := GetEndPointsAndCircle(l, cfg, ext, scale);
            var f := GetEndPointsAndCircle(Mirrored(l), cfg, ext, scale);
            && (e.Straight? ==> f == Straight(e.endPoint, e.startPoint))
            && (e.Arc? ==>
                  && f.Arc? && f.circle == e.circle && f.isReversed == !e.isReversed
                  && f.startAngle == e.endAngle && f.endAngle == e.startAngle)
  {
    var m := Mirrored(l);
    if l.IsStraight() {
      assert Midpoint(m.A(), m.B()) == Midpoint(l.A(), l.B());
    } else {
      MirroredLinkSameAnchor(l, scale);
      assert FittedCircle(m, ext, scale) == FittedCircle(l, ext, scale);
      SwappedArc(FittedCircle(l, ext, scale), l.A(), l.B(), l.perpendicularPart > 0.0,
                 cfg.nodeRadius, ext);
    }
  }

  /** Each end angle of an arc is moved off its node centre's bearing by
      the angle that `nodeRadius` pixels of arc subtend, the two moves equal
      and opposite: the start moves by `-reverseScale` times that angle, in
      the direction the arc is drawn, and the end moves back against it. */
  lemma ArcEndsPulledInward(circle: Circle, a: Point, b: Point, isReversed: bool,
                                               nodeRadius: real, ext: Externals)
    requires circle.radius > 0.0
    ensures var e := TrimmedArc(circle, a, b, isReversed, nodeRadius, ext);
            var startMove := e.startAngle - ext.Bearing(circle.center, a);
            var endMove := e.endAngle - ext.Bearing(circle.center, b);
            && startMove * circle.radius == -e.reverseScale * nodeRadius
            && endMove == -startMove
  {
    var e := TrimmedArc(circle, a, b, isReversed, nodeRadius, ext);
    var pull := e.reverseScale * nodeRadius / circle.radius;
    assert e.startAngle - ext.Bearing(circle.center, a) == -pull;
    NegatedPullTimesRadius(e.reverseScale * nodeRadius, circle.radius);
  }

  lemma NegatedPullTimesRadius(v: real, d: real)
    requires d != 0.0
    ensures (-(v / d)) * d == -v
  {
    assert (v / d) * d == v;
  }

  /** Where `cos` and `sin` obey the Pythagorean identity, `PointAt` lies on
      the circle. */
  lemma PointAtOnCircle(ext: Externals, c: Circle, angle: real)
    requires ext.UnitAt(angle)
    ensures Dist2(c.center, ext.PointAt(c, angle)) == Sq(c.radius)
  {
    var p := ext.PointAt(c, angle);
    var cs, sn := ext.cos(angle), ext.sin(angle);
    assert p.x - c.center.x == c.radius * cs;
    assert p.y - c.center.y == c.radius * sn;
    ScaledUnit(c.radius, cs, sn);
  }

  lemma ScaledUnit(r: real, c: real, s: real)
    requires Sq(c) + Sq(s) == 1.0
    ensures Sq(r * c) + Sq(r * s) == Sq(r)
  {
    calc {
      Sq(r * c) + Sq(r * s);
    ==
      (r * r) * (c * c + s * s);
    ==
      (r * r) * (Sq(c) + Sq(s));
    ==
      Sq(r);
    }
  }

  /** Both ends of a curved link lie on its circle. */
  lemma ArcEndsOnCircle(l: Link, cfg: Config, ext: Externals, scale: real)
    requires cfg.Valid() && !l.IsStraight() && ArcFits(l, ext, scale)
    requires var e := GetEndPointsAndCircle(l, cfg, ext, scale);
             ext.UnitAt(e.startAngle) && ext.UnitAt(e.endAngle)
    ensures var e := GetEndPointsAndCircle(l, cfg, ext, scale);
            && Dist2(e.circle.center, e.startPoint) == Sq(e.circle.radius)
            && Dist2(e.circle.center, e.endPoint) == Sq(e.circle.radius)
  {
    var e := GetEndPointsAndCircle(l, cfg, ext, scale);
    PointAtOnCircle(ext, e.circle, e.startAngle);
    PointAtOnCircle(ext, e.circle, e.endAngle);
  }

  /** A straight link's ends depend on its nodes alone. */
  lemma StraightEndsIgnoreAnchor(l: Link, m: Link, cfg: Config, ext: Externals, scale: real)
    requires cfg.Valid() && l.IsStraight() && m.IsStraight()
    requires l.nodeA == m.nodeA && l.nodeB == m.nodeB
    ensures GetEndPointsAndCircle(l, cfg, ext, scale) == GetEndPointsAndCircle(m, cfg, ext, scale)
  {
  }

  /** After a drag to `p`, the link draws as a segment exactly when `p`
      snapped or lies on the chord's line; otherwise it draws as an arc that
      is reversed exactly when `p` lies on the positive side of the chord. */
  lemma DragShape(l: Link, p: Point, scale: real, cfg: Config, ext: Externals)
    requires ChordScale(l, scale) && cfg.Valid()
    requires var r := SetAnchorPoint(l, p, scale, cfg);
             !r.IsStraight() ==> ArcFits(r, ext, scale)
    ensures var e := GetEndPointsAndCircle(SetAnchorPoint(l, p, scale, cfg), cfg, ext, scale);
            && (e.Straight? <==> SnapsToChord(l, p, cfg) || Across(l.A(), l.B(), p) == 0.0)
            && (e.Arc? ==> (e.isReversed <==> Across(l.A(), l.B(), p) > 0.0))
  {
    SetAnchorSide(l, p, scale, cfg);
  }
}
