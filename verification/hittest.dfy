/** Whether a screen point selects a link (`containsPoint` in
    src/elements/linkClass.js): within `hitTargetPadding` of the open
    segment for a straight link, within that distance of the circle and
    inside the drawn angular span for a curved one. */
module HitTest {
  import opened Geometry
  import opened LinkModel
  import opened Angles
  import opened Endpoints

  /** The straight branch, computed as the code does, by dividing by the
      segment's length `len` (the value `Math.sqrt(dx*dx + dy*dy)` stands
      for). It holds exactly when `p` lies in the band of half-width `pad`
      around the open segment. */
  function StraightHit(s: Point, e: Point, p: Point, len: real, pad: real): (hit: bool)
    requires len > 0.0 && IsRoot(len, Dist2(s, e)) && pad > 0.0
    ensures hit <==> InBand(s, e, p, pad)
  {
    SqPositive(len);
    BandByDivision(s, e, p, len, pad);
    var percent := Along(s, e, p) / Sq(len);
    var distance := Across(s, e, p) / len;
    percent > 0.0 && percent < 1.0 && Abs(distance) < pad
  }

  /** `p` is less than `pad` from the circle of centre `c` and radius
      `radius`, stated without square roots. */
  predicate InRing(c: Point, radius: real, pad: real, p: Point) {
    && Dist2(c, p) < Sq(radius + pad)
    && (radius < pad || Sq(radius - pad) < Dist2(c, p))
  }

  /** The radial test the code performs on the root of the squared distance
      agrees with `InRing`. */
  lemma RingByRoot(c: Point, radius: real, pad: real, p: Point, root: real)
    requires radius > 0.0 && pad > 0.0 && IsRoot(root, Dist2(c, p))
    ensures Abs(root - radius) < pad <==> InRing(c, radius, pad, p)
  {
    SqBelowIff(root, radius + pad);
    if radius >= pad {
      SqBelowIff(radius - pad, root);
    }
  }

  lemma SqBelowIff(a: real, b: real)
    requires a >= 0.0 && b >= 0.0
    ensures a < b <==> Sq(a) < Sq(b)
  {
    if a < b {
      SqMonotone(a, b);
    } else if b < a {
      SqMonotone(b, a);
    }
  }

  /** The curved branch. `root` stands for `Math.sqrt(dx*dx + dy*dy)`, the
      distance of `p` from the centre. A hit lies in the ring around the
      circle and, after the one-turn adjustment, strictly inside the span
      the arc is drawn over. When that span is shorter than a turn and the
      bearing of `p` is within a turn of it, a hit is exactly a point of the
      ring some whole-turn representative of whose bearing lies in the span. */
  function ArcHit(c: Circle, startAngle: real, endAngle: real, isReversed: bool,
                  p: Point, root: real, pad: real, ext: Externals): (hit: bool)
    requires c.radius > 0.0 && pad > 0.0 && IsRoot(root, Dist2(c.center, p))
    ensures hit ==> InRing(c.center, c.radius, pad, p)
    ensures var sp := NormaliseSpan(startAngle, endAngle, isReversed);
            hit ==> sp.Contains(AdjustAngle(ext.Bearing(c.center, p), sp))
    ensures var sp := NormaliseSpan(startAngle, endAngle, isReversed);
            var a := ext.Bearing(c.center, p);
            sp.WithinTurn() && sp.lo - TwoPi < a < sp.hi + TwoPi ==>
              (hit <==> InRing(c.center, c.radius, pad, p) && InSpanModTurn(a, sp))
  {
    RingByRoot(c.center, c.radius, pad, p, root);
    var distance := root - c.radius;
    if Abs(distance) < pad then
      var angle := ext.atan2(p.y - c.center.y, p.x - c.center.x);
      var sp := NormaliseSpan(startAngle, endAngle, isReversed);
      sp.Contains(AdjustAngle(angle, sp))
    else
      false
  }

  /** The square root `containsPoint` takes in the branch it runs: the
      segment's length for a straight link, the distance of `p` from the
      centre for a curved one. */
  predicate BranchRoot(e: Ends, p: Point, root: real) {
    match e
    case Straight(s, t) => root > 0.0 && IsRoot(root, Dist2(s, t))
    case Arc(_, _, _, _, circle, _, _) => IsRoot(root, Dist2(circle.center, p))
  }

  /** Whether `p` selects the link. */
  function ContainsPoint(l: Link, p: Point, cfg: Config, ext: Externals, scale: real, root: real): (hit: bool)
    requires cfg.Valid()
    requires !l.IsStraight() ==> ArcFits(l, ext, scale)
    requires BranchRoot(GetEndPointsAndCircle(l, cfg, ext, scale), p, root)
    ensures var e := GetEndPointsAndCircle(l, cfg, ext, scale);
            e.Straight? ==> (hit <==> InBand(e.startPoint, e.endPoint, p, cfg.hitTargetPadding))
    ensures var e := GetEndPointsAndCircle(l, cfg, ext, scale);
            e.Arc? ==> (hit ==> InRing(e.circle.center, e.circle.radius, cfg.hitTargetPadding, p))
    ensures var e := GetEndPointsAndCircle(l, cfg, ext, scale);
            e.Arc? ==>
              var sp := NormaliseSpan(e.startAngle, e.endAngle, e.isReversed);
              var a := ext.Bearing(e.circle.center, p);
              sp.WithinTurn() && sp.lo - TwoPi < a < sp.hi + TwoPi ==>
                (hit <==> InRing(e.circle.center, e.circle.radius, cfg.hitTargetPadding, p)
                          && InSpanModTurn(a, sp))
  {
    var e := GetEndPointsAndCircle(l, cfg, ext, scale);
    match e
    case Straight(s, t) =>
      StraightHit(s, t, p, root, cfg.hitTargetPadding)
    case Arc(_, _, startAngle, endAngle, circle, _, isReversed) =>
      ArcHit(circle, startAngle, endAngle, isReversed, p, root, cfg.hitTargetPadding, ext)
  }

  /** A link described from the other end (`Mirrored`) selects exactly the
      points the link does, given that `circleFromThreePoints` does not
      depend on the order of the two node centres. */
  lemma MirroredLinkSameHit(l: Link, p: Point, cfg: Config, ext: Externals, scale: real, root: real)
    requires cfg.Valid()
    requires !l.IsStraight() ==> ArcFits(l, ext, scale) && FitIgnoresOrder(l, ext, scale)
    requires BranchRoot(GetEndPointsAndCircle(l, cfg, ext, scale), p, root)
    ensures !Mirrored(l).IsStraight() ==> ArcFits(Mirrored(l), ext, scale)
    ensures BranchRoot(GetEndPointsAndCircle(Mirrored(l), cfg, ext, scale), p, root)
    ensures ContainsPoint(Mirrored(l), p, cfg, ext, scale, root)
            == ContainsPoint(l, p, cfg, ext, scale, root)
  {
    MirroredEnds(l, cfg, ext, scale);
    var e := GetEndPointsAndCircle(l, cfg, ext, scale);
    if e.Straight? {
      SqDifferenceSymmetric(e.startPoint.x, e.endPoint.x);
      SqDifferenceSymmetric(e.startPoint.y, e.endPoint.y);
      ReversedBand(e.startPoint, e.endPoint, p, cfg.hitTargetPadding);
    }
  }
}
