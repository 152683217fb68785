/** The persistent state of a link and the two conversions between its
    stored parameters and a screen point (src/elements/linkClass.js). */
module LinkModel {
  import opened Geometry

  /** The part of a node the link reads: its centre. */
  datatype Node = Node(x: real, y: real) {
    function Center(): Point {
      Point(x, y)
    }
  }

  /** The host's fixed pixel constants. */
  datatype Config = Config(nodeRadius: real, snapToPadding: real, hitTargetPadding: real) {
    predicate Valid() {
      nodeRadius > 0.0 && snapToPadding > 0.0 && hitTargetPadding > 0.0
    }
  }

  /** A directed link from `nodeA` to `nodeB`. Its anchor sits at fraction
      `parallelPart` along the chord and `perpendicularPart` pixels off it;
      `perpendicularPart == 0` is what makes the link a straight segment.
      `lineAngleAdjust` is added to the label angle of a straight link. */
  datatype Link = Link(
    nodeA: Node,
    nodeB: Node,
    lineAngleAdjust: real,
    parallelPart: real,
    perpendicularPart: real)
  {
    function A(): Point {
      nodeA.Center()
    }

    function B(): Point {
      nodeB.Center()
    }

    predicate IsStraight() {
      perpendicularPart == 0.0
    }
  }

  /** JavaScript's coercion of a boolean to a number (`true * x == x`). */
  function BoolAsNumber(b: bool): (n: real)
    ensures n == 0.0 || n == 1.0
    ensures n == 1.0 <==> b
  {
    if b then 1.0 else 0.0
  }

  /** `scale` is the (positive) length of the chord from `nodeA` to `nodeB`,
      the value `Math.sqrt(dx * dx + dy * dy)` stands for. */
  predicate ChordScale(l: Link, scale: real) {
    scale > 0.0 && IsRoot(scale, Dist2(l.A(), l.B()))
  }

  /** `ChordScale` admits exactly one value, the chord's length, so passing
      the code's `Math.sqrt` result in as a parameter fixes it completely. */
  lemma ChordScaleUnique(l: Link, s: real, s': real)
    requires ChordScale(l, s) && ChordScale(l, s')
    ensures s == s'
  {
    RootUnique(s, s', Dist2(l.A(), l.B()));
  }

  /** The link a completed drag creates: anchored at the chord's midpoint,
      on the chord itself. */
  function NewLink(a: Node, b: Node): (l: Link)
    ensures l.nodeA == a && l.nodeB == b
    ensures l.IsStraight()
    ensures l.lineAngleAdjust == 0.0
  {
    Link(a, b, 0.0, 0.5, 0.0)
  }

  /** Pure-arithmetic core of the anchor projection. */
  lemma AnchorOffsets(dx: real, dy: real, t: real, w: real, ex: real, ey: real)
    requires ex == dx * t - dy * w
    requires ey == dy * t + dx * w
    ensures dx * ex + dy * ey == (dx * dx + dy * dy) * t
    ensures dx * ey - dy * ex == (dx * dx + dy * dy) * w
  {
  }

  /** The screen point the stored parameters describe. Its chord-frame
      coordinates are exactly the stored ones: it projects at fraction
      `parallelPart` of the chord and lies `perpendicularPart` pixels off it. */
  function GetAnchorPoint(l: Link, scale: real): (p: Point)
    requires ChordScale(l, scale)
    ensures Along(l.A(), l.B(), p) == l.parallelPart * Sq(scale)
    ensures Across(l.A(), l.B(), p) == l.perpendicularPart * scale
  {
    AnchorFrame(l.A(), l.B(), l.parallelPart, l.perpendicularPart, scale);
    Offset(l.A(), l.B(), l.parallelPart, l.perpendicularPart / scale)
  }

  /** The point `t` of the way along `a -> b` and `w` chord lengths off it
      (for `w` the perpendicular offset divided by the chord length). */
  function Offset(a: Point, b: Point, t: real, w: real): Point {
    Point(a.x + (b.x - a.x) * t - (b.y - a.y) * w,
          a.y + (b.y - a.y) * t + (b.x - a.x) * w)
  }

  lemma AnchorFrame(a: Point, b: Point, t: real, u: real, scale: real)
    requires scale > 0.0 && Sq(scale) == Dist2(a, b)
    ensures Along(a, b, Offset(a, b, t, u / scale)) == t * Sq(scale)
    ensures Across(a, b, Offset(a, b, t, u / scale)) == u * scale
  {
    AnchorAlong(a, b, t, u / scale, scale);
    AnchorAcross(a, b, t, u, scale);
  }

  lemma AnchorAlong(a: Point, b: Point, t: real, w: real, scale: real)
    requires Sq(scale) == Dist2(a, b)
    ensures Along(a, b, Offset(a, b, t, w)) == t * Sq(scale)
  {
    var p := Offset(a, b, t, w);
    var dx, dy := b.x - a.x, b.y - a.y;
    var ex, ey := p.x - a.x, p.y - a.y;
    AnchorOffsets(dx, dy, t, w, ex, ey);
    SumOfSquares(a, b);
    calc {
      Along(a, b, p);
    ==
      dx * ex + dy * ey;
    ==
      (dx * dx + dy * dy) * t;
    ==
      t * Sq(scale);
    }
  }

  lemma AnchorAcross(a: Point, b: Point, t: real, u: real, scale: real)
    requires scale > 0.0 && Sq(scale) == Dist2(a, b)
    ensures Across(a, b, Offset(a, b, t, u / scale)) == u * scale
  {
    OffsetAcross(a, b, t, u / scale);
    QuotientTimesSq(Dist2(a, b), u, scale);
  }

  /** The offset point lies `w` chord lengths off the chord. */
  lemma OffsetAcross(a: Point, b: Point, t: real, w: real)
    ensures Across(a, b, Offset(a, b, t, w)) == Dist2(a, b) * w
  {
    var p := Offset(a, b, t, w);
    AnchorOffsets(b.x - a.x, b.y - a.y, t, w, p.x - a.x, p.y - a.y);
    SumOfSquares(a, b);
  }

  /** `d * (u / s) == u * s` for `d == s * s`. Guarded rather than required,
      so that a call adds no proof obligation to the caller's nonlinear goal. */
  lemma QuotientTimesSq(d: real, u: real, s: real)
    ensures s > 0.0 && d == Sq(s) ==> d * (u / s) == u * s
  {
    if s > 0.0 && d == Sq(s) {
      assert (u / s) * s == u;
      assert (s * s) * (u / s) == ((u / s) * s) * s;
    }
  }

  lemma SumOfSquares(a: Point, b: Point)
    ensures Dist2(a, b) == (b.x - a.x) * (b.x - a.x) + (b.y - a.y) * (b.y - a.y)
  {
  }

  /** The drag point `p` is within `snapToPadding` of the open chord, the
      condition under which `SetAnchorPoint` snaps the link straight. */
  predicate SnapsToChord(l: Link, p: Point, cfg: Config) {
    InBand(l.A(), l.B(), p, cfg.snapToPadding)
  }

  /** The half turn `SetAnchorPoint` records on a snap: the side of the
      chord the drag point was on. */
  function SnapFlip(l: Link, p: Point): real {
    if Across(l.A(), l.B(), p) < 0.0 then Pi else 0.0
  }

  /** Moves the anchor to the screen point `p`: its chord-frame coordinates
      become the stored parameters, unless `p` is near enough to the chord,
      in which case the link snaps straight and remembers on which side of
      the chord `p` was. */
  function SetAnchorPoint(l: Link, p: Point, scale: real, cfg: Config): (r: Link)
    requires ChordScale(l, scale)
    requires cfg.Valid()
    ensures r.nodeA == l.nodeA && r.nodeB == l.nodeB
    ensures r.parallelPart * Sq(scale) == Along(l.A(), l.B(), p)
    ensures SnapsToChord(l, p, cfg) ==>
              && r.IsStraight()
              && 0.0 < r.parallelPart < 1.0
              && r.lineAngleAdjust == SnapFlip(l, p)
    ensures !SnapsToChord(l, p, cfg) ==>
              && r.perpendicularPart * scale == Across(l.A(), l.B(), p)
              && r.lineAngleAdjust == l.lineAngleAdjust
  {
    SqPositive(scale);
    var along, across := Along(l.A(), l.B(), p), Across(l.A(), l.B(), p);
    var parallel := along / Sq(scale);
    var perpendicular := across / scale;
    BandByDivision(l.A(), l.B(), p, scale, cfg.snapToPadding);
    DivBelowIff(across, scale, 0.0);
    if parallel > 0.0 && parallel < 1.0 && Abs(perpendicular) < cfg.snapToPadding then
      l.(lineAngleAdjust := BoolAsNumber(perpendicular < 0.0) * Pi,
         parallelPart := parallel,
         perpendicularPart := 0.0)
    else
      l.(parallelPart := parallel, perpendicularPart := perpendicular)
  }

  lemma ChordScaleSeparatesNodes(l: Link, scale: real)
    requires ChordScale(l, scale)
    ensures l.A() != l.B()
  {
    SqPositive(scale);
    SamePointZeroDistance(l.A());
  }

  /** Where the anchor ends up after `SetAnchorPoint`, in chord-frame
      coordinates: at the drag point's fraction of the chord, and either at
      its distance from the chord or, after a snap, on the chord. */
  lemma AnchorAfterSet(l: Link, p: Point, scale: real, cfg: Config)
    requires ChordScale(l, scale) && cfg.Valid()
    ensures var q := GetAnchorPoint(SetAnchorPoint(l, p, scale, cfg), scale);
            && Along(l.A(), l.B(), q) == Along(l.A(), l.B(), p)
            && (SnapsToChord(l, p, cfg) ==> Across(l.A(), l.B(), q) == 0.0)
            && (!SnapsToChord(l, p, cfg) ==> Across(l.A(), l.B(), q) == Across(l.A(), l.B(), p))
  {
    AlongAfterSet(l, p, scale, cfg);
    AcrossAfterSet(l, p, scale, cfg);
  }

  lemma AlongAfterSet(l: Link, p: Point, scale: real, cfg: Config)
    requires ChordScale(l, scale) && cfg.Valid()
    ensures Along(l.A(), l.B(), GetAnchorPoint(SetAnchorPoint(l, p, scale, cfg), scale))
            == Along(l.A(), l.B(), p)
  {
    var r := SetAnchorPoint(l, p, scale, cfg);
    assert r.A() == l.A() && r.B() == l.B();
  }

  lemma AcrossAfterSet(l: Link, p: Point, scale: real, cfg: Config)
    requires ChordScale(l, scale) && cfg.Valid()
    ensures var q := GetAnchorPoint(SetAnchorPoint(l, p, scale, cfg), scale);
            && (SnapsToChord(l, p, cfg) ==> Across(l.A(), l.B(), q) == 0.0)
            && (!SnapsToChord(l, p, cfg) ==> Across(l.A(), l.B(), q) == Across(l.A(), l.B(), p))
  {
    var r := SetAnchorPoint(l, p, scale, cfg);
    assert r.A() == l.A() && r.B() == l.B();
  }

  lemma AnchorRoundTrip(l: Link, p: Point, scale: real, cfg: Config)
    requires ChordScale(l, scale) && cfg.Valid()
    requires !SnapsToChord(l, p, cfg)
    ensures GetAnchorPoint(SetAnchorPoint(l, p, scale, cfg), scale) == p
  {
    var q := GetAnchorPoint(SetAnchorPoint(l, p, scale, cfg), scale);
    AnchorAfterSet(l, p, scale, cfg);
    ChordScaleSeparatesNodes(l, scale);
    FrameInjective(l.A(), l.B(), q, p);
  }

  /** Snapping moves the anchor onto the chord, to the foot of the
      perpendicular from the drag point, which is less than `snapToPadding`
      away from it. */
  lemma SnapLandsOnChord(l: Link, p: Point, scale: real, cfg: Config)
    requires ChordScale(l, scale) && cfg.Valid()
    requires SnapsToChord(l, p, cfg)
    ensures var q := GetAnchorPoint(SetAnchorPoint(l, p, scale, cfg), scale);
            && Across(l.A(), l.B(), q) == 0.0
            && Along(l.A(), l.B(), q) == Along(l.A(), l.B(), p)
            && Dist2(q, p) < Sq(cfg.snapToPadding)
  {
    var a, b := l.A(), l.B();
    var q := GetAnchorPoint(SetAnchorPoint(l, p, scale, cfg), scale);
    AnchorAfterSet(l, p, scale, cfg);
    ChordWithinBand(a, b, p, q, cfg.snapToPadding);
  }

  /** A point of the chord's line with the same projection as a point of the
      band lies less than the band's half-width from it. */
  lemma ChordWithinBand(a: Point, b: Point, p: Point, q: Point, w: real)
    requires InBand(a, b, p, w)
    requires Along(a, b, q) == Along(a, b, p) && Across(a, b, q) == 0.0
    ensures Dist2(q, p) < Sq(w)
  {
    FrameDistance(a, b, p, q);
    FootBelow(Along(a, b, p) - Along(a, b, q), Across(a, b, p) - Across(a, b, q),
              Sq(w), Dist2(a, b), Dist2(q, p));
  }

  /** The arithmetic core of `ChordWithinBand`. */
  lemma FootBelow(s: real, t: real, c: real, d: real, e: real)
    requires d > 0.0 && s == 0.0 && Sq(s) + Sq(t) == d * e && Sq(t) < c * d
    ensures e < c
  {
    assert Sq(s) == 0.0;
    MulBelowIff(e, c, d);
  }

  /** Dragging the anchor to the middle of the chord gives a straight link at
      fraction one half with the label on its default side. */
  lemma MidpointDragIsStraight(l: Link, scale: real, cfg: Config)
    requires ChordScale(l, scale) && cfg.Valid()
    ensures SetAnchorPoint(l, Midpoint(l.A(), l.B()), scale, cfg)
            == l.(lineAngleAdjust := 0.0, parallelPart := 0.5, perpendicularPart := 0.0)
  {
    var m := Midpoint(l.A(), l.B());
    MidpointSnaps(l, scale, cfg);
    var r := SetAnchorPoint(l, m, scale, cfg);
    HalfFraction(r.parallelPart, Along(l.A(), l.B(), m), Sq(scale));
  }

  /** The midpoint of the chord is inside every snap band around it. */
  lemma MidpointSnaps(l: Link, scale: real, cfg: Config)
    requires ChordScale(l, scale) && cfg.Valid()
    ensures SnapsToChord(l, Midpoint(l.A(), l.B()), cfg)
    ensures Along(l.A(), l.B(), Midpoint(l.A(), l.B())) == Sq(scale) / 2.0
    ensures Across(l.A(), l.B(), Midpoint(l.A(), l.B())) == 0.0
  {
    var a, b := l.A(), l.B();
    var d := Dist2(a, b);
    ChordScaleSeparatesNodes(l, scale);
    DistinctPointsApart(a, b);
    MidpointFrame(a, b);
    SqPositive(cfg.snapToPadding);
    ProductPositive(Sq(cfg.snapToPadding), d);
    assert Sq(0.0) == 0.0;
  }

  lemma HalfFraction(t: real, v: real, n: real)
    requires n > 0.0 && v == n / 2.0 && t * n == v
    ensures t == 0.5
  {
    MulCancel(t, 0.5, n);
  }

  /** The shape a drag leaves: the link is straight exactly when the drag
      point snapped or lies on the chord's line, and it bows to the positive
      side exactly when the drag point did not snap and lies on that side. */
  lemma SetAnchorSide(l: Link, p: Point, scale: real, cfg: Config)
    requires ChordScale(l, scale) && cfg.Valid()
    ensures var r := SetAnchorPoint(l, p, scale, cfg);
            && (r.IsStraight() <==> SnapsToChord(l, p, cfg) || Across(l.A(), l.B(), p) == 0.0)
            && (r.perpendicularPart > 0.0 <==> !SnapsToChord(l, p, cfg) && Across(l.A(), l.B(), p) > 0.0)
  {
    var r := SetAnchorPoint(l, p, scale, cfg);
    if !SnapsToChord(l, p, cfg) {
      ProductSign(r.perpendicularPart, scale);
    }
  }

  lemma ProductSign(x: real, s: real)
    requires s > 0.0
    ensures x * s > 0.0 <==> x > 0.0
    ensures x * s == 0.0 <==> x == 0.0
  {
    if x > 0.0 {
      ProductPositive(x, s);
    } else if x < 0.0 {
      ProductPositive(-x, s);
    }
  }

  /** A new link's anchor is the midpoint of the two node centres. */
  lemma NewLinkAnchorIsMidpoint(a: Node, b: Node, scale: real)
    requires ChordScale(NewLink(a, b), scale)
    ensures GetAnchorPoint(NewLink(a, b), scale) == Midpoint(a.Center(), b.Center())
  {
  }

  /** A drag keeps `lineAngleAdjust` to the two values the code ever gives
      it: no turn or a half turn. */
  lemma FlipStaysHalfTurn(l: Link, p: Point, scale: real, cfg: Config)
    requires ChordScale(l, scale) && cfg.Valid()
    ensures l.lineAngleAdjust in {0.0, Pi} ==>
              SetAnchorPoint(l, p, scale, cfg).lineAngleAdjust in {0.0, Pi}
  {
  }

  /** The same link described from the other end: the nodes swapped,
      `parallelPart` complemented and `perpendicularPart` negated. */
  function Mirrored(l: Link): Link {
    l.(nodeA := l.nodeB, nodeB := l.nodeA,
       parallelPart := 1.0 - l.parallelPart,
       perpendicularPart := -l.perpendicularPart)
  }

  /** Describing a link from the other end leaves its anchor where it was. */
  lemma MirroredLinkSameAnchor(l: Link, scale: real)
    requires ChordScale(l, scale)
    ensures var m := Mirrored(l);
            && ChordScale(m, scale)
            && GetAnchorPoint(m, scale) == GetAnchorPoint(l, scale)
  {
    SqDifferenceSymmetric(l.A().x, l.B().x);
    SqDifferenceSymmetric(l.A().y, l.B().y);
    NegatedQuotient(l.perpendicularPart, scale);
    OffsetMirror(l.A(), l.B(), l.parallelPart, l.perpendicularPart / scale);
  }

  /** `Offset` measured from the other end of the chord. */
  lemma OffsetMirror(a: Point, b: Point, t: real, w: real)
    ensures Offset(b, a, 1.0 - t, -w) == Offset(a, b, t, w)
  {
    MirrorCoordinates(a.x, a.y, b.x, b.y, t, w);
  }

  lemma MirrorCoordinates(x0: real, y0: real, x1: real, y1: real, t: real, w: real)
    ensures x1 + (x0 - x1) * (1.0 - t) - (y0 - y1) * (-w) == x0 + (x1 - x0) * t - (y1 - y0) * w
    ensures y1 + (y0 - y1) * (1.0 - t) + (x0 - x1) * (-w) == y0 + (y1 - y0) * t + (x1 - x0) * w
  {
    Distribute(x0 - x1, t);
    Distribute(y0 - y1, t);
    Distribute(y0 - y1, w);
    Distribute(x0 - x1, w);
  }

  lemma Distribute(c: real, t: real)
    ensures c * (1.0 - t) == c - c * t
    ensures c * (-t) == (-c) * t
  {
  }
}
