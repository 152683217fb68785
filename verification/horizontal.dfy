/** Worked instances on the horizontal chord from (0, 0) to (100, 0): the
    drag snap of `setAnchorPoint` and the straight hit test of
    `containsPoint` (src/elements/linkClass.js), in plain coordinates. */
module HorizontalChord {
  import opened Geometry
  import opened LinkModel
  import opened HitTest

  /** 100 is the length of the segment from (0, 0) to (100, 0). */
  lemma HundredChord()
    ensures IsRoot(100.0, Dist2(Point(0.0, 0.0), Point(100.0, 0.0)))
  {
  }

  /** The band around the segment from (0, 0) to (100, 0) in plain
      coordinates. */
  lemma HorizontalBand(x: real, y: real, w: real)
    requires w > 0.0
    ensures InBand(Point(0.0, 0.0), Point(100.0, 0.0), Point(x, y), w)
            <==> 0.0 < x < 100.0 && -w < y < w
  {
    HorizontalAlong(x, y);
    HorizontalAcross(x, y, w);
    InBandParts(Point(0.0, 0.0), Point(100.0, 0.0), Point(x, y), w,
                0.0 < x < 100.0, -w < y < w);
  }

  /** The fraction test of the band around (0, 0)–(100, 0). */
  lemma HorizontalAlong(x: real, y: real)
    ensures var a, b, p := Point(0.0, 0.0), Point(100.0, 0.0), Point(x, y);
            0.0 < Along(a, b, p) < Dist2(a, b) <==> 0.0 < x < 100.0
  {
    HorizontalFrame(x, y);
  }

  /** The distance test of the band around (0, 0)–(100, 0). */
  lemma HorizontalAcross(x: real, y: real, w: real)
    requires w > 0.0
    ensures var a, b, p := Point(0.0, 0.0), Point(100.0, 0.0), Point(x, y);
            Sq(Across(a, b, p)) < Sq(w) * Dist2(a, b) <==> -w < y < w
  {
    var a, b, p := Point(0.0, 0.0), Point(100.0, 0.0), Point(x, y);
    HorizontalSquares(x, y, w);
    LessCongruence(Sq(Across(a, b, p)), Sq(w) * Dist2(a, b), Sq(100.0 * y), Sq(100.0 * w));
    ScaledSqBelow(y, w);
  }

  lemma HorizontalSquares(x: real, y: real, w: real)
    ensures var a, b, p := Point(0.0, 0.0), Point(100.0, 0.0), Point(x, y);
            Sq(Across(a, b, p)) == Sq(100.0 * y) && Sq(w) * Dist2(a, b) == Sq(100.0 * w)
  {
    var a, b, p := Point(0.0, 0.0), Point(100.0, 0.0), Point(x, y);
    HorizontalFrame(x, y);
    SqCongruence(Across(a, b, p), 100.0 * y);
    MulCongruence(Dist2(a, b), 10000.0, Sq(w));
    HundredfoldSq(w);
  }

  lemma HundredfoldSq(w: real)
    ensures Sq(w) * 10000.0 == Sq(100.0 * w)
  {
  }

  /** `|y| < w` compared after scaling by 100. Guarded rather than required,
      so that a call adds no proof obligation to the caller's goal. */
  lemma ScaledSqBelow(y: real, w: real)
    ensures w > 0.0 ==> (Sq(100.0 * y) < Sq(100.0 * w) <==> -w < y < w)
  {
    if w > 0.0 {
      AbsBelowIffSqBelow(100.0 * y, 100.0 * w);
    }
  }

  lemma HorizontalFrame(x: real, y: real)
    ensures Dist2(Point(0.0, 0.0), Point(100.0, 0.0)) == 10000.0 == Sq(100.0)
    ensures Along(Point(0.0, 0.0), Point(100.0, 0.0), Point(x, y)) == 100.0 * x
    ensures Across(Point(0.0, 0.0), Point(100.0, 0.0), Point(x, y)) == 100.0 * y
  {
  }

  /** A new link from (0, 0) to (100, 0) with a snap padding of 10, dragged
      to (x, y): it snaps straight exactly when 0 < x < 100 and |y| < 10,
      then remembering a half turn exactly when y is negative; otherwise
      its anchor sits y pixels off the chord. So a drag to (50, 2) gives a
      straight link with no flip and one to (50, -2) a straight link with a
      half-turn flip. */
  lemma HorizontalSnap(x: real, y: real, cfg: Config)
    requires cfg.Valid() && cfg.snapToPadding == 10.0
    ensures ChordScale(NewLink(Node(0.0, 0.0), Node(100.0, 0.0)), 100.0)
    ensures var r := SetAnchorPoint(NewLink(Node(0.0, 0.0), Node(100.0, 0.0)), Point(x, y), 100.0, cfg);
            && r.parallelPart == x / 100.0
            && (0.0 < x < 100.0 && -10.0 < y < 10.0 ==>
                  r.IsStraight() && r.lineAngleAdjust == (if y < 0.0 then Pi else 0.0))
            && (!(0.0 < x < 100.0 && -10.0 < y < 10.0) ==>
                  r.perpendicularPart == y && r.lineAngleAdjust == 0.0)
  {
    var l := NewLink(Node(0.0, 0.0), Node(100.0, 0.0));
    assert l.A() == Point(0.0, 0.0) && l.B() == Point(100.0, 0.0);
    HundredChord();
    HorizontalBand(x, y, 10.0);
    assert Along(Point(0.0, 0.0), Point(100.0, 0.0), Point(x, y)) == 100.0 * x;
    assert Across(Point(0.0, 0.0), Point(100.0, 0.0), Point(x, y)) == 100.0 * y;
    assert Sq(100.0) == 10000.0;
    assert SnapsToChord(l, Point(x, y), cfg) <==> 0.0 < x < 100.0 && -10.0 < y < 10.0;
  }

  /** A horizontal segment from (0, 0) to (100, 0) with a padding of 8: a
      point is a hit exactly when it lies strictly between the two ends
      horizontally and less than 8 above or below the segment. So (50, 0)
      and (50, 7) are hits while (50, 9) is not, and neither is (-5, 0),
      though it lies on the segment's line. */
  lemma HorizontalSegmentHit(x: real, y: real)
    ensures IsRoot(100.0, Dist2(Point(0.0, 0.0), Point(100.0, 0.0)))
    ensures StraightHit(Point(0.0, 0.0), Point(100.0, 0.0), Point(x, y), 100.0, 8.0)
            <==> 0.0 < x < 100.0 && -8.0 < y < 8.0
  {
    HundredChord();
    HorizontalBand(x, y, 8.0);
  }
}
