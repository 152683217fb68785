/** Exact real-valued plane geometry shared by every part of the link model.

    Coordinates are Dafny `real`s, not IEEE doubles. A square root is never
    computed: wherever the code takes `Math.sqrt(v)`, the model receives the
    root as a parameter `r` constrained by `IsRoot(r, v)`.
 */
module Geometry {

  datatype Point = Point(x: real, y: real)

  /** The value of `Math.PI`, written out. */
  const Pi: real := 3.141592653589793

  /** A full turn, computed as `Math.PI * 2` is. */
  const TwoPi: real := Pi * 2.0

  function Abs(v: real): (a: real)
    ensures a >= 0.0
    ensures a == v || a == -v
  {
    if v < 0.0 then -v else v
  }

  function Sq(v: real): real {
    v * v
  }

  /** `r` is the non-negative square root of `v`. */
  predicate IsRoot(r: real, v: real) {
    r >= 0.0 && Sq(r) == v
  }

  function Midpoint(p: Point, q: Point): Point {
    Point((p.x + q.x) / 2.0, (p.y + q.y) / 2.0)
  }

  /** Squared Euclidean distance between `p` and `q`. */
  function Dist2(p: Point, q: Point): real {
    Sq(q.x - p.x) + Sq(q.y - p.y)
  }

  /** Dot product of the chord `a -> b` with the vector `a -> p`:
      `Dist2(a, b)` times the fraction of the chord at which `p` projects. */
  function Along(a: Point, b: Point, p: Point): real {
    (b.x - a.x) * (p.x - a.x) + (b.y - a.y) * (p.y - a.y)
  }

  /** Cross product of the chord `a -> b` with the vector `a -> p`: the length
      of the chord times the signed distance of `p` from the line through
      `a` and `b`, positive on the side the chord's right-hand normal points to. */
  function Across(a: Point, b: Point, p: Point): real {
    (b.x - a.x) * (p.y - a.y) - (b.y - a.y) * (p.x - a.x)
  }

  /** `p` projects strictly inside the segment `a -> b` and lies less than
      `w` from the line through it; stated without square roots. */
  predicate InBand(a: Point, b: Point, p: Point, w: real) {
    && 0.0 < Along(a, b, p) < Dist2(a, b)
    && Sq(Across(a, b, p)) < Sq(w) * Dist2(a, b)
  }

  lemma SqNonnegative(v: real)
    ensures Sq(v) >= 0.0
  {
  }

  lemma SqPositive(v: real)
    requires v != 0.0
    ensures Sq(v) > 0.0
  {
    calc {
      Sq(v);
    ==
      v * v;
    >
      0.0;
    }
  }

  lemma ProductPositive(x: real, y: real)
    requires x > 0.0 && y > 0.0
    ensures x * y > 0.0
  {
  }

  lemma ProductsOrdered(a: real, b: real)
    requires 0.0 <= a < b
    ensures a * a < b * b
  {
    ProductPositive(b - a, b + a);
  }

  /** Squaring is strictly increasing on the non-negative reals. */
  lemma SqMonotone(a: real, b: real)
    requires 0.0 <= a < b
    ensures Sq(a) < Sq(b)
  {
    ProductsOrdered(a, b);
    calc {
      Sq(a);
    ==
      a * a;
    <
      b * b;
    ==
      Sq(b);
    }
  }

  /** For a non-negative bound, an absolute-value bound is a bound on squares. */
  lemma AbsBelowIffSqBelow(v: real, b: real)
    requires b >= 0.0
    ensures Abs(v) < b <==> Sq(v) < Sq(b)
  {
    var a := Abs(v);
    assert Sq(v) == Sq(a);
    if a < b {
      SqMonotone(a, b);
    } else if b < a {
      SqMonotone(b, a);
    }
  }

  /** A square root is determined by its square. */
  lemma RootUnique(r: real, s: real, v: real)
    requires IsRoot(r, v) && IsRoot(s, v)
    ensures r == s
  {
    if r < s {
      SqMonotone(r, s);
    } else if s < r {
      SqMonotone(s, r);
    }
  }

  /** Two distinct points are a positive squared distance apart. */
  lemma DistinctPointsApart(a: Point, b: Point)
    requires a != b
    ensures Dist2(a, b) > 0.0
  {
    SqNonnegative(b.x - a.x);
    SqNonnegative(b.y - a.y);
    if b.x - a.x != 0.0 {
      SqPositive(b.x - a.x);
    } else {
      SqPositive(b.y - a.y);
    }
  }

  /** Equal factors give equal products. */
  lemma MulCongruence(x: real, y: real, z: real)
    requires x == y
    ensures z * x == z * y
  {
  }

  /** Equal sides give the same comparison. Stated with a guarded ensures
      rather than a requires, so that a call adds no proof obligation for
      the solver to weigh against the caller's nonlinear facts. */
  lemma LessCongruence(x: real, y: real, x': real, y': real)
    ensures x == x' && y == y' ==> (x < y <==> x' < y')
  {
  }

  lemma SqCongruence(x: real, y: real)
    requires x == y
    ensures Sq(x) == Sq(y)
  {
  }

  lemma LagrangeProducts(dx: real, dy: real, ex: real, ey: real)
    ensures (dx * ex + dy * ey) * (dx * ex + dy * ey) + (dx * ey - dy * ex) * (dx * ey - dy * ex)
            == (dx * dx + dy * dy) * (ex * ex + ey * ey)
  {
  }

  /** Lagrange's identity for two plane vectors. */
  lemma Lagrange(dx: real, dy: real, ex: real, ey: real)
    ensures Sq(dx * ex + dy * ey) + Sq(dx * ey - dy * ex) == (Sq(dx) + Sq(dy)) * (Sq(ex) + Sq(ey))
  {
    LagrangeProducts(dx, dy, ex, ey);
    var d, e := Sq(dx) + Sq(dy), Sq(ex) + Sq(ey);
    assert d == dx * dx + dy * dy;
    assert e == ex * ex + ey * ey;
    MulCongruence(e, ex * ex + ey * ey, d);
    MulCongruence(d, dx * dx + dy * dy, ex * ex + ey * ey);
  }

  lemma SamePointZeroDistance(p: Point)
    ensures Dist2(p, p) == 0.0
  {
    assert Sq(0.0) == 0.0;
  }

  /** Points at squared distance zero coincide. */
  lemma ZeroDistanceSamePoint(p: Point, q: Point)
    requires Dist2(p, q) == 0.0
    ensures p == q
  {
    SqNonnegative(q.x - p.x);
    SqNonnegative(q.y - p.y);
    if q.x - p.x != 0.0 {
      SqPositive(q.x - p.x);
    } else if q.y - p.y != 0.0 {
      SqPositive(q.y - p.y);
    }
  }

  /** The chord frame is a similarity with ratio `Dist2(a, b)`: the
      differences of two points' chord-frame coordinates determine their
      squared distance. */
  lemma FrameDistance(a: Point, b: Point, p: Point, q: Point)
    ensures Sq(Along(a, b, p) - Along(a, b, q)) + Sq(Across(a, b, p) - Across(a, b, q))
            == Dist2(a, b) * Dist2(q, p)
  {
    FrameDifferences(a, b, p, q);
    RotatedLagrange(Along(a, b, p) - Along(a, b, q), Across(a, b, p) - Across(a, b, q),
                    b.x - a.x, b.y - a.y, p.x - q.x, p.y - q.y);
  }

  lemma RotatedLagrange(s: real, t: real, dx: real, dy: real, ex: real, ey: real)
    requires s == dx * ex + dy * ey && t == dx * ey - dy * ex
    ensures Sq(s) + Sq(t) == (Sq(dx) + Sq(dy)) * (Sq(ex) + Sq(ey))
  {
    Lagrange(dx, dy, ex, ey);
  }

  /** Chord-frame coordinates are affine in the point. */
  lemma FrameDifferences(a: Point, b: Point, p: Point, q: Point)
    ensures Along(a, b, p) - Along(a, b, q) == (b.x - a.x) * (p.x - q.x) + (b.y - a.y) * (p.y - q.y)
    ensures Across(a, b, p) - Across(a, b, q) == (b.x - a.x) * (p.y - q.y) - (b.y - a.y) * (p.x - q.x)
  {
  }

  /** On a chord of non-zero length, the two chord-frame coordinates fix the
      point. */
  lemma FrameInjective(a: Point, b: Point, p: Point, q: Point)
    requires a != b
    requires Along(a, b, p) == Along(a, b, q)
    requires Across(a, b, p) == Across(a, b, q)
    ensures p == q
  {
    FrameDistance(a, b, p, q);
    DistinctPointsApart(a, b);
    assert Dist2(a, b) * Dist2(q, p) == 0.0;
    ZeroDistanceSamePoint(q, p);
  }

  /** Dividing by a positive number keeps the side of a bound. */
  lemma DivBelowIff(v: real, d: real, b: real)
    requires d > 0.0
    ensures v / d < b <==> v < b * d
    ensures v / d > b <==> v > b * d
  {
    assert v == (v / d) * d;
  }

  /** Multiplying by a positive number keeps the order. */
  lemma MulBelowIff(x: real, y: real, d: real)
    requires d > 0.0
    ensures x < y <==> x * d < y * d
  {
    assert y * d - x * d == (y - x) * d;
    if x < y {
      ProductPositive(y - x, d);
    } else {
      assert (x - y) * d >= 0.0;
    }
  }

  lemma SqQuotient(v: real, d: real)
    requires d != 0.0
    ensures Sq(v / d) * Sq(d) == Sq(v)
  {
    var c := v / d;
    assert c * d == v;
    calc {
      Sq(c) * Sq(d);
    ==
      (c * c) * (d * d);
    ==
      (c * d) * (c * d);
    ==
      Sq(v);
    }
  }

  /** The band test computed the way the code does it, dividing by the
      segment length `len`, agrees with the division-free `InBand`. */
  lemma BandByDivision(a: Point, b: Point, p: Point, len: real, w: real)
    requires len > 0.0 && IsRoot(len, Dist2(a, b)) && w > 0.0
    ensures InBand(a, b, p, w)
            <==> (SqPositive(len);
                  var t := Along(a, b, p) / Sq(len);
                  var u := Across(a, b, p) / len;
                  t > 0.0 && t < 1.0 && Abs(u) < w)
  {
    BandCore(Along(a, b, p), Across(a, b, p), Dist2(a, b), len, w);
  }

  /** `BandByDivision` over the three numbers the band test reads. */
  lemma BandCore(along: real, across: real, d: real, len: real, w: real)
    requires len > 0.0 && IsRoot(len, d) && w > 0.0
    ensures (0.0 < along < d && Sq(across) < Sq(w) * d)
            <==> (SqPositive(len);
                  var t := along / Sq(len);
                  var u := across / len;
                  t > 0.0 && t < 1.0 && Abs(u) < w)
  {
    FractionByDivision(along, d, len);
    DistanceByDivision(across, d, len, w);
  }

  /** The fraction test: `0 < along / len² < 1` exactly when `0 < along < len²`. */
  lemma FractionByDivision(along: real, d: real, len: real)
    requires len > 0.0 && IsRoot(len, d)
    ensures (SqPositive(len); var t := along / Sq(len); t > 0.0 && t < 1.0) <==> 0.0 < along < d
  {
    SqPositive(len);
    DivBelowIff(along, Sq(len), 0.0);
    DivBelowIff(along, Sq(len), 1.0);
  }

  /** The distance test: `abs(across / len) < w` exactly when
      `across² < w² · len²`. */
  lemma DistanceByDivision(across: real, d: real, len: real, w: real)
    requires len > 0.0 && IsRoot(len, d) && w > 0.0
    ensures Abs(across / len) < w <==> Sq(across) < Sq(w) * d
  {
    CrossBelowIff(across, len, w);
    MulCongruence(Sq(len), d, Sq(w));
  }

  /** The distance test of the band, by division and without it. */
  lemma CrossBelowIff(across: real, len: real, w: real)
    requires len > 0.0 && w > 0.0
    ensures Abs(across / len) < w <==> Sq(across) < Sq(w) * Sq(len)
  {
    SqPositive(len);
    var u := across / len;
    AbsBelowIffSqBelow(u, w);
    SqQuotient(across, len);
    MulBelowIff(Sq(u), Sq(w), Sq(len));
  }

  lemma MulCancel(x: real, y: real, d: real)
    requires d != 0.0
    requires x * d == y * d
    ensures x == y
  {
    assert (x - y) * d == 0.0;
  }

  lemma NegatedQuotient(u: real, d: real)
    requires d != 0.0
    ensures (-u) / d == -(u / d)
  {
    assert ((-u) / d) * d == -u;
    assert (u / d) * d == u;
    MulCancel((-u) / d, -(u / d), d);
  }

  lemma SqDifferenceSymmetric(x: real, y: real)
    ensures Sq(x - y) == Sq(y - x)
  {
    calc {
      Sq(x - y);
    ==
      (x - y) * (x - y);
    ==
      (y - x) * (y - x);
    ==
      Sq(y - x);
    }
  }

  /** The midpoint of a chord projects halfway along it and lies on it. */
  lemma MidpointFrame(a: Point, b: Point)
    ensures Along(a, b, Midpoint(a, b)) == Dist2(a, b) / 2.0
    ensures Across(a, b, Midpoint(a, b)) == 0.0
  {
    var m := Midpoint(a, b);
    var dx, dy := b.x - a.x, b.y - a.y;
    assert m.x - a.x == dx / 2.0 && m.y - a.y == dy / 2.0;
    calc {
      Along(a, b, m);
    ==
      dx * (dx / 2.0) + dy * (dy / 2.0);
    ==
      (dx * dx + dy * dy) / 2.0;
    ==
      (Sq(dx) + Sq(dy)) / 2.0;
    }
    calc {
      Across(a, b, m);
    ==
      dx * (dy / 2.0) - dy * (dx / 2.0);
    ==
      0.0;
    }
  }

  /** The band around a segment does not depend on its direction. */
  lemma ReversedBand(a: Point, b: Point, p: Point, w: real)
    ensures InBand(b, a, p, w) <==> InBand(a, b, p, w)
  {
    ReversedChord(a, b, p);
    ReversedBandCore(Along(a, b, p), Across(a, b, p), Dist2(a, b),
                     Along(b, a, p), Across(b, a, p), Dist2(b, a), w);
  }

  /** The chord frame of `b -> a` in terms of that of `a -> b`. */
  lemma ReversedChord(a: Point, b: Point, p: Point)
    ensures Along(b, a, p) == Dist2(a, b) - Along(a, b, p)
    ensures Across(b, a, p) == -Across(a, b, p)
    ensures Dist2(b, a) == Dist2(a, b)
  {
    ReversedFrame(a.x, a.y, b.x, b.y, p.x, p.y);
    SqDifferenceSymmetric(a.x, b.x);
    SqDifferenceSymmetric(a.y, b.y);
  }

  /** `ReversedBand` over the numbers the band test reads. Guarded rather
      than required, so that a call adds no proof obligation to the
      caller's nonlinear goal. */
  lemma ReversedBandCore(along: real, across: real, d: real,
                         along': real, across': real, d': real, w: real)
    ensures along' == d - along && across' == -across && d' == d ==>
              ((0.0 < along' < d' && Sq(across') < Sq(w) * d')
               <==> (0.0 < along < d && Sq(across) < Sq(w) * d))
  {
    if along' == d - along && across' == -across && d' == d {
      SqNegated(across);
    }
  }

  /** The chord frame seen from the other end: the fraction is complemented
      and the distance negated, in coordinates. */
  lemma ReversedFrame(x0: real, y0: real, x1: real, y1: real, x2: real, y2: real)
    ensures (x0 - x1) * (x2 - x1) + (y0 - y1) * (y2 - y1)
            == (x1 - x0) * (x1 - x0) + (y1 - y0) * (y1 - y0)
               - ((x1 - x0) * (x2 - x0) + (y1 - y0) * (y2 - y0))
    ensures (x0 - x1) * (y2 - y1) - (y0 - y1) * (x2 - x1)
            == -((x1 - x0) * (y2 - y0) - (y1 - y0) * (x2 - x0))
  {
  }

  lemma SqNegated(v: real)
    ensures Sq(-v) == Sq(v)
  {
  }

  /** `InBand` from its two tests, each given by an equivalent condition.
      The booleans name those conditions, so that a caller proves each test
      on its own and the solver never sees both halves at once. */
  lemma InBandParts(a: Point, b: Point, p: Point, w: real, along: bool, across: bool)
    requires 0.0 < Along(a, b, p) < Dist2(a, b) <==> along
    requires Sq(Across(a, b, p)) < Sq(w) * Dist2(a, b) <==> across
    ensures InBand(a, b, p, w) <==> along && across
  {
  }
}
