/** Angle bookkeeping shared by the arc hit test and the arc label
    (src/elements/linkClass.js): unwrapping an end angle past its start,
    shifting a probe angle by one turn, and the label's bisecting angle.
    Angles are plain reals in radians; nothing here evaluates a
    trigonometric function. */
module Angles {
  import opened Geometry
  import opened LinkModel

  /** `k` whole turns. */
  function Turns(k: int): real {
    (k as real) * TwoPi
  }

  lemma {:induction false} TurnsAtLeastOne(k: int)
    ensures k >= 1 ==> Turns(k) >= TwoPi
    ensures k <= -1 ==> Turns(k) <= -TwoPi
    ensures k == 0 ==> Turns(k) == 0.0
    ensures k == 1 ==> Turns(k) == TwoPi
    ensures k == -1 ==> Turns(k) == -TwoPi
  {
    var m := k as real;
    if k >= 1 {
      assert m * TwoPi - TwoPi == (m - 1.0) * TwoPi;
      assert (m - 1.0) * TwoPi >= 0.0;
    } else if k <= -1 {
      assert m * TwoPi + TwoPi == (m + 1.0) * TwoPi;
      assert (m + 1.0) * TwoPi <= 0.0;
    }
  }

  /** The open angular interval from `lo` up to `hi`. */
  datatype Span = Span(lo: real, hi: real) {
    function Mid(): real {
      (lo + hi) / 2.0
    }

    predicate Contains(a: real) {
      lo < a < hi
    }

    /** Shorter than a full turn, and not reversed. */
    predicate WithinTurn() {
      0.0 <= hi - lo < TwoPi
    }
  }

  /** Some representative of the direction `a`, modulo whole turns, lies
      strictly inside the span. */
  ghost predicate InSpanModTurn(a: real, sp: Span) {
    exists k :: sp.Contains(a + Turns(k))
  }

  /** Moves `endAngle` one turn forward if it lies before `startAngle`. The
      result is the representative of `endAngle` in the turn that begins at
      `startAngle`, whenever the two angles are less than a turn apart. */
  function UnwrapEnd(startAngle: real, endAngle: real): (e: real)
    ensures e == endAngle || e == endAngle + TwoPi
    ensures startAngle - TwoPi <= endAngle ==> startAngle <= e
    ensures endAngle < startAngle + TwoPi ==> e < startAngle + TwoPi
  {
    if endAngle < startAngle then endAngle + TwoPi else endAngle
  }

  /** `UnwrapEnd` picks the one representative in `[startAngle, startAngle + TwoPi)`:
      any whole-turn shift of `endAngle` that lands there is the one it made. */
  lemma {:induction false} UnwrapEndUnique(startAngle: real, endAngle: real, k: int)
    requires startAngle - TwoPi <= endAngle < startAngle + TwoPi
    requires startAngle <= endAngle + Turns(k) < startAngle + TwoPi
    ensures UnwrapEnd(startAngle, endAngle) == endAngle + Turns(k)
  {
    TurnsAtLeastOne(k);
    TurnsAtLeastOne(k - 1);
    assert Turns(k - 1) == Turns(k) - TwoPi;
    if endAngle < startAngle {
      assert k == 1;
    } else {
      assert k == 0;
    }
  }

  /** The span a hit test measures against: from start to end for a link
      drawn clockwise, from end to start for one drawn anticlockwise, with
      the upper bound unwrapped past the lower one. */
  function NormaliseSpan(startAngle: real, endAngle: real, isReversed: bool): (sp: Span)
    ensures sp.lo == (if isReversed then endAngle else startAngle)
    ensures sp.hi - (if isReversed then startAngle else endAngle) in {0.0, TwoPi}
    ensures Abs(endAngle - startAngle) < TwoPi ==> sp.WithinTurn()
    ensures Abs(endAngle - startAngle) < TwoPi && startAngle != endAngle ==> sp.lo < sp.hi
  {
    var (lo, hi) := if isReversed then (endAngle, startAngle) else (startAngle, endAngle);
    Span(lo, UnwrapEnd(lo, hi))
  }

  /** Shifts the probe angle by one turn towards the span when it lies
      outside it. For a span shorter than a turn and a probe within a turn
      of it, the shifted angle is inside the span exactly when some
      whole-turn representative of the probe is. */
  function AdjustAngle(a: real, sp: Span): (r: real)
    ensures r == a || r == a + TwoPi || r == a - TwoPi
    ensures sp.WithinTurn() && sp.lo - TwoPi < a < sp.hi + TwoPi ==>
              (sp.Contains(r) <==> InSpanModTurn(a, sp))
  {
    AdjustFindsTurn(a, sp);
    if a < sp.lo then a + TwoPi else if a > sp.hi then a - TwoPi else a
  }

  lemma AdjustFindsTurn(a: real, sp: Span)
    ensures var r := if a < sp.lo then a + TwoPi else if a > sp.hi then a - TwoPi else a;
            sp.WithinTurn() && sp.lo - TwoPi < a < sp.hi + TwoPi ==>
              (sp.Contains(r) <==> InSpanModTurn(a, sp))
  {
    var r := if a < sp.lo then a + TwoPi else if a > sp.hi then a - TwoPi else a;
    if sp.WithinTurn() && sp.lo - TwoPi < a < sp.hi + TwoPi {
      if sp.Contains(r) {
        TurnsAtLeastOne(0);
        TurnsAtLeastOne(1);
        TurnsAtLeastOne(-1);
        var k := if r == a then 0 else if r == a + TwoPi then 1 else -1;
        assert sp.Contains(a + Turns(k));
      }
      if InSpanModTurn(a, sp) {
        var k :| sp.Contains(a + Turns(k));
        AdjacentTurn(a, sp, k);
      }
    }
  }

  /** Within a turn of a span shorter than a turn, only a shift by at most
      one turn can land inside it, and the adjustment makes that shift. */
  lemma {:induction false} AdjacentTurn(a: real, sp: Span, k: int)
    requires sp.WithinTurn() && sp.lo - TwoPi < a < sp.hi + TwoPi
    requires sp.Contains(a + Turns(k))
    ensures sp.Contains(if a < sp.lo then a + TwoPi else if a > sp.hi then a - TwoPi else a)
  {
    TurnsAtLeastOne(k);
    TurnsAtLeastOne(k - 1);
    TurnsAtLeastOne(k + 1);
    assert Turns(k - 1) == Turns(k) - TwoPi;
    assert Turns(k + 1) == Turns(k) + TwoPi;
    assert -1 <= k <= 1;
  }

  /** The direction of an arc's label as `draw` computes it: halfway from the
      start angle to the unwrapped end angle, turned half a turn for a link
      drawn anticlockwise. That is the middle of the arc actually drawn, in
      both directions, up to a whole turn. */
  function ArcLabelAngle(startAngle: real, endAngle: real, isReversed: bool): (a: real)
    ensures startAngle != endAngle ==>
              var sp := NormaliseSpan(startAngle, endAngle, isReversed);
              a == sp.Mid() || a == sp.Mid() + TwoPi
  {
    (startAngle + UnwrapEnd(startAngle, endAngle)) / 2.0 + BoolAsNumber(isReversed) * Pi
  }

  /** Without the half-turn flip, the label bisects the span from the start
      angle to the unwrapped end: it is less than half a turn past the start. */
  lemma LabelWithinHalfTurn(startAngle: real, endAngle: real)
    requires Abs(endAngle - startAngle) < TwoPi
    ensures var a := ArcLabelAngle(startAngle, endAngle, false);
            startAngle <= a < startAngle + Pi
            && a - startAngle == UnwrapEnd(startAngle, endAngle) - a
  {
  }
}
