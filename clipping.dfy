/** Clipping a line to the frame: the line through the same two points,
    stretched until both ends reach a border (`get_extended_version`). It never
    changes the line it is given. */
module Clipping {
  import opened RealArith
  import opened Points
  import opened Lines
  import opened Frames

  /** The four borders by name. */
  datatype Side = TopSide | RightSide | BottomSide | LeftSide

  function BorderLine(f: Frame, s: Side): (b: Line)
    ensures b in Borders(f)
  {
    match s
    case TopSide => f.top
    case RightSide => f.right
    case BottomSide => f.bottom
    case LeftSide => f.left
  }

  /** `p` sits on the border coordinate of side `s`. */
  predicate OnSide(p: Point, f: Frame, s: Side)
  {
    match s
    case TopSide => p.y == TopY(f)
    case RightSide => p.x == RightX(f)
    case BottomSide => p.y == BottomY(f)
    case LeftSide => p.x == LeftX(f)
  }

  /** Of the two ends of a diagonal line, the one further left (the start
      when the x coordinates tie). */
  function Leftmost(l: Line): Point
  {
    if l.end.x > l.start.x then l.start else l.end
  }

  function Rightmost(l: Line): Point
  {
    if l.end.x > l.start.x then l.end else l.start
  }

  /** The slope measured from the leftmost to the rightmost end. */
  function ClipSlope(l: Line): (k: real)
    requires !IsHorizontal(l) && !IsVertical(l)
    ensures k != 0.0 && OnSlopeLine(Rightmost(l), Leftmost(l), k)
  {
    var a := Leftmost(l);
    var b := Rightmost(l);
    DivMul(b.y - a.y, b.x - a.x);
    (b.y - a.y) / (b.x - a.x)
  }

  /** `p` is on the line of slope `k` through `a`. */
  predicate OnSlopeLine(p: Point, a: Point, k: real)
  {
    p.y - a.y == Rise(p.x - a.x, k)
  }

  /** Where the line of slope `k` through `a` crosses the vertical `x`. */
  function HitX(a: Point, k: real, x: real): (p: Point)
    ensures p.x == x && OnSlopeLine(p, a, k) && !p.grown
    ensures p.y - a.y == Rise(x - a.x, k)
  {
    At(x, Rise(x - a.x, k) + a.y)
  }

  /** Where the line of slope `k` through `a` crosses the horizontal `y`
      (the source writes the bottom crossing on the left as `-(a.y - y) / k`,
      the same number). */
  function HitY(a: Point, k: real, y: real): (p: Point)
    requires k != 0.0
    ensures p.y == y && OnSlopeLine(p, a, k) && !p.grown
    ensures p.x - a.x == (y - a.y) / k
  {
    var q := (y - a.y) / k;
    DivMul(y - a.y, k);
    var p := At(q + a.x, y);
    assert p.x - a.x == q;
    p
  }

  /** The line of slope `k` through `a` leaves the frame on the right: at the
      right border if it gets there before the bottom (falling line) or the top
      (rising line), else at that bottom or top border. */
  function ClipRightward(a: Point, k: real, f: Frame): (r: (Point, Side))
    requires k != 0.0
    ensures r.1 != LeftSide && OnSide(r.0, f, r.1) && !r.0.grown
  {
    var run := RightX(f) - a.x;
    if k < 0.0 && Abs(Rise(run, k)) < Abs(a.y - BottomY(f)) then (HitX(a, k, RightX(f)), RightSide)
    else if k < 0.0 then (HitY(a, k, BottomY(f)), BottomSide)
    else if Abs(Rise(run, k)) < Abs(TopY(f) - a.y) then (HitX(a, k, RightX(f)), RightSide)
    else (HitY(a, k, TopY(f)), TopSide)
  }

  /** The line of slope `k` through `a` leaves the frame on the left, with the
      source's mirrored case analysis. */
  function ClipLeftward(a: Point, k: real, f: Frame): (r: (Point, Side))
    requires k != 0.0
    ensures r.1 != RightSide && OnSide(r.0, f, r.1) && !r.0.grown
  {
    var run := LeftX(f) - a.x;
    if k < 0.0 && Abs(Rise(run, k)) < Abs(TopY(f) - a.y) then (HitX(a, k, LeftX(f)), LeftSide)
    else if k < 0.0 then (HitY(a, k, TopY(f)), TopSide)
    else if Abs(Rise(run, k)) < Abs(a.y - BottomY(f)) then (HitX(a, k, LeftX(f)), LeftSide)
    else (HitY(a, k, BottomY(f)), BottomSide)
  }

  /** The rightward clip stays on the line of slope `k` through `a`. */
  lemma ClipRightwardOnLine(a: Point, k: real, f: Frame)
    requires k != 0.0
    ensures OnSlopeLine(ClipRightward(a, k, f).0, a, k)
  {
    var r := ClipRightward(a, k, f);
    var h := if r.1 == RightSide then HitX(a, k, RightX(f))
             else HitY(a, k, if r.1 == TopSide then TopY(f) else BottomY(f));
    assert r.0 == h;
  }

  /** The leftward clip stays on the line of slope `k` through `a`. */
  lemma ClipLeftwardOnLine(a: Point, k: real, f: Frame)
    requires k != 0.0
    ensures OnSlopeLine(ClipLeftward(a, k, f).0, a, k)
  {
    var r := ClipLeftward(a, k, f);
    var h := if r.1 == LeftSide then HitX(a, k, LeftX(f))
             else HitY(a, k, if r.1 == TopSide then TopY(f) else BottomY(f));
    assert r.0 == h;
  }

  /** From a point inside the frame, the rightward clip stays inside the frame. */
  lemma ClipRightwardInside(a: Point, k: real, f: Frame)
    requires k != 0.0 && IsInFrame(a, f)
    ensures IsInFrame(ClipRightward(a, k, f).0, f)
  {
    var run := RightX(f) - a.x;
    MulSigns(run, k);
    assert Rise(run, k) == run * k;
    if k < 0.0 {
      if Abs(Rise(run, k)) < Abs(a.y - BottomY(f)) {
        assert Rise(run, k) <= 0.0;
        HitXInside(a, k, f, RightX(f));
      } else {
        HitYRightInside(a, k, f, BottomY(f));
      }
    } else {
      if Abs(Rise(run, k)) < Abs(TopY(f) - a.y) {
        assert Rise(run, k) >= 0.0;
        HitXInside(a, k, f, RightX(f));
      } else {
        HitYRightInside(a, k, f, TopY(f));
      }
    }
  }

  /** From a point inside the frame, the leftward clip stays inside the frame. */
  lemma ClipLeftwardInside(a: Point, k: real, f: Frame)
    requires k != 0.0 && IsInFrame(a, f)
    ensures IsInFrame(ClipLeftward(a, k, f).0, f)
  {
    var run := LeftX(f) - a.x;
    MulSigns(run, k);
    assert Rise(run, k) == run * k;
    if k < 0.0 {
      if Abs(Rise(run, k)) < Abs(TopY(f) - a.y) {
        assert Rise(run, k) >= 0.0;
        HitXInside(a, k, f, LeftX(f));
      } else {
        HitYLeftInside(a, k, f, TopY(f));
      }
    } else {
      if Abs(Rise(run, k)) < Abs(a.y - BottomY(f)) {
        assert Rise(run, k) <= 0.0;
        HitXInside(a, k, f, LeftX(f));
      } else {
        HitYLeftInside(a, k, f, BottomY(f));
      }
    }
  }

  /** Crossing a side border before the line rises above the top or falls
      below the bottom keeps the crossing inside the frame. */
  lemma HitXInside(a: Point, k: real, f: Frame, x: real)
    requires IsInFrame(a, f) && (x == LeftX(f) || x == RightX(f))
    requires (Rise(x - a.x, k) <= 0.0 && Abs(Rise(x - a.x, k)) < Abs(a.y - BottomY(f))) ||
             (Rise(x - a.x, k) >= 0.0 && Abs(Rise(x - a.x, k)) < Abs(TopY(f) - a.y))
    ensures IsInFrame(HitX(a, k, x), f)
  {
    var p := HitX(a, k, x);
    assert p.y - a.y == Rise(x - a.x, k);
  }

  /** Rightwards, a falling line that reaches the bottom (a rising one the
      top) no later than the right border crosses it inside the frame. */
  lemma HitYRightInside(a: Point, k: real, f: Frame, y: real)
    requires IsInFrame(a, f)
    requires (k < 0.0 && y == BottomY(f)) || (k > 0.0 && y == TopY(f))
    requires Abs(y - a.y) <= Abs(Rise(RightX(f) - a.x, k))
    ensures IsInFrame(HitY(a, k, y), f)
  {
    var q := (y - a.y) / k;
    DivMul(y - a.y, k);
    MulSigns(q, k);
    QuotWithin(q, k, RightX(f) - a.x, y - a.y);
  }

  /** Leftwards, a falling line that reaches the top (a rising one the
      bottom) no later than the left border crosses it inside the frame. */
  lemma HitYLeftInside(a: Point, k: real, f: Frame, y: real)
    requires IsInFrame(a, f)
    requires (k < 0.0 && y == TopY(f)) || (k > 0.0 && y == BottomY(f))
    requires Abs(y - a.y) <= Abs(Rise(LeftX(f) - a.x, k))
    ensures IsInFrame(HitY(a, k, y), f)
  {
    var q := (y - a.y) / k;
    DivMul(y - a.y, k);
    MulSigns(q, k);
    QuotWithin(q, k, LeftX(f) - a.x, y - a.y);
  }

  /** A run `q` that reaches a border no later than the run `run` does (its rise
      `D` is no larger) lies between 0 and `run`, when the two point the same way. */
  lemma QuotWithin(q: real, k: real, run: real, D: real)
    requires k != 0.0 && q * k == D && Abs(D) <= Abs(Rise(run, k))
    requires (run >= 0.0 && q >= 0.0) || (run <= 0.0 && q <= 0.0)
    ensures Between(q, 0.0, run)
  {
    if (run >= 0.0 && q > run) || (run <= 0.0 && q < run) {
      Overshoot(q, k, run, D);
      assert false;
    }
  }

  /** A run longer than `run` in the same direction rises further. */
  lemma Overshoot(q: real, k: real, run: real, D: real)
    requires k != 0.0 && q * k == D
    requires (run >= 0.0 && q > run) || (run <= 0.0 && q < run)
    ensures Abs(D) > Abs(Rise(run, k))
  {
    if q > run {
      if k > 0.0 { FurtherRising(run, q, k); } else { FurtherFalling(run, q, k); }
    } else {
      if k > 0.0 { FurtherRising(-run, -q, k); } else { FurtherFalling(-run, -q, k); }
      assert Rise(-run, k) == -Rise(run, k);
      assert (-q) * k == -D;
    }
  }

  lemma FurtherRising(run: real, q: real, k: real)
    requires k > 0.0 && 0.0 <= run < q
    ensures 0.0 <= Rise(run, k) < q * k
  {
    MulMonoPos(run, q, k);
    MulNonNeg(run, k);
  }

  lemma FurtherFalling(run: real, q: real, k: real)
    requires k < 0.0 && 0.0 <= run < q
    ensures q * k < Rise(run, k) <= 0.0
  {
    MulMonoNeg(run, q, k);
    MulNonPos(run, k);
  }

  /** `p` sits on the border line `b` of `f` at that border's coordinate. */
  predicate OnBorder(p: Point, b: Line, f: Frame)
  {
    (b == f.top && p.y == TopY(f)) || (b == f.right && p.x == RightX(f)) ||
    (b == f.bottom && p.y == BottomY(f)) || (b == f.left && p.x == LeftX(f))
  }

  /** `get_extended_version`: the line stretched to the frame, each end
      anchored to the border it reaches. A horizontal line runs from the left
      border to the right one and a vertical line from the bottom to the top,
      each keeping its fixed coordinate; a diagonal line is clipped rightwards
      from its leftmost end for the end point and leftwards for the start. */
  function ExtendedVersion(l: Line, f: Frame): (r: Anchored)
    ensures OnBorder(r.start, r.startLine, f) && OnBorder(r.end, r.endLine, f)
    ensures !r.start.grown && !r.end.grown
    ensures IsHorizontal(l) ==>
              r.startLine == f.left && r.endLine == f.right &&
              r.start.y == l.start.y && r.end.y == l.end.y
    ensures !IsHorizontal(l) && IsVertical(l) ==>
              r.startLine == f.bottom && r.endLine == f.top &&
              r.start.x == l.start.x && r.end.x == l.end.x
  {
    if IsHorizontal(l) then
      Anchored(At(LeftX(f), l.start.y), At(RightX(f), l.end.y), f.left, f.right)
    else if IsVertical(l) then
      Anchored(At(l.start.x, BottomY(f)), At(l.end.x, TopY(f)), f.bottom, f.top)
    else
      var a := Leftmost(l);
      var k := ClipSlope(l);
      var e := ClipRightward(a, k, f);
      var s := ClipLeftward(a, k, f);
      Anchored(s.0, e.0, BorderLine(f, s.1), BorderLine(f, e.1))
  }

  /** Both ends of a clipped diagonal line lie on the line through the
      original two points. */
  lemma ExtendedVersionCollinear(l: Line, f: Frame)
    requires !IsHorizontal(l) && !IsVertical(l)
    ensures Collinear(ExtendedVersion(l, f).start, l) && Collinear(ExtendedVersion(l, f).end, l)
  {
    ClipRightwardCollinear(Leftmost(l), Rightmost(l), ClipSlope(l), f, l);
    ClipLeftwardCollinear(Leftmost(l), Rightmost(l), ClipSlope(l), f, l);
  }

  /** Clipping the line through `a` and `b` rightwards from `a` stays on it. */
  lemma ClipRightwardCollinear(a: Point, b: Point, k: real, f: Frame, l: Line)
    requires k != 0.0 && OnSlopeLine(b, a, k)
    requires l == Line(a, b) || l == Line(b, a)
    ensures Collinear(ClipRightward(a, k, f).0, l)
  {
    ClipRightwardOnLine(a, k, f);
    SlopeCollinear(ClipRightward(a, k, f).0, a, b, k, l);
  }

  /** Clipping the line through `a` and `b` leftwards from `a` stays on it. */
  lemma ClipLeftwardCollinear(a: Point, b: Point, k: real, f: Frame, l: Line)
    requires k != 0.0 && OnSlopeLine(b, a, k)
    requires l == Line(a, b) || l == Line(b, a)
    ensures Collinear(ClipLeftward(a, k, f).0, l)
  {
    ClipLeftwardOnLine(a, k, f);
    SlopeCollinear(ClipLeftward(a, k, f).0, a, b, k, l);
  }

  /** When the original ends are inside the frame, so are the clipped ones. */
  lemma ExtendedVersionInside(l: Line, f: Frame)
    requires IsInFrame(l.start, f) && IsInFrame(l.end, f)
    ensures IsInFrame(ExtendedVersion(l, f).start, f) && IsInFrame(ExtendedVersion(l, f).end, f)
  {
    if !IsHorizontal(l) && !IsVertical(l) {
      var a := Leftmost(l);
      var k := ClipSlope(l);
      ClipRightwardInside(a, k, f);
      ClipLeftwardInside(a, k, f);
    }
  }

  /** A point on the line of slope `k` through `a`, where that line also
      passes through `b`, is collinear with the segment between `a` and `b`
      taken in either direction. */
  lemma SlopeCollinear(p: Point, a: Point, b: Point, k: real, l: Line)
    requires OnSlopeLine(p, a, k) && OnSlopeLine(b, a, k)
    requires l == Line(a, b) || l == Line(b, a)
    ensures Collinear(p, l)
  {
    OnSlope(p.x - a.x, k, b.x - a.x, b.y - a.y);
    assert Collinear(p, Line(a, b));
    CollinearReversed(p, a, b);
  }

  /** Collinearity does not depend on which end the line starts from. */
  lemma CollinearReversed(p: Point, a: Point, b: Point)
    ensures Collinear(p, Line(a, b)) <==> Collinear(p, Line(b, a))
  {
    var u := (p.x - a.x) * (b.y - a.y) - (p.y - a.y) * (b.x - a.x);
    var v := (p.x - b.x) * (a.y - b.y) - (p.y - b.y) * (a.x - b.x);
    assert u == -v;
  }
}
