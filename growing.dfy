/** Growing a line from a point of the figure out to the frame: a horizontal
    or vertical line across the whole frame, or a diagonal through the point
    and the midpoint towards a random point of the frame, stretched to the
    borders and attached to the borders its ends lie on. */
module Growing {
  import opened RealArith
  import opened Results
  import opened Points
  import opened Lines
  import opened Frames
  import opened Clipping
  import opened FigureLines

  /** The index of the last line of `ls` that `p` passes the tolerant
      `is_on_line` test for, if any. */
  function LastOnBorder(p: Point, ls: seq<Line>): (r: Option<nat>)
    ensures r.Some? ==> r.value < |ls| && IsOnLine(p, ls[r.value])
    ensures r.Some? ==> forall j :: r.value < j < |ls| ==> !IsOnLine(p, ls[j])
    ensures r.None? <==> forall j :: 0 <= j < |ls| ==> !IsOnLine(p, ls[j])
    decreases |ls|
  {
    if |ls| == 0 then None
    else if IsOnLine(p, ls[|ls| - 1]) then Some(|ls| - 1)
    else LastOnBorder(p, ls[..|ls| - 1])
  }

  /** The loop over the frame's borders that remembers, for each end, the
      last border the end lies on. */
  method FindBorders(s: Point, e: Point, ls: seq<Line>) returns (si: Option<nat>, ei: Option<nat>)
    ensures si == LastOnBorder(s, ls) && ei == LastOnBorder(e, ls)
  {
    si := None;
    ei := None;
    for i := 0 to |ls|
      invariant si == LastOnBorder(s, ls[..i]) && ei == LastOnBorder(e, ls[..i])
    {
      assert ls[..i + 1][..i] == ls[..i];
      if IsOnLine(s, ls[i]) {
        si := Some(i);
      }
      if IsOnLine(e, ls[i]) {
        ei := Some(i);
      }
    }
    assert ls[..|ls|] == ls;
  }

  /** A point exactly on a border of a proper frame passes the tolerant test
      for some border, so the search finds one. */
  lemma BorderFound(p: Point, b: Line, f: Frame)
    requires Proper(f) && OnBorder(p, b, f)
    ensures LastOnBorder(p, Borders(f)).Some?
  {
    UprightBorders(f);
    MakeFrameOrdered(f.top, f.right);
    if b == f.top && p.y == TopY(f) {
      assert IsOnLine(p, Borders(f)[0]);
    } else if b == f.right && p.x == RightX(f) {
      assert IsOnLine(p, Borders(f)[1]);
    } else if b == f.bottom && p.y == BottomY(f) {
      assert IsOnLine(p, Borders(f)[2]);
    } else {
      assert IsOnLine(p, Borders(f)[3]);
    }
  }

  /** Halfway from `p` to the random frame point the draw picks. */
  function Midway(p: Point, f: Frame, side: nat, t: real): (m: Point)
    requires side < 4 && 0.0 <= t <= 1.0
    ensures Upright(f) && IsInFrame(p, f) ==> IsInFrame(m, f)
  {
    var r := Frames.RandomPoint(f, side, t);
    At((p.x + r.x) / 2.0, (p.y + r.y) / 2.0)
  }

  /** The line from `p` to the midpoint, before it is stretched. */
  function Interim(p: Point, f: Frame, side: nat, t: real): (r: Line)
    requires side < 4 && 0.0 <= t <= 1.0
    ensures Same(r.start, p) && !r.start.grown
    ensures Upright(f) && IsInFrame(p, f) ==> IsInFrame(r.end, f)
  {
    Line(At(p.x, p.y), Midway(p, f, side, t))
  }

  /** Stretching a line to the frame keeps both ends on the line. */
  lemma ExtendedVersionOnLine(l: Line, f: Frame)
    ensures Collinear(ExtendedVersion(l, f).start, l) && Collinear(ExtendedVersion(l, f).end, l)
  {
    var r := ExtendedVersion(l, f);
    if IsHorizontal(l) {
      OnHorizontal(r.start, l);
      OnHorizontal(r.end, l);
    } else if IsVertical(l) {
      OnVertical(r.start, l);
      OnVertical(r.end, l);
    } else {
      ExtendedVersionCollinear(l, f);
    }
  }

  /** What a diagonal grown from `p` is: the interim line stretched to the
      frame, so both ends lie on the line through `p` and the midpoint, each
      end attached to the last border it lies on, and inside the frame when
      `p` is. */
  predicate GrownDiagonal(a: Anchored, p: Point, f: Frame, side: nat, t: real)
    requires side < 4 && 0.0 <= t <= 1.0
  {
    var l := Interim(p, f, side, t);
    var si := LastOnBorder(a.start, Borders(f));
    var ei := LastOnBorder(a.end, Borders(f));
    a.start == ExtendedVersion(l, f).start && a.end == ExtendedVersion(l, f).end &&
    Collinear(a.start, l) && Collinear(a.end, l) &&
    si.Some? && ei.Some? && si.value < 4 && ei.value < 4 &&
    a.startLine == Borders(f)[si.value] && a.endLine == Borders(f)[ei.value] &&
    (Upright(f) && IsInFrame(p, f) ==> IsInFrame(a.start, f) && IsInFrame(a.end, f))
  }

  /** `Point.grow_line`. A point a line was already grown from gives nothing
      (`False`). A horizontal line spans the frame from the left border to
      the right one at the point's height, a vertical one from the top border
      to the bottom one at its abscissa; neither marks the point. A diagonal
      is grown through the midpoint towards the random frame point the draw
      picks, and then the point is marked as grown. When an end of the
      diagonal lies on no border the source fails before marking the point;
      in a proper frame that cannot happen. The second component is the point
      afterwards. */
  function GrowFrom(p: Point, f: Frame, o: Orientation, side: nat, t: real): (g: (Result<Option<Anchored>>, Point))
    requires side < 4 && 0.0 <= t <= 1.0
    ensures p.grown ==> g == (Ok(None), p)
    ensures !p.grown && o == Horizontal ==>
              g == (Ok(Some(Anchored(At(LeftX(f), p.y), At(RightX(f), p.y), f.left, f.right))), p)
    ensures !p.grown && o == Vertical ==>
              g == (Ok(Some(Anchored(At(p.x, TopY(f)), At(p.x, BottomY(f)), f.top, f.bottom))), p)
    ensures !p.grown && o == Diagonal && g.0.Ok? ==>
              g.0.value.Some? && GrownDiagonal(g.0.value.value, p, f, side, t) && Same(g.1, p) && g.1.grown
    ensures g.0.Err? ==> g.0.error == Unanchored && g.1 == p && !Proper(f)
    ensures !p.grown ==> g.0 != Ok(None)
  {
    if p.grown then (Ok(None), p)
    else if o == Horizontal then (Ok(Some(Anchored(At(LeftX(f), p.y), At(RightX(f), p.y), f.left, f.right))), p)
    else if o == Vertical then (Ok(Some(Anchored(At(p.x, TopY(f)), At(p.x, BottomY(f)), f.top, f.bottom))), p)
    else
      var l := Interim(p, f, side, t);
      var x := ExtendedVersion(l, f);
      var si := LastOnBorder(x.start, Borders(f));
      var ei := LastOnBorder(x.end, Borders(f));
      ExtendedVersionOnLine(l, f);
      if si.None? || ei.None? then
        (if Proper(f) then BorderFound(x.start, x.startLine, f); BorderFound(x.end, x.endLine, f); (Err(Unanchored), p)
         else (Err(Unanchored), p))
      else
        (if Upright(f) && IsInFrame(p, f) then ExtendedVersionInside(l, f); GrownFromDiagonal(p, f, side, t, x, si.value, ei.value)
         else GrownFromDiagonal(p, f, side, t, x, si.value, ei.value))
  }

  function GrownFromDiagonal(p: Point, f: Frame, side: nat, t: real, x: Anchored, si: nat, ei: nat): (Result<Option<Anchored>>, Point)
    requires si < 4 && ei < 4
  {
    (Ok(Some(Anchored(x.start, x.end, Borders(f)[si], Borders(f)[ei]))), p.(grown := true))
  }

  /** The source's `grow_line` itself: it builds the interim figure line,
      extends it, searches the borders in a loop and marks the point. */
  method GrowLine(p: Point, f: Frame, o: Orientation, side: nat, t: real)
    returns (r: Result<Option<Anchored>>, q: Point)
    requires side < 4 && 0.0 <= t <= 1.0
    ensures (r, q) == GrowFrom(p, f, o, side, t)
  {
    if p.grown {
      return Ok(None), p;
    }
    if o == Horizontal {
      return Ok(Some(Anchored(At(LeftX(f), p.y), At(RightX(f), p.y), f.left, f.right))), p;
    }
    if o == Vertical {
      return Ok(Some(Anchored(At(p.x, TopY(f)), At(p.x, BottomY(f)), f.top, f.bottom))), p;
    }
    var mid := Midway(p, f, side, t);
    var interim := new FigureLine(At(p.x, p.y), mid);
    var _ := interim.Extend(f);
    var si, ei := FindBorders(interim.startExt, interim.endExt, Borders(f));
    if si.None? || ei.None? {
      return Err(Unanchored), p;
    }
    r := Ok(Some(Anchored(interim.startExt, interim.endExt, Borders(f)[si.value], Borders(f)[ei.value])));
    q := p.(grown := true);
  }
}
