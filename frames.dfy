/** The rectangular frame every stimulus is drawn in. It is built from its top
    and right borders; the bottom and left borders are derived from them. */
module Frames {
  import opened RealArith
  import opened Results
  import opened Points
  import opened Lines

  datatype Frame = Frame(width: real, height: real, top: Line, right: Line, bottom: Line, left: Line)

  /** Builds a frame from its top and right borders: the width and height are
      the absolute extents of those borders, the bottom border is the top one
      moved down by the height and the left border is the right one moved left
      by the width. */
  function MakeFrame(top: Line, right: Line): (f: Frame)
    ensures f.width >= 0.0 && f.height >= 0.0
    ensures f.width == Abs(top.end.x - top.start.x) && f.height == Abs(right.end.y - right.start.y)
    ensures f.top == top && f.right == right
    ensures Same(Minus(top.start, f.bottom.start), At(0.0, f.height))
    ensures Same(Minus(top.end, f.bottom.end), At(0.0, f.height))
    ensures Same(Minus(right.start, f.left.start), At(f.width, 0.0))
    ensures Same(Minus(right.end, f.left.end), At(f.width, 0.0))
  {
    var width := Abs(top.end.x - top.start.x);
    var height := Abs(right.end.y - right.start.y);
    Frame(width, height, top, right,
          Line(Plus(top.start, At(0.0, -height)), Plus(top.end, At(0.0, -height))),
          Line(Plus(right.start, At(-width, 0.0)), Plus(right.end, At(-width, 0.0))))
  }

  /** The border lines in the source's order: top, right, bottom, left. */
  function Borders(f: Frame): (r: seq<Line>)
    ensures |r| == 4
    ensures r[0] == f.top && r[1] == f.right && r[2] == f.bottom && r[3] == f.left
  {
    [f.top, f.right, f.bottom, f.left]
  }

  /** The border coordinates, each read from the start of its border line. */
  function TopY(f: Frame): real { f.top.start.y }
  function RightX(f: Frame): real { f.right.start.x }
  function BottomY(f: Frame): real { f.bottom.start.y }
  function LeftX(f: Frame): real { f.left.start.x }

  /** Inside the frame, borders included; only a frame whose left border is
      not right of its right one and whose bottom is not above its top holds
      any point. */
  predicate IsInFrame(p: Point, f: Frame)
    ensures IsInFrame(p, f) ==> LeftX(f) <= RightX(f) && BottomY(f) <= TopY(f)
  {
    LeftX(f) <= p.x <= RightX(f) && BottomY(f) <= p.y <= TopY(f)
  }

  /** Any frame built by `MakeFrame` has its bottom below its top and its left
      border left of its right one, at exactly the frame's height and width. */
  lemma MakeFrameOrdered(top: Line, right: Line)
    ensures var f := MakeFrame(top, right);
      BottomY(f) == TopY(f) - f.height && LeftX(f) == RightX(f) - f.width &&
      BottomY(f) <= TopY(f) && LeftX(f) <= RightX(f)
  {
  }

  /** An axis-aligned frame: horizontal top running left to right, vertical
      right border running downwards, the two meeting at the top-right corner. */
  predicate Upright(f: Frame)
  {
    f == MakeFrame(f.top, f.right) &&
    IsHorizontal(f.top) && f.top.start.x <= f.top.end.x &&
    IsVertical(f.right) && f.right.end.y <= f.right.start.y &&
    Same(f.top.end, f.right.start)
  }

  /** An upright frame with positive width and height. */
  predicate Proper(f: Frame)
  {
    Upright(f) && f.width > 0.0 && f.height > 0.0
  }

  /** In an upright frame each border runs along one border coordinate and
      spans the other two. */
  lemma UprightBorders(f: Frame)
    requires Upright(f)
    ensures f.top.start.x == LeftX(f) && f.top.end.x == RightX(f)
    ensures f.top.start.y == TopY(f) && f.top.end.y == TopY(f)
    ensures f.right.start.y == TopY(f) && f.right.end.y == BottomY(f)
    ensures f.right.start.x == RightX(f) && f.right.end.x == RightX(f)
    ensures f.bottom.start.x == LeftX(f) && f.bottom.end.x == RightX(f)
    ensures f.bottom.start.y == BottomY(f) && f.bottom.end.y == BottomY(f)
    ensures f.left.start.y == TopY(f) && f.left.end.y == BottomY(f)
    ensures f.left.start.x == LeftX(f) && f.left.end.x == LeftX(f)
  {
  }

  /** A point taken between the ends of a border of an upright frame is inside the frame. */
  lemma OnBorderIsInFrame(f: Frame, side: nat, p: Point)
    requires Upright(f) && side < 4 && InBox(p, Borders(f)[side])
    ensures IsInFrame(p, f)
  {
    UprightBorders(f);
  }

  /** `get_random_point`: a random point of the border `side` (the source's
      `choice` of border) for the draw `t`. */
  function RandomPoint(f: Frame, side: nat, t: real): (r: Point)
    requires side < 4 && 0.0 <= t <= 1.0
    ensures Collinear(r, Borders(f)[side]) && InBox(r, Borders(f)[side])
    ensures Upright(f) ==> IsInFrame(r, f)
  {
    var r := Lines.RandomPoint(Borders(f)[side], t);
    if Upright(f) then OnBorderIsInFrame(f, side, r); r else r
  }

  /** Moving a point and a line by the same offset keeps the point on the line
      and between its ends. */
  lemma TranslatePreservesOn(p: Point, l: Line, dx: real, dy: real)
    requires Collinear(p, l) && InBox(p, l)
    ensures var m := Line(Plus(l.start, At(dx, dy)), Plus(l.end, At(dx, dy)));
      Collinear(Plus(p, At(dx, dy)), m) && InBox(Plus(p, At(dx, dy)), m)
  {
    var m := Line(Plus(l.start, At(dx, dy)), Plus(l.end, At(dx, dy)));
    var q := Plus(p, At(dx, dy));
    assert DX(m) == DX(l) && DY(m) == DY(l);
    assert q.x - m.start.x == p.x - l.start.x;
    assert q.y - m.start.y == p.y - l.start.y;
  }

  /** What `fling_side_to_side` gives for the draws: the vertical line from the
      point `t` of the top border straight down to the bottom, the horizontal
      line from the point `t` of the right border straight across to the left,
      or the diagonal fling from border `i` to border `j`, which fails exactly
      when all 100 of its attempts are 50 or shorter. */
  function SideToSideFling(f: Frame, o: Orientation, t: real, i: nat, j: nat, draws: seq<(real, real)>): (r: Result<Anchored>)
    requires 0.0 <= t <= 1.0
    requires o == Diagonal ==> i < 4 && j < 4 && |draws| >= Attempts && UnitDraws(draws)
    ensures r.Err? <==> o == Diagonal && forall n :: 0 <= n < Attempts ==> !FarEnough(Attempt(Borders(f)[i], Borders(f)[j], draws[n]))
    ensures r.Err? ==> r.error == TooClose
  {
    if o == Vertical then
      var s := Lines.RandomPoint(f.top, t);
      Ok(Anchored(s, Minus(s, At(0.0, f.height)), f.top, f.bottom))
    else if o == Horizontal then
      var s := Lines.RandomPoint(f.right, t);
      Ok(Anchored(s, Minus(s, At(f.width, 0.0)), f.right, f.left))
    else
      FirstFarAttemptSpec(Borders(f)[i], Borders(f)[j], draws, 0);
      FirstFarAttempt(Borders(f)[i], Borders(f)[j], draws, 0)
  }

  /** `fling_side_to_side`. A vertical line runs from a random point of the top
      border straight down by the frame's height; a horizontal one from a random
      point of the right border straight left by the width. Any other
      orientation flings between two different borders `i` and `j` (the source's
      two `choice`s). */
  method FlingSideToSide(f: Frame, o: Orientation, t: real, i: nat, j: nat, draws: seq<(real, real)>)
    returns (r: Result<Anchored>)
    requires f == MakeFrame(f.top, f.right)
    requires 0.0 <= t <= 1.0
    requires o == Diagonal ==> i < 4 && j < 4 && i != j && |draws| >= Attempts && UnitDraws(draws)
    ensures o == Vertical ==>
              (r.Ok? && r.value.startLine == f.top && r.value.endLine == f.bottom &&
               Collinear(r.value.start, f.top) && InBox(r.value.start, f.top) &&
               Collinear(r.value.end, f.bottom) && InBox(r.value.end, f.bottom) &&
               r.value.end.x == r.value.start.x && r.value.start.y - r.value.end.y == f.height)
    ensures o == Horizontal ==>
              (r.Ok? && r.value.startLine == f.right && r.value.endLine == f.left &&
               Collinear(r.value.start, f.right) && InBox(r.value.start, f.right) &&
               Collinear(r.value.end, f.left) && InBox(r.value.end, f.left) &&
               r.value.end.y == r.value.start.y && r.value.start.x - r.value.end.x == f.width)
    ensures o == Diagonal && r.Ok? ==>
              (r.value.startLine == Borders(f)[i] && r.value.endLine == Borders(f)[j] &&
               FarEnough(r.value) &&
               Collinear(r.value.start, Borders(f)[i]) && InBox(r.value.start, Borders(f)[i]) &&
               Collinear(r.value.end, Borders(f)[j]) && InBox(r.value.end, Borders(f)[j]))
    ensures o == Diagonal && r.Err? ==>
              r.error == TooClose &&
              forall n :: 0 <= n < Attempts ==> !FarEnough(Attempt(Borders(f)[i], Borders(f)[j], draws[n]))
    ensures r == SideToSideFling(f, o, t, i, j, draws)
  {
    if o == Vertical {
      var s := Lines.RandomPoint(f.top, t);
      TranslatePreservesOn(s, f.top, 0.0, -f.height);
      r := Ok(Anchored(s, Minus(s, At(0.0, f.height)), f.top, f.bottom));
    } else if o == Horizontal {
      var s := Lines.RandomPoint(f.right, t);
      TranslatePreservesOn(s, f.right, -f.width, 0.0);
      r := Ok(Anchored(s, Minus(s, At(f.width, 0.0)), f.right, f.left));
    } else {
      r := FlingToLine(Borders(f)[i], Borders(f)[j], draws);
    }
  }

  /** One draw of `fling_side_to_line`: `t` places the start on the start line,
      `side` is the `choice` of end border and `u` places the end on that border
      when the orientation is diagonal. */
  datatype SideDraw = SideDraw(t: real, side: nat, u: real)

  predicate ValidSideDraw(o: Orientation, d: SideDraw)
  {
    0.0 <= d.t <= 1.0 && 0.0 <= d.u <= 1.0 && d.side < (if o == Diagonal then 4 else 2)
  }

  predicate ValidSideDraws(o: Orientation, draws: seq<SideDraw>)
  {
    forall i :: 0 <= i < |draws| ==> ValidSideDraw(o, draws[i])
  }

  /** The end border a draw picks: top or bottom for a vertical line, right or
      left for a horizontal one, any of the four otherwise. */
  function EndBorder(f: Frame, o: Orientation, side: nat): (b: Line)
    requires side < (if o == Diagonal then 4 else 2)
    ensures o == Vertical ==> b == f.top || b == f.bottom
    ensures o == Horizontal ==> b == f.right || b == f.left
    ensures b == Borders(f)[if o == Diagonal then side else if o == Vertical then 2 * side else 2 * side + 1]
  {
    match o
    case Vertical => if side == 0 then f.top else f.bottom
    case Horizontal => if side == 0 then f.right else f.left
    case Diagonal => Borders(f)[side]
  }

  /** One attempt of `fling_side_to_line` as the source writes it: a "vertical"
      line keeps the start's y and takes its x from the chosen top or bottom
      border, a "horizontal" one keeps the start's x and takes its y from the
      chosen right or left border. */
  function SideAttemptAsWritten(f: Frame, l: Line, o: Orientation, d: SideDraw): (a: Anchored)
    requires ValidSideDraw(o, d)
    ensures a.startLine == l && a.endLine == EndBorder(f, o, d.side)
    ensures Collinear(a.start, l) && InBox(a.start, l)
    ensures o == Vertical ==> a.end.y == a.start.y
    ensures o == Horizontal ==> a.end.x == a.start.x
  {
    var s := Lines.RandomPoint(l, d.t);
    var b := EndBorder(f, o, d.side);
    match o
    case Vertical => Anchored(s, At(b.start.x, s.y), l, b)
    case Horizontal => Anchored(s, At(s.x, b.start.y), l, b)
    case Diagonal => Anchored(s, Lines.RandomPoint(b, d.u), l, b)
  }

  /** As written, a "vertical" line in an upright frame is horizontal, runs to
      the left border, and misses the top or bottom border it is anchored to
      whenever its start lies strictly between them. */
  lemma SideAttemptAsWrittenMissesBorder(f: Frame, l: Line, d: SideDraw)
    requires Upright(f) && f.width > 0.0 && ValidSideDraw(Vertical, d)
    ensures var a := SideAttemptAsWritten(f, l, Vertical, d);
      IsHorizontal(Line(a.start, a.end)) && a.end.x == LeftX(f) &&
      (BottomY(f) < a.start.y < TopY(f) ==> !Collinear(a.end, a.endLine))
  {
    UprightBorders(f);
    var a := SideAttemptAsWritten(f, l, Vertical, d);
    if BottomY(f) < a.start.y < TopY(f) {
      OffHorizontal(a.end, a.endLine);
    }
  }

  /** A point off the height of a horizontal line of positive length is not on it. */
  lemma OffHorizontal(p: Point, b: Line)
    requires DY(b) == 0.0 && DX(b) > 0.0 && p.y != b.start.y
    ensures !Collinear(p, b)
  {
    MulZero(p.x, DY(b));
    MulZero(b.start.x, DY(b));
    if p.y > b.start.y {
      MulMonoPos(b.start.y, p.y, DX(b));
    } else {
      MulMonoPos(p.y, b.start.y, DX(b));
    }
  }

  /** One attempt of `fling_side_to_line` as intended: a vertical line keeps the
      start's x and ends at the height of the chosen top or bottom border, a
      horizontal one keeps the start's y and ends at the chosen right or left
      border. */
  function SideAttempt(f: Frame, l: Line, o: Orientation, d: SideDraw): (a: Anchored)
    requires ValidSideDraw(o, d)
    ensures a.startLine == l && a.endLine == EndBorder(f, o, d.side)
    ensures Collinear(a.start, l) && InBox(a.start, l)
    ensures o == Vertical ==> a.end.x == a.start.x && a.end.y == a.endLine.start.y
    ensures o == Horizontal ==> a.end.y == a.start.y && a.end.x == a.endLine.start.x
    ensures o == Diagonal ==> Collinear(a.end, a.endLine) && InBox(a.end, a.endLine)
  {
    var s := Lines.RandomPoint(l, d.t);
    var b := EndBorder(f, o, d.side);
    match o
    case Vertical => Anchored(s, At(s.x, b.start.y), l, b)
    case Horizontal => Anchored(s, At(b.start.x, s.y), l, b)
    case Diagonal => Anchored(s, Lines.RandomPoint(b, d.u), l, b)
  }

  /** In an upright frame, from a start inside the frame, the intended attempt
      ends on the border it is anchored to, between that border's ends. */
  lemma SideAttemptReachesBorder(f: Frame, l: Line, o: Orientation, d: SideDraw)
    requires ValidSideDraw(o, d) && Upright(f)
    requires IsInFrame(SideAttempt(f, l, o, d).start, f)
    ensures var a := SideAttempt(f, l, o, d);
      Collinear(a.end, a.endLine) && InBox(a.end, a.endLine)
  {
    UprightBorders(f);
    var a := SideAttempt(f, l, o, d);
    if o == Vertical {
      OnHorizontal(a.end, a.endLine);
    } else if o == Horizontal {
      OnVertical(a.end, a.endLine);
    }
  }

  /** In an upright frame the intended attempt's end lies on the line through
      the border it is anchored to, wherever the start is. */
  lemma SideAttemptOnBorderLine(f: Frame, l: Line, o: Orientation, d: SideDraw)
    requires ValidSideDraw(o, d) && Upright(f)
    ensures Collinear(SideAttempt(f, l, o, d).end, SideAttempt(f, l, o, d).endLine)
  {
    UprightBorders(f);
    var a := SideAttempt(f, l, o, d);
    if o == Vertical {
      OnHorizontal(a.end, a.endLine);
    } else if o == Horizontal {
      OnVertical(a.end, a.endLine);
    }
  }

  /** A point at the height of a horizontal line lies on it. */
  lemma OnHorizontal(p: Point, b: Line)
    requires DY(b) == 0.0 && p.y == b.start.y
    ensures Collinear(p, b)
  {
    MulZero(p.x, DY(b));
    MulZero(b.start.x, DY(b));
  }

  /** A point at the abscissa of a vertical line lies on it. */
  lemma OnVertical(p: Point, b: Line)
    requires DX(b) == 0.0 && p.x == b.start.x
    ensures Collinear(p, b)
  {
    MulZero(p.y, DX(b));
    MulZero(b.start.y, DX(b));
  }

  /** `fling_side_to_line`: a line from `l` to a border, retried with the draws
      until it is longer than 50; after 100 failed attempts it gives up. On
      success the result is the first attempt that was far enough. */
  method FlingSideToLine(f: Frame, l: Line, o: Orientation, draws: seq<SideDraw>) returns (r: Result<Anchored>)
    requires |draws| >= Attempts && ValidSideDraws(o, draws)
    ensures r.Ok? ==>
              (exists i :: 0 <= i < Attempts && r.value == SideAttempt(f, l, o, draws[i]) &&
                           FarEnough(r.value) &&
                           forall j :: 0 <= j < i ==> !FarEnough(SideAttempt(f, l, o, draws[j])))
    ensures r.Err? ==>
              (r.error == TooClose &&
               forall i :: 0 <= i < Attempts ==> !FarEnough(SideAttempt(f, l, o, draws[i])))
    ensures r.Ok? && Upright(f) ==> Collinear(r.value.end, r.value.endLine)
  {
    var distantEnough := false;
    var counter := Attempts;
    var a := SideAttempt(f, l, o, draws[0]);
    while !distantEnough
      invariant 0 <= counter <= Attempts
      invariant forall j :: 0 <= j < Attempts - counter - (if distantEnough then 1 else 0) ==>
                             !FarEnough(SideAttempt(f, l, o, draws[j]))
      invariant distantEnough ==>
                  (counter < Attempts && FarEnough(a) &&
                   a == SideAttempt(f, l, o, draws[Attempts - counter - 1]) &&
                   (Upright(f) ==> Collinear(a.end, a.endLine)))
      decreases counter, !distantEnough
    {
      if counter <= 0 {
        return Err(TooClose);
      }
      a := SideAttempt(f, l, o, draws[Attempts - counter]);
      if FarEnough(a) {
        distantEnough := true;
        if Upright(f) {
          SideAttemptOnBorderLine(f, l, o, draws[Attempts - counter]);
        }
      }
      counter := counter - 1;
    }
    return Ok(a);
  }

  /** `fling_side_to_line` as the source writes it: the same loop over the
      attempts of `SideAttemptAsWritten`. On success the result is the first
      of them that was far enough; after 100 that were not it gives up. */
  method FlingSideToLineAsWritten(f: Frame, l: Line, o: Orientation, draws: seq<SideDraw>) returns (r: Result<Anchored>)
    requires |draws| >= Attempts && ValidSideDraws(o, draws)
    ensures r.Ok? ==>
              (exists i :: 0 <= i < Attempts && r.value == SideAttemptAsWritten(f, l, o, draws[i]) &&
                           FarEnough(r.value) &&
                           forall j :: 0 <= j < i ==> !FarEnough(SideAttemptAsWritten(f, l, o, draws[j])))
    ensures r.Err? ==>
              (r.error == TooClose &&
               forall i :: 0 <= i < Attempts ==> !FarEnough(SideAttemptAsWritten(f, l, o, draws[i])))
  {
    var distantEnough := false;
    var counter := Attempts;
    var a := SideAttemptAsWritten(f, l, o, draws[0]);
    while !distantEnough
      invariant 0 <= counter <= Attempts
      invariant forall j :: 0 <= j < Attempts - counter - (if distantEnough then 1 else 0) ==>
                             !FarEnough(SideAttemptAsWritten(f, l, o, draws[j]))
      invariant distantEnough ==>
                  (counter < Attempts && FarEnough(a) &&
                   a == SideAttemptAsWritten(f, l, o, draws[Attempts - counter - 1]))
      decreases counter, !distantEnough
    {
      if counter <= 0 {
        return Err(TooClose);
      }
      a := SideAttemptAsWritten(f, l, o, draws[Attempts - counter]);
      if FarEnough(a) {
        distantEnough := true;
      }
      counter := counter - 1;
    }
    return Ok(a);
  }

  /** The two loops accept different attempts. In a frame whose top border
      starts at `(-50, 50)`, such as the 100 by 100 image frame, a vertical
      line from `(0, -10)` towards the top border ends at `(-50, -10)` as
      written, exactly 50 away, so the attempt is rejected and drawn again;
      the intended end `(0, 50)` is 60 away and is accepted. With this draw
      every time, the source gives up with `TooClose` where the intended loop
      succeeds at once. */
  lemma SideAttemptAsWrittenRejects(f: Frame, l: Line, d: SideDraw)
    requires f.top.start == At(-50.0, 50.0)
    requires ValidSideDraw(Vertical, d) && d.side == 0 && Lines.RandomPoint(l, d.t) == At(0.0, -10.0)
    ensures SideAttemptAsWritten(f, l, Vertical, d).end == At(-50.0, -10.0)
    ensures !FarEnough(SideAttemptAsWritten(f, l, Vertical, d))
    ensures SideAttempt(f, l, Vertical, d).end == At(0.0, 50.0)
    ensures FarEnough(SideAttempt(f, l, Vertical, d))
  {
    var s := Lines.RandomPoint(l, d.t);
    var w := SideAttemptAsWritten(f, l, Vertical, d);
    var c := SideAttempt(f, l, Vertical, d);
    assert w == Anchored(s, At(f.top.start.x, s.y), l, f.top);
    assert c == Anchored(s, At(s.x, f.top.start.y), l, f.top);
    ExampleDistances();
  }


  /** From `(0, -10)`, the end `(-50, -10)` is 50 away and `(0, 50)` is 60 away. */
  lemma ExampleDistances()
    ensures Dist2(At(0.0, -10.0), At(-50.0, -10.0)) == 2500.0
    ensures Dist2(At(0.0, -10.0), At(0.0, 50.0)) == 3600.0
  {
    assert Sq(50.0) == 2500.0 && Sq(0.0) == 0.0 && Sq(-60.0) == 3600.0;
  }




}
