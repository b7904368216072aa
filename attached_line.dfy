/** Lines whose two ends are attached to owner lines (for example a border of
    the frame or a line of the figure). The operations move an end along its
    owner, re-attach an end to another owner, or stretch the line until it
    meets both owners. Randomness is a caller-supplied draw in [0, 1]. */
module AttachedLines {
  import opened RealArith
  import opened Results
  import opened Points
  import opened Lines
  import opened Frames

  /** `p` lies on the segment `l`. */
  predicate OnSegment(p: Point, l: Line)
  {
    Collinear(p, l) && InBox(p, l)
  }

  /** The window an attached end is jiggled in: from `p`, a third of the way
      towards each end of its owner. When `p` lies on the owner, so do both
      ends of the window, and `p` lies between them. */
  function JiggleWindow(p: Point, owner: Line): (w: Line)
    ensures 3.0 * w.start.x == 2.0 * p.x + owner.start.x && 3.0 * w.start.y == 2.0 * p.y + owner.start.y
    ensures 3.0 * w.end.x == 2.0 * p.x + owner.end.x && 3.0 * w.end.y == 2.0 * p.y + owner.end.y
    ensures OnSegment(p, owner) ==> OnSegment(w.start, owner) && OnSegment(w.end, owner) && InBox(p, w)
  {
    var w := Line(Minus(p, DivBy(Minus(p, owner.start), 3.0)), Minus(p, DivBy(Minus(p, owner.end), 3.0)));
    if OnSegment(p, owner) then
      ThirdsCollinear(w.start, p, owner.start, owner);
      ThirdsCollinear(w.end, p, owner.end, owner);
      w
    else
      w
  }

  /** A point two thirds of the way from `q` to `s` lies on every line that
      both `s` and `q` lie on. */
  lemma ThirdsCollinear(p: Point, s: Point, q: Point, l: Line)
    requires 3.0 * p.x == 2.0 * s.x + q.x && 3.0 * p.y == 2.0 * s.y + q.y
    requires Collinear(s, l) && Collinear(q, l)
    ensures Collinear(p, l)
  {
    Thirds(p.x, s.x, q.x, DY(l));
    Thirds(p.y, s.y, q.y, DX(l));
  }

  /** A random point of the jiggle window of a point on its owner is still on
      the owner: jiggling never detaches an end. */
  lemma JiggleStaysOnOwner(p: Point, owner: Line, t: real)
    requires 0.0 <= t <= 1.0
    requires OnSegment(p, owner)
    ensures OnSegment(Lines.RandomPoint(JiggleWindow(p, owner), t), owner)
  {
    var w := JiggleWindow(p, owner);
    var r := Lines.RandomPoint(w, t);
    RandomPointAlong(w, t);
    PartThird(DX(w), DX(owner), t);
    PartThird(DY(w), DY(owner), t);
    var q := Along(owner, t);
    AlongCollinear(q, owner, t);
    ThirdsCollinear(r, p, q, owner);
  }

  /** `change_start_line`: a new start point attached to a new start line. */
  function ChangeStart(a: Anchored, p: Point, owner: Line): (r: Anchored)
    ensures r.start == p && r.startLine == owner
    ensures r.end == a.end && r.endLine == a.endLine
  {
    a.(start := p, startLine := owner)
  }

  /** `change_end_line` as the source writes it: it overwrites the START point
      and start line with the new end point and end line. */
  function ChangeEndAsWritten(a: Anchored, p: Point, owner: Line): (r: Anchored)
    ensures r.start == p && r.startLine == owner
    ensures r.end == a.end && r.endLine == a.endLine
  {
    ChangeStart(a, p, owner)
  }

  /** `change_end_line` as its documentation describes it: a new end point
      attached to a new end line; the start is kept. */
  function ChangeEnd(a: Anchored, p: Point, owner: Line): (r: Anchored)
    ensures r.end == p && r.endLine == owner
    ensures r.start == a.start && r.startLine == a.startLine
  {
    a.(end := p, endLine := owner)
  }

  /** Re-attaching both ends one after the other, with the end re-attached as
      written, loses the new start and never moves the end. */
  lemma ChangeEndAsWrittenLosesStart(a: Anchored, s: Point, ls: Line, e: Point, le: Line)
    requires !Same(s, e)
    ensures var r := ChangeEndAsWritten(ChangeStart(a, s, ls), e, le);
            !Same(r.start, s) && r.end == a.end && r.endLine == a.endLine
  {
  }

  /** With the corrected `change_end_line`, re-attaching both ends gives
      exactly the new ends on the new owners, in either order. */
  lemma ChangeBothEnds(a: Anchored, s: Point, ls: Line, e: Point, le: Line)
    ensures ChangeEnd(ChangeStart(a, s, ls), e, le) == Anchored(s, e, ls, le)
    ensures ChangeStart(ChangeEnd(a, e, le), s, ls) == Anchored(s, e, ls, le)
  {
  }

  /** Both ends lie on their owner lines. */
  predicate Attached(a: Anchored)
  {
    OnSegment(a.start, a.startLine) && OnSegment(a.end, a.endLine)
  }

  /** `jiggle_start`: the start moves to a random point of its jiggle window;
      it stays on its owner if it was on it, and nothing else changes. */
  function JiggledStart(a: Anchored, t: real): (r: Anchored)
    requires 0.0 <= t <= 1.0
    ensures r.end == a.end && r.startLine == a.startLine && r.endLine == a.endLine
    ensures OnSegment(a.start, a.startLine) ==> OnSegment(r.start, r.startLine)
    ensures InBox(r.start, JiggleWindow(a.start, a.startLine))
  {
    if OnSegment(a.start, a.startLine) then
      JiggleStaysOnOwner(a.start, a.startLine, t);
      a.(start := Lines.RandomPoint(JiggleWindow(a.start, a.startLine), t))
    else
      a.(start := Lines.RandomPoint(JiggleWindow(a.start, a.startLine), t))
  }

  /** `jiggle_end`: the end moves to a random point of its jiggle window; it
      stays on its owner if it was on it, and nothing else changes. */
  function JiggledEnd(a: Anchored, t: real): (r: Anchored)
    requires 0.0 <= t <= 1.0
    ensures r.start == a.start && r.startLine == a.startLine && r.endLine == a.endLine
    ensures OnSegment(a.end, a.endLine) ==> OnSegment(r.end, r.endLine)
    ensures InBox(r.end, JiggleWindow(a.end, a.endLine))
  {
    if OnSegment(a.end, a.endLine) then
      JiggleStaysOnOwner(a.end, a.endLine, t);
      a.(end := Lines.RandomPoint(JiggleWindow(a.end, a.endLine), t))
    else
      a.(end := Lines.RandomPoint(JiggleWindow(a.end, a.endLine), t))
  }

  /** `jiggle_all`: the start is jiggled; then a line that was horizontal
      (vertical) gets its end where the horizontal (vertical) through the new
      start meets the end line, and any other line jiggles its end too. When
      the end line is parallel to that horizontal (vertical) the intersection
      fails and only the start has moved. */
  function JiggledAll(a: Anchored, t: real, u: real): (r: Anchored)
    requires 0.0 <= t <= 1.0 && 0.0 <= u <= 1.0
    ensures r.startLine == a.startLine && r.endLine == a.endLine
    ensures r.start == JiggledStart(a, t).start
    ensures OnSegment(a.start, a.startLine) ==> OnSegment(r.start, r.startLine)
    ensures OrientationOf(Line(a.start, a.end)) == Horizontal ==>
              (if Abs(DY(a.endLine)) < 0.0001 then r.end == a.end
               else r.end.y == r.start.y && Collinear(r.end, a.endLine))
    ensures OrientationOf(Line(a.start, a.end)) == Vertical ==>
              (if Abs(DX(a.endLine)) < 0.0001 then r.end == a.end
               else r.end.x == r.start.x && Collinear(r.end, a.endLine))
    ensures OrientationOf(Line(a.start, a.end)) == Diagonal ==>
              (OnSegment(a.end, a.endLine) ==> OnSegment(r.end, r.endLine))
  {
    var b := JiggledStart(a, t);
    match OrientationOf(Line(a.start, a.end))
    case Horizontal =>
      assert CrossDir(Line(b.start, Plus(b.start, At(1.0, 0.0))), a.endLine) == DY(a.endLine);
      EndAcross(b, At(1.0, 0.0))
    case Vertical =>
      assert CrossDir(Line(b.start, Plus(b.start, At(0.0, 1.0))), a.endLine) == -DX(a.endLine);
      EndAcross(b, At(0.0, 1.0))
    case Diagonal =>
      JiggledEnd(b, u)
  }

  /** The end moved to where the line from the start in direction `step`
      meets the end line; unchanged when the two are (nearly) parallel. */
  function EndAcross(b: Anchored, step: Point): (r: Anchored)
    ensures r.start == b.start && r.startLine == b.startLine && r.endLine == b.endLine
    ensures var h := Line(b.start, Plus(b.start, step));
            if Abs(CrossDir(h, b.endLine)) < 0.0001 then r.end == b.end
            else Collinear(r.end, b.endLine) &&
                 (step.y == 0.0 ==> r.end.y == b.start.y) && (step.x == 0.0 ==> r.end.x == b.start.x)
  {
    match Intersection(Line(b.start, Plus(b.start, step)), b.endLine)
    case Ok(q) => b.(end := q)
    case Err(_) => b
  }

  /** Whether `extend_to_parents` succeeds: the line meets both owners and
      both meeting points are inside the frame. */
  predicate Extendable(a: Anchored, f: Frame)
  {
    var l := Line(a.start, a.end);
    Intersection(l, a.startLine).Ok? && Intersection(l, a.endLine).Ok? &&
    IsInFrame(Intersection(l, a.startLine).value, f) && IsInFrame(Intersection(l, a.endLine).value, f)
  }

  /** `extend_to_parents`: the line is stretched along itself until it meets
      both owners when both meeting points lie in the frame; otherwise it is
      replaced by a line between random points of the two owners. Either way
      each end lies on its owner afterwards. */
  function ExtendedToParents(a: Anchored, f: Frame, t: real, u: real): (r: Anchored)
    requires 0.0 <= t <= 1.0 && 0.0 <= u <= 1.0
    ensures r.startLine == a.startLine && r.endLine == a.endLine
    ensures Collinear(r.start, a.startLine) && Collinear(r.end, a.endLine)
    ensures Extendable(a, f) ==>
              Collinear(r.start, Line(a.start, a.end)) && Collinear(r.end, Line(a.start, a.end)) &&
              IsInFrame(r.start, f) && IsInFrame(r.end, f)
    ensures !Extendable(a, f) ==> Attached(r)
  {
    var l := Line(a.start, a.end);
    if Extendable(a, f) then
      a.(start := Intersection(l, a.startLine).value, end := Intersection(l, a.endLine).value)
    else
      a.(start := Lines.RandomPoint(a.startLine, t), end := Lines.RandomPoint(a.endLine, u))
  }

  /** A line attached at both ends stays attached after jiggling both ends
      when it is diagonal. */
  lemma JiggledDiagonalStaysAttached(a: Anchored, t: real, u: real)
    requires 0.0 <= t <= 1.0 && 0.0 <= u <= 1.0
    requires Attached(a) && OrientationOf(Line(a.start, a.end)) == Diagonal
    ensures Attached(JiggledAll(a, t, u))
  {
  }

  /** The source's `AttachedLine`: a line whose ends are attached to a start
      line and an end line. */
  class AttachedLine {
    var start: Point
    var end: Point
    var startLine: Line
    var endLine: Line

    function State(): Anchored
      reads this
    {
      Anchored(start, end, startLine, endLine)
    }

    constructor(a: Anchored)
      ensures State() == a
    {
      start := a.start;
      end := a.end;
      startLine := a.startLine;
      endLine := a.endLine;
    }

    method ChangeStartLine(p: Point, owner: Line)
      modifies this
      ensures State() == ChangeStart(old(State()), p, owner)
    {
      start := p;
      startLine := owner;
    }

    method ChangeEndLine(p: Point, owner: Line)
      modifies this
      ensures State() == ChangeEnd(old(State()), p, owner)
    {
      end := p;
      endLine := owner;
    }

    method JiggleStart(t: real)
      requires 0.0 <= t <= 1.0
      modifies this
      ensures State() == JiggledStart(old(State()), t)
    {
      start := Lines.RandomPoint(JiggleWindow(start, startLine), t);
    }

    method JiggleEnd(t: real)
      requires 0.0 <= t <= 1.0
      modifies this
      ensures State() == JiggledEnd(old(State()), t)
    {
      end := Lines.RandomPoint(JiggleWindow(end, endLine), t);
    }

    method JiggleAll(t: real, u: real)
      requires 0.0 <= t <= 1.0 && 0.0 <= u <= 1.0
      modifies this
      ensures State() == JiggledAll(old(State()), t, u)
    {
      var o := OrientationOf(Line(start, end));
      JiggleStart(t);
      if o == Horizontal {
        var i := Intersection(Line(start, Plus(start, At(1.0, 0.0))), endLine);
        if i.Ok? {
          end := i.value;
        }
      } else if o == Vertical {
        var i := Intersection(Line(start, Plus(start, At(0.0, 1.0))), endLine);
        if i.Ok? {
          end := i.value;
        }
      } else {
        JiggleEnd(u);
      }
    }

    /** Shifting an attached line is refused and changes nothing. */
    method Shift(dx: real, dy: real) returns (r: Result<bool>)
      ensures r.Err? && r.error == InvalidOperation
    {
      r := Err(InvalidOperation);
    }

    method ExtendToParents(f: Frame, t: real, u: real)
      requires 0.0 <= t <= 1.0 && 0.0 <= u <= 1.0
      modifies this
      ensures State() == ExtendedToParents(old(State()), f, t, u)
    {
      var l := Line(start, end);
      var s := Intersection(l, startLine);
      var e := Intersection(l, endLine);
      if s.Ok? && e.Ok? && IsInFrame(s.value, f) && IsInFrame(e.value, f) {
        start := s.value;
        end := e.value;
      } else {
        start := Lines.RandomPoint(startLine, t);
        end := Lines.RandomPoint(endLine, u);
      }
    }
  }
}
