/** Straight segments between two points, and the queries the stimulus
    construction asks of them. All of it is pure except `FlingToLine`, a bounded
    retry loop over caller-supplied draws. */
module Lines {
  import opened RealArith
  import opened Results
  import opened Points

  datatype Line = Line(start: Point, end: Point)

  datatype Orientation = Horizontal | Vertical | Diagonal

  /** A line whose two ends are anchored to owner lines (the value that the
      source wraps in an `AttachedLine`). */
  datatype Anchored = Anchored(start: Point, end: Point, startLine: Line, endLine: Line)

  function DX(l: Line): real { l.end.x - l.start.x }
  function DY(l: Line): real { l.end.y - l.start.y }

  /** Horizontal exactly when both ends have the same y, with no tolerance:
      the line does not rise, whichever end comes first. */
  predicate IsHorizontal(l: Line)
    ensures IsHorizontal(l) <==> DY(l) == 0.0 && DY(Line(l.end, l.start)) == 0.0
  {
    l.start.y == l.end.y
  }

  /** Vertical exactly when both ends have the same x, with no tolerance:
      the line has no run, whichever end comes first. */
  predicate IsVertical(l: Line)
    ensures IsVertical(l) <==> DX(l) == 0.0 && DX(Line(l.end, l.start)) == 0.0
  {
    l.start.x == l.end.x
  }

  /** `Line.shift`: both end points move by `(dx, dy)` and keep their
      `grown` flags, so the direction, and with it the orientation and every
      slope-based query, is unchanged. */
  function ShiftedLine(l: Line, dx: real, dy: real): (r: Line)
    ensures Same(Minus(r.start, l.start), At(dx, dy)) && Same(Minus(r.end, l.end), At(dx, dy))
    ensures r.start.grown == l.start.grown && r.end.grown == l.end.grown
    ensures DX(r) == DX(l) && DY(r) == DY(l)
    ensures OrientationOf(r) == OrientationOf(l)
  {
    Line(Shifted(l.start, dx, dy), Shifted(l.end, dx, dy))
  }

  /** Vertical is tested first, so a zero-length line counts as vertical. */
  function OrientationOf(l: Line): (o: Orientation)
    ensures o == Vertical <==> IsVertical(l)
    ensures o == Horizontal <==> IsHorizontal(l) && !IsVertical(l)
    ensures o == Diagonal <==> !IsHorizontal(l) && !IsVertical(l)
  {
    if IsVertical(l) then Vertical
    else if IsHorizontal(l) then Horizontal
    else Diagonal
  }

  lemma ZeroLengthIsVertical(l: Line)
    requires Same(l.start, l.end)
    ensures OrientationOf(l) == Vertical
  {
  }

  /** `p` lies on the infinite line through `l`'s two ends (cross product zero). */
  predicate Collinear(p: Point, l: Line)
  {
    (p.x - l.start.x) * DY(l) == (p.y - l.start.y) * DX(l)
  }

  /** `p` lies in the closed box spanned by `l`'s two ends. */
  predicate InBox(p: Point, l: Line)
  {
    Between(p.x, l.start.x, l.end.x) && Between(p.y, l.start.y, l.end.y)
  }

  /** The slope `dy / dx`: an error for axis-aligned lines; otherwise a
      non-zero number that turns the run into the rise. */
  function Slope(l: Line): (r: Result<real>)
    ensures r.Err? <==> IsVertical(l) || IsHorizontal(l)
    ensures r.Err? ==> r.error == UndefinedSlope
    ensures r.Ok? ==> r.value != 0.0 && r.value * DX(l) == DY(l)
  {
    if IsVertical(l) || IsHorizontal(l) then Err(UndefinedSlope)
    else
      DivMul(DY(l), DX(l));
      Ok(DY(l) / DX(l))
  }

  /** The rise of a line of slope `k` over the run `run`. */
  function Rise(run: real, k: real): real
  {
    run * k
  }

  /** The point of the line with x coordinate `c`; fails like `Slope`. */
  function PointAtX(l: Line, c: real): (r: Result<Point>)
    ensures r.Err? <==> Slope(l).Err?
    ensures r.Ok? ==> r.value.x == c && Collinear(r.value, l) && !r.value.grown
  {
    match Slope(l)
    case Err(e) => Err(e)
    case Ok(k) =>
      var p := Plus(l.start, At(c - l.start.x, Rise(c - l.start.x, k)));
      SlopeStep(p, l, k);
      Ok(p)
  }

  /** The point of the line with y coordinate `c`; fails like `Slope`. */
  function PointAtY(l: Line, c: real): (r: Result<Point>)
    ensures r.Err? <==> Slope(l).Err?
    ensures r.Ok? ==> r.value.y == c && Collinear(r.value, l) && !r.value.grown
  {
    match Slope(l)
    case Err(e) => Err(e)
    case Ok(k) =>
      var p := Plus(l.start, At((c - l.start.y) / k, c - l.start.y));
      DivMul(c - l.start.y, k);
      SlopeStep(p, l, k);
      Ok(p)
  }

  /** A step from the start of `l` whose rise is its run times the slope of
      `l` ends on `l`. */
  lemma SlopeStep(p: Point, l: Line, k: real)
    requires k * DX(l) == DY(l)
    requires p.y - l.start.y == Rise(p.x - l.start.x, k)
    ensures Collinear(p, l)
  {
    OnSlope(p.x - l.start.x, k, DX(l), DY(l));
  }

  /** `random.uniform(a, b)` for the draw `t` in [0, 1]: a value between `a`
      and `b`, equal to `a` for `t = 0` and to `b` for `t = 1`. */
  function Uniform(a: real, b: real, t: real): (r: real)
    requires 0.0 <= t <= 1.0
    ensures Between(r, a, b)
    ensures t == 0.0 ==> r == a
    ensures t == 1.0 ==> r == b
  {
    MulUnit(b - a, t);
    a + Part(b - a, t)
  }

  /** The point a fraction `t` of the way from the start of `l` to its end. */
  function Along(l: Line, t: real): Point
  {
    At(l.start.x + Part(DX(l), t), l.start.y + Part(DY(l), t))
  }

  /** A random point of the segment for the draw `t`: it lies on the line and
      between the ends; an axis-aligned line keeps its fixed coordinate. */
  function RandomPoint(l: Line, t: real): (r: Point)
    requires 0.0 <= t <= 1.0
    ensures Collinear(r, l) && InBox(r, l) && !r.grown
    ensures IsHorizontal(l) ==> r.y == l.start.y
    ensures IsVertical(l) ==> r.x == l.start.x
  {
    if IsHorizontal(l) then
      At(Uniform(l.start.x, l.end.x, t), l.start.y)
    else if IsVertical(l) then
      At(l.start.x, Uniform(l.start.y, l.end.y, t))
    else
      var x := Uniform(l.start.x, l.end.x, t);
      var k := Slope(l).value;
      var y := Rise(x - l.start.x, k) + l.start.y;
      DiagonalDraw(l, t, k);
      AlongCollinear(At(x, y), l, t);
      At(x, y)
  }

  /** On a diagonal line the draw `t` moves `t` times the run and `t` times the
      rise, and the rise stays between 0 and the full rise. */
  lemma DiagonalDraw(l: Line, t: real, k: real)
    requires 0.0 <= t <= 1.0 && k * DX(l) == DY(l)
    ensures Uniform(l.start.x, l.end.x, t) - l.start.x == Part(DX(l), t)
    ensures Rise(Uniform(l.start.x, l.end.x, t) - l.start.x, k) == Part(DY(l), t)
    ensures Between(Part(DY(l), t), 0.0, DY(l))
  {
    assert Uniform(l.start.x, l.end.x, t) - l.start.x == Part(DX(l), t);
    RiseOfPart(DX(l), DY(l), k, t);
    MulUnit(DY(l), t);
  }

  /** A random point is the point the draw's fraction of the way along. */
  lemma RandomPointAlong(l: Line, t: real)
    requires 0.0 <= t <= 1.0
    ensures Same(RandomPoint(l, t), Along(l, t))
  {
    PartOfZero(DY(l), t);
    PartOfZero(DX(l), t);
    if !IsHorizontal(l) && !IsVertical(l) {
      DiagonalDraw(l, t, Slope(l).value);
    }
  }

  /** Every point a fraction of the way along `l` lies on `l`. */
  lemma AlongCollinear(p: Point, l: Line, t: real)
    requires p.x == l.start.x + Part(DX(l), t) && p.y == l.start.y + Part(DY(l), t)
    ensures Collinear(p, l)
  {
    Distrib(p.x, l.start.x, Part(DX(l), t), DY(l));
    Distrib(p.y, l.start.y, Part(DY(l), t), DX(l));
    PartCross(DX(l), DY(l), t);
  }

  /** Moving by `u` along a line of slope `k` rises by `u * k`: the cross
      product with the direction `(dx, dy)` vanishes. */
  lemma OnSlope(u: real, k: real, dx: real, dy: real)
    requires k * dx == dy
    ensures u * dy == Rise(u, k) * dx
  {
    calc {
      u * dy;
      u * (k * dx);
      (u * k) * dx;
    }
  }

  /** The fraction `t` of a run, along slope `k`, rises the fraction `t` of
      the full rise. */
  lemma RiseOfPart(dx: real, dy: real, k: real, t: real)
    requires k * dx == dy
    ensures Rise(Part(dx, t), k) == Part(dy, t)
  {
    calc {
      (dx * t) * k;
      (k * dx) * t;
      dy * t;
    }
  }

  /** The source's tolerant membership test, accurate to 0.001. A line's own
      start passes it. */
  predicate IsOnLine(p: Point, l: Line)
    ensures Same(p, l.start) ==> IsOnLine(p, l)
  {
    if IsHorizontal(l) then Abs(l.start.y - p.y) < 0.001
    else if IsVertical(l) then Abs(l.start.x - p.x) < 0.001
    else
      var k := Slope(l).value;
      Abs(l.start.y + Rise(p.x - l.start.x, k) - p.y) < 0.001
  }

  /** An exactly collinear point passes the tolerant test on any line of
      positive length. */
  lemma CollinearIsOnLine(p: Point, l: Line)
    requires Collinear(p, l) && !Same(l.start, l.end)
    ensures IsOnLine(p, l)
  {
    if IsHorizontal(l) {
      assert DX(l) != 0.0;
      Cancel(p.y - l.start.y, 0.0, DX(l));
    } else if IsVertical(l) {
      assert DY(l) != 0.0;
      Cancel(p.x - l.start.x, 0.0, DY(l));
    } else {
      var k := Slope(l).value;
      OnSlope(p.x - l.start.x, k, DX(l), DY(l));
      Cancel(Rise(p.x - l.start.x, k), p.y - l.start.y, DX(l));
    }
  }

  lemma Cancel(a: real, b: real, d: real)
    requires a * d == b * d && d != 0.0
    ensures a == b
  {
    assert (a - b) * d == 0.0;
  }

  /** The separation metric: the larger of the two distances from each of
      `l`'s ends to the nearer end of `o` (squared). */
  function MaxDist2(l: Line, o: Line): (r: real)
    ensures r >= 0.0
  {
    Max(Min(Dist2(l.start, o.start), Dist2(l.start, o.end)),
        Min(Dist2(l.end, o.start), Dist2(l.end, o.end)))
  }

  /** At least `d` apart exactly when one end of `l` is at least `d` from both
      ends of `o`. */
  lemma MaxDist2AtLeast(l: Line, o: Line, d: real)
    ensures MaxDist2(l, o) >= d <==>
      (Dist2(l.start, o.start) >= d && Dist2(l.start, o.end) >= d) ||
      (Dist2(l.end, o.start) >= d && Dist2(l.end, o.end) >= d)
  {
  }

  /** Swapping the other line's ends does not change the metric. */
  lemma MaxDist2SwapOther(l: Line, o: Line)
    ensures MaxDist2(l, Line(o.end, o.start)) == MaxDist2(l, o)
  {
  }

  lemma MaxDist2Self(l: Line)
    ensures MaxDist2(l, l) == 0.0
  {
    assert Dist2(l.start, l.start) == 0.0;
    assert Dist2(l.end, l.end) == 0.0;
  }

  /** The cross product of the two direction vectors. */
  function CrossDir(l: Line, o: Line): real
  {
    DX(l) * DY(o) - DY(l) * DX(o)
  }

  /** Where `l` and `o` meet, by Cramer's rule on `start_l + t * dir_l =
      start_o + u * dir_o`; nearly parallel lines (cross product below 1/10000
      in size) are an error. The result lies on both lines. */
  function Intersection(l: Line, o: Line): (r: Result<Point>)
    ensures r.Err? <==> Abs(CrossDir(l, o)) < 0.0001
    ensures r.Err? ==> r.error == ParallelLines
    ensures r.Ok? ==> Collinear(r.value, l) && Collinear(r.value, o)
    ensures r.Ok? ==> exists t :: r.value == Along(l, t)
    ensures r.Ok? && IsHorizontal(l) ==> r.value.y == l.start.y
    ensures r.Ok? && IsVertical(l) ==> r.value.x == l.start.x
  {
    var det := CrossDir(l, o);
    if Abs(det) < 0.0001 then Err(ParallelLines)
    else
      var ex := o.start.x - l.start.x;
      var ey := o.start.y - l.start.y;
      var t := (ex * DY(o) - DX(o) * ey) / det;
      var u := (DX(l) * ey - ex * DY(l)) / det;
      Cramer(DX(l), DY(l), DX(o), DY(o), ex, ey, det, t, u);
      assert Part(DX(l), t) + Part(DX(o), u) == ex;
      assert Part(DY(l), t) + Part(DY(o), u) == ey;
      AlongCollinear(Along(l, t), l, t);
      AlongOtherIsCollinear(l, o, t, u);
      PartOfZero(DY(l), t);
      PartOfZero(DX(l), t);
      Ok(Along(l, t))
  }

  /** Cramer's rule for the 2x2 system with columns `(a, b)` and `(c, d)`. */
  lemma Cramer(a: real, b: real, c: real, d: real, ex: real, ey: real, det: real, t: real, u: real)
    requires det == a * d - b * c && det != 0.0
    requires t == (ex * d - c * ey) / det
    requires u == (a * ey - ex * b) / det
    ensures t * a + u * c == ex
    ensures t * b + u * d == ey
  {
    var tn := ex * d - c * ey;
    var un := a * ey - ex * b;
    DivMul(tn, det);
    DivMul(un, det);
    assert tn * a + un * c == ex * det;
    assert tn * b + un * d == ey * det;
    ScaledSum(t, u, a, c, det, tn, un, ex);
    ScaledSum(t, u, b, d, det, tn, un, ey);
  }

  lemma ScaledSum(t: real, u: real, p: real, q: real, det: real, tn: real, un: real, e: real)
    requires det != 0.0 && t * det == tn && u * det == un
    requires tn * p + un * q == e * det
    ensures t * p + u * q == e
  {
    assert (t * p + u * q) * det == (t * det) * p + (u * det) * q;
    Cancel(t * p + u * q, e, det);
  }

  /** The point found along `l` by Cramer's rule is also on `o`. */
  lemma AlongOtherIsCollinear(l: Line, o: Line, t: real, u: real)
    requires Part(DX(l), t) + Part(DX(o), u) == o.start.x - l.start.x
    requires Part(DY(l), t) + Part(DY(o), u) == o.start.y - l.start.y
    ensures Collinear(Along(l, t), o)
  {
    var p := Along(l, t);
    assert p.x - o.start.x == -Part(DX(o), u);
    assert p.y - o.start.y == -Part(DY(o), u);
    PartCross(DX(o), DY(o), u);
    assert (-Part(DX(o), u)) * DY(o) == (-Part(DY(o), u)) * DX(o);
  }

  /** One attempt of `fling_to_line`: a random point of `l` to a random point of `o`. */
  function Attempt(l: Line, o: Line, d: (real, real)): (a: Anchored)
    requires 0.0 <= d.0 <= 1.0 && 0.0 <= d.1 <= 1.0
    ensures Collinear(a.start, l) && InBox(a.start, l)
    ensures Collinear(a.end, o) && InBox(a.end, o)
    ensures a.startLine == l && a.endLine == o
  {
    Anchored(RandomPoint(l, d.0), RandomPoint(o, d.1), l, o)
  }

  /** A flung line must be longer than 50 units. */
  predicate FarEnough(a: Anchored)
  {
    Dist2(a.start, a.end) > 2500.0
  }

  predicate UnitDraws(draws: seq<(real, real)>)
  {
    forall i :: 0 <= i < |draws| ==> 0.0 <= draws[i].0 <= 1.0 && 0.0 <= draws[i].1 <= 1.0
  }

  /** The number of attempts `fling_to_line` and `fling_side_to_line` make. */
  const Attempts := 100

  /** What `fling_to_line` gives from the attempt `n` on: the first of the
      attempts `n` to 99 that is longer than 50, or `TooClose` when there is
      none (`FirstFarAttemptSpec` states it). */
  function FirstFarAttempt(l: Line, o: Line, draws: seq<(real, real)>, n: nat): (r: Result<Anchored>)
    requires n <= Attempts <= |draws| && UnitDraws(draws)
    ensures r.Err? ==> r.error == TooClose
    decreases Attempts - n
  {
    if n == Attempts then Err(TooClose)
    else
      var a := Attempt(l, o, draws[n]);
      if FarEnough(a) then Ok(a) else FirstFarAttempt(l, o, draws, n + 1)
  }

  /** The fling from attempt `n` on succeeds with the first attempt that is
      longer than 50, every earlier one being 50 or shorter, and fails exactly
      when all of them are 50 or shorter. */
  lemma {:induction false} FirstFarAttemptSpec(l: Line, o: Line, draws: seq<(real, real)>, n: nat)
    requires n <= Attempts <= |draws| && UnitDraws(draws)
    ensures var r := FirstFarAttempt(l, o, draws, n);
      (r.Ok? ==> exists i :: n <= i < Attempts && r.value == Attempt(l, o, draws[i]) &&
                   FarEnough(r.value) && forall j :: n <= j < i ==> !FarEnough(Attempt(l, o, draws[j]))) &&
      (r.Err? <==> forall i :: n <= i < Attempts ==> !FarEnough(Attempt(l, o, draws[i])))
    decreases Attempts - n
  {
    if n < Attempts {
      FirstFarAttemptSpec(l, o, draws, n + 1);
      if FarEnough(Attempt(l, o, draws[n])) {
        assert FirstFarAttempt(l, o, draws, n).value == Attempt(l, o, draws[n]);
      }
    }
  }

  /** A line from `l` to `o`, retried with the draws until it is longer than
      50; after 100 failed attempts it gives up. On success the result is the
      first attempt that was far enough. */
  method FlingToLine(l: Line, o: Line, draws: seq<(real, real)>) returns (r: Result<Anchored>)
    requires |draws| >= Attempts && UnitDraws(draws)
    ensures r == FirstFarAttempt(l, o, draws, 0)
    ensures r.Ok? ==> (exists i :: 0 <= i < Attempts && r.value == Attempt(l, o, draws[i]) &&
                        FarEnough(r.value) && forall j :: 0 <= j < i ==> !FarEnough(Attempt(l, o, draws[j])))
    ensures r.Err? ==> (r.error == TooClose &&
                        forall i :: 0 <= i < Attempts ==> !FarEnough(Attempt(l, o, draws[i])))
  {
    var distantEnough := false;
    var counter := Attempts;
    var a := Attempt(l, o, draws[0]);
    while !distantEnough
      invariant 0 <= counter <= Attempts
      invariant !distantEnough ==> FirstFarAttempt(l, o, draws, 0) == FirstFarAttempt(l, o, draws, Attempts - counter)
      invariant distantEnough ==> FirstFarAttempt(l, o, draws, 0) == Ok(a)
      decreases counter, !distantEnough
    {
      if counter <= 0 {
        FirstFarAttemptSpec(l, o, draws, 0);
        return Err(TooClose);
      }
      a := Attempt(l, o, draws[Attempts - counter]);
      if FarEnough(a) {
        distantEnough := true;
      }
      counter := counter - 1;
    }
    FirstFarAttemptSpec(l, o, draws, 0);
    return Ok(a);
  }
}
