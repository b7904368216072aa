/** The embedded figure: a polyline over a store of shared vertices. The
    source's lines hold references to point objects that several lines share,
    so moving a vertex moves every line through it; here the lines hold
    indices into the vertex store instead. This module gives the figure's
    queries and transformations as functions of a `Shape` (a snapshot of the
    figure's state) together with their properties; the class `Figure` at the
    end keeps that state in fields and updates it in place. */
module Figures {
  import opened RealArith
  import opened Results
  import opened Points
  import opened Lines
  import opened Frames
  import opened Clipping
  import opened Growing

  /** A line of the figure: the indices of its start and end vertex, its
      one-shot `extended` flag, and its extended end points, `None` while they
      are still the vertices themselves (they are only replaced when the line
      is extended to the frame). */
  datatype Edge = Edge(s: nat, e: nat, extended: bool, ext: Option<Line>)

  /** The state of a figure: its vertices (the source's `all_points`, each
      point object once, in order of first use), its lines, its two axis
      locks and whether it is closed. */
  datatype Shape = Shape(vs: seq<Point>, es: seq<Edge>, lockedX: bool, lockedY: bool, closed: bool)

  predicate EdgesIn(es: seq<Edge>, n: nat)
  {
    forall k :: 0 <= k < |es| ==> es[k].s < n && es[k].e < n
  }

  /** Vertex `i` is an end of some line. */
  predicate Used(es: seq<Edge>, i: nat)
  {
    exists k :: 0 <= k < |es| && (es[k].s == i || es[k].e == i)
  }

  /** At least one line, every line between stored vertices, and every stored
      vertex an end of a line. */
  predicate WellFormed(st: Shape)
  {
    |st.es| > 0 && |st.vs| > 0 && EdgesIn(st.es, |st.vs|) && forall i :: 0 <= i < |st.vs| ==> Used(st.es, i)
  }

  /** Two line lists with the same ends in the same order. */
  predicate SameEnds(es: seq<Edge>, es': seq<Edge>)
  {
    |es| == |es'| && forall k :: 0 <= k < |es| ==> es'[k].s == es[k].s && es'[k].e == es[k].e
  }

  /** Changing the vertices' coordinates or the lines' flags keeps a shape
      well formed. */
  lemma WellFormedKept(st: Shape, vs: seq<Point>, es: seq<Edge>)
    requires WellFormed(st) && |vs| == |st.vs| && SameEnds(st.es, es)
    ensures WellFormed(st.(vs := vs, es := es))
  {
    forall i | 0 <= i < |vs|
      ensures Used(es, i)
    {
      assert Used(st.es, i);
      var k :| 0 <= k < |st.es| && (st.es[k].s == i || st.es[k].e == i);
      assert es[k].s == i || es[k].e == i;
    }
  }

  // ---------------------------------------------------------------------
  // Bounding box

  /** Top and bottom are about y coordinates, right and left about x. */
  predicate AboutY(side: Side)
  {
    side == TopSide || side == BottomSide
  }

  /** Top and right are maxima, bottom and left minima. */
  predicate Upper(side: Side)
  {
    side == TopSide || side == RightSide
  }

  function Coord(p: Point, side: Side): real
  {
    if AboutY(side) then p.y else p.x
  }

  /** The coordinate the other way: x for top and bottom, y for the sides. */
  function CoordAcross(p: Point, side: Side): real
  {
    if AboutY(side) then p.x else p.y
  }

  /** The figure's extreme coordinate towards `side`: `get_highest_y_coord`
      for the top, `get_highest_x_coord` for the right, `get_lowest_y_coord`
      for the bottom and `get_lowest_x_coord` for the left
      (`ExtremeBounds` states what it is). */
  function Extreme(vs: seq<Point>, side: Side): (r: real)
    requires |vs| > 0
  {
    if |vs| == 1 then Coord(vs[0], side)
    else if Upper(side) then Max(Extreme(vs[..|vs| - 1], side), Coord(vs[|vs| - 1], side))
    else Min(Extreme(vs[..|vs| - 1], side), Coord(vs[|vs| - 1], side))
  }

  /** Vertex `i` lies on the inner side of `m` towards `side`. */
  predicate Within(vs: seq<Point>, i: nat, side: Side, m: real)
    requires i < |vs|
  {
    if Upper(side) then Coord(vs[i], side) <= m else m <= Coord(vs[i], side)
  }

  /** Every vertex lies on the inner side of the extreme and some vertex
      attains it. */
  lemma {:induction false} ExtremeBounds(vs: seq<Point>, side: Side)
    requires |vs| > 0
    ensures forall i :: 0 <= i < |vs| ==> Within(vs, i, side, Extreme(vs, side))
    ensures exists i :: 0 <= i < |vs| && Coord(vs[i], side) == Extreme(vs, side)
    decreases |vs|
  {
    if |vs| > 1 {
      var n := |vs| - 1;
      var ws := vs[..n];
      ExtremeBounds(ws, side);
      var m := Extreme(vs, side);
      forall i | 0 <= i < |vs|
        ensures Within(vs, i, side, m)
      {
        if i < n {
          assert ws[i] == vs[i];
          assert Within(ws, i, side, Extreme(ws, side));
        }
      }
      var j :| 0 <= j < n && Coord(ws[j], side) == Extreme(ws, side);
      assert ws[j] == vs[j];
      if Coord(vs[n], side) == m {
        assert Coord(vs[n], side) == Extreme(vs, side);
      } else {
        assert Coord(vs[j], side) == Extreme(vs, side);
      }
    } else {
      assert Coord(vs[0], side) == Extreme(vs, side);
    }
  }

  /** The figure's width and height, measured when it is built, are never
      negative. */
  lemma ExtentNonNegative(vs: seq<Point>)
    requires |vs| > 0
    ensures Extreme(vs, LeftSide) <= Extreme(vs, RightSide)
    ensures Extreme(vs, BottomSide) <= Extreme(vs, TopSide)
  {
    ExtremeBounds(vs, LeftSide);
    ExtremeBounds(vs, RightSide);
    ExtremeBounds(vs, BottomSide);
    ExtremeBounds(vs, TopSide);
    var i :| 0 <= i < |vs| && Coord(vs[i], LeftSide) == Extreme(vs, LeftSide);
    assert Within(vs, i, RightSide, Extreme(vs, RightSide));
    var j :| 0 <= j < |vs| && Coord(vs[j], BottomSide) == Extreme(vs, BottomSide);
    assert Within(vs, j, TopSide, Extreme(vs, TopSide));
  }

  /** Every vertex moved by `(dx, dy)`; its `grown` flag travels with it. */
  function ShiftAll(vs: seq<Point>, dx: real, dy: real): (r: seq<Point>)
    ensures |r| == |vs|
    ensures forall i :: 0 <= i < |vs| ==> r[i] == Shifted(vs[i], dx, dy)
  {
    seq(|vs|, i requires 0 <= i < |vs| => Shifted(vs[i], dx, dy))
  }

  /** Moving the figure moves each extreme by the shift along its axis. */
  lemma ExtremeShift(vs: seq<Point>, dx: real, dy: real, side: Side)
    requires |vs| > 0
    ensures Extreme(ShiftAll(vs, dx, dy), side) == Extreme(vs, side) + (if AboutY(side) then dy else dx)
  {
    var ws := ShiftAll(vs, dx, dy);
    var d := if AboutY(side) then dy else dx;
    ExtremeBounds(vs, side);
    ExtremeBounds(ws, side);
    var i :| 0 <= i < |vs| && Coord(vs[i], side) == Extreme(vs, side);
    var j :| 0 <= j < |ws| && Coord(ws[j], side) == Extreme(ws, side);
    assert Coord(ws[i], side) == Coord(vs[i], side) + d;
    assert Coord(ws[j], side) == Coord(vs[j], side) + d;
    assert Within(ws, i, side, Extreme(ws, side));
    assert Within(vs, j, side, Extreme(vs, side));
  }

  /** Moving the figure keeps its width and height. */
  lemma ShiftKeepsExtent(vs: seq<Point>, dx: real, dy: real)
    requires |vs| > 0
    ensures Extreme(ShiftAll(vs, dx, dy), RightSide) - Extreme(ShiftAll(vs, dx, dy), LeftSide) ==
            Extreme(vs, RightSide) - Extreme(vs, LeftSide)
    ensures Extreme(ShiftAll(vs, dx, dy), TopSide) - Extreme(ShiftAll(vs, dx, dy), BottomSide) ==
            Extreme(vs, TopSide) - Extreme(vs, BottomSide)
  {
    ExtremeShift(vs, dx, dy, RightSide);
    ExtremeShift(vs, dx, dy, LeftSide);
    ExtremeShift(vs, dx, dy, TopSide);
    ExtremeShift(vs, dx, dy, BottomSide);
  }

  // ---------------------------------------------------------------------
  // Lines at the edge of the figure

  function EdgeLine(vs: seq<Point>, ed: Edge): Line
    requires ed.s < |vs| && ed.e < |vs|
  {
    Line(vs[ed.s], vs[ed.e])
  }

  /** A horizontal line at the top (bottom) of the figure, or a vertical one
      at its right (left); the source compares the line's start point with
      the extreme. */
  predicate AtSide(vs: seq<Point>, ed: Edge, side: Side)
    requires ed.s < |vs| && ed.e < |vs|
  {
    (if AboutY(side) then IsHorizontal(EdgeLine(vs, ed)) else IsVertical(EdgeLine(vs, ed))) &&
    Coord(vs[ed.s], side) == Extreme(vs, side)
  }

  /** The indices, in line order, of the first `n` lines that lie at `side`
      (`has_top_line` and its siblings; an empty result is their `False`). */
  function EdgesAt(vs: seq<Point>, es: seq<Edge>, side: Side, n: nat): (r: seq<nat>)
    requires n <= |es| && EdgesIn(es, |vs|)
    ensures forall k: int :: k in r <==> 0 <= k < n && AtSide(vs, es[k], side)
    ensures forall a, b :: 0 <= a < b < |r| ==> r[a] < r[b]
    ensures forall a :: 0 <= a < |r| ==> r[a] < n
  {
    if n == 0 then []
    else EdgesAt(vs, es, side, n - 1) + (if AtSide(vs, es[n - 1], side) then [n - 1] else [])
  }

  /** The lines of the figure that lie at `side`, in line order, as
      `EdgesAt` states. */
  function SideLines(st: Shape, side: Side): (r: seq<nat>)
    requires WellFormed(st)
    ensures forall k: int :: k in r <==> 0 <= k < |st.es| && AtSide(st.vs, st.es[k], side)
  {
    EdgesAt(st.vs, st.es, side, |st.es|)
  }

  // ---------------------------------------------------------------------
  // Trying candidates in a random order

  /** The position of the first `true` in `bs`, or `|bs|` when there is none:
      the loops that try shuffled candidates and stop at the first that
      succeeds. */
  function FirstTrue(bs: seq<bool>): (i: nat)
    ensures i <= |bs|
    ensures forall j :: 0 <= j < i ==> !bs[j]
    ensures i < |bs| ==> bs[i]
  {
    if |bs| == 0 then 0
    else if bs[0] then 0
    else 1 + FirstTrue(bs[1..])
  }

  // ---------------------------------------------------------------------
  // Aligning with the frame

  function BorderCoord(f: Frame, side: Side): real
  {
    match side
    case TopSide => TopY(f)
    case RightSide => RightX(f)
    case BottomSide => BottomY(f)
    case LeftSide => LeftX(f)
  }

  /** The lock of the axis `side` moves the figure along. */
  predicate Locked(st: Shape, side: Side)
  {
    if AboutY(side) then st.lockedY else st.lockedX
  }

  /** The figure moved along the axis of `side` so that its extreme towards
      `side` reaches that border (`MovedToReaches` states what it does). */
  function MovedTo(vs: seq<Point>, f: Frame, side: Side): (r: seq<Point>)
    requires |vs| > 0
    ensures |r| == |vs|
  {
    var d := BorderCoord(f, side) - Extreme(vs, side);
    ShiftAll(vs, if AboutY(side) then 0.0 else d, if AboutY(side) then d else 0.0)
  }

  /** The shift `MovedTo` applies, written out. */
  lemma MovedToIsShift(vs: seq<Point>, f: Frame, side: Side, dx: real, dy: real)
    requires |vs| > 0
    requires dx == (if AboutY(side) then 0.0 else BorderCoord(f, side) - Extreme(vs, side))
    requires dy == (if AboutY(side) then BorderCoord(f, side) - Extreme(vs, side) else 0.0)
    ensures MovedTo(vs, f, side) == ShiftAll(vs, dx, dy)
  {
  }

  /** Moving to a border brings the extreme onto it, shifts every vertex by
      the same amount along that axis only, and keeps which vertices share a
      position and which have grown a line. */
  lemma MovedToReaches(vs: seq<Point>, f: Frame, side: Side)
    requires |vs| > 0
    ensures Extreme(MovedTo(vs, f, side), side) == BorderCoord(f, side)
    ensures forall i :: 0 <= i < |vs| ==>
              Coord(MovedTo(vs, f, side)[i], side) == Coord(vs[i], side) + (BorderCoord(f, side) - Extreme(vs, side))
    ensures forall i :: 0 <= i < |vs| ==> CoordAcross(MovedTo(vs, f, side)[i], side) == CoordAcross(vs[i], side)
    ensures forall i, j :: 0 <= i < |vs| && 0 <= j < |vs| ==>
              (Same(MovedTo(vs, f, side)[i], MovedTo(vs, f, side)[j]) <==> Same(vs[i], vs[j]))
    ensures forall i :: 0 <= i < |vs| ==> MovedTo(vs, f, side)[i].grown == vs[i].grown
  {
    var d := BorderCoord(f, side) - Extreme(vs, side);
    ExtremeShift(vs, if AboutY(side) then 0.0 else d, if AboutY(side) then d else 0.0, side);
  }

  /** The lines `ks` marked extended; nothing else about any line changes. */
  function MarkExtended(es: seq<Edge>, ks: seq<nat>): (r: seq<Edge>)
    ensures SameEnds(es, r)
    ensures forall k :: 0 <= k < |es| ==> r[k].extended == (es[k].extended || k in ks) && r[k].ext == es[k].ext
  {
    seq(|es|, k requires 0 <= k < |es| => if k in ks then es[k].(extended := true) else es[k])
  }

  /** `align_with_frame_<side>` can act: its axis is free and the figure has
      a line at that side. */
  predicate CanAlign(st: Shape, side: Side)
    requires WellFormed(st)
  {
    !Locked(st, side) && |SideLines(st, side)| > 0
  }

  /** `align_with_frame_<side>` when it acts: the figure moves along one axis
      until its extreme reaches the border, that axis is locked, and the lines
      at that side are marked extended (`AlignedReachesBorder` states it). */
  function Aligned(st: Shape, f: Frame, side: Side): (r: Shape)
    requires WellFormed(st)
    ensures WellFormed(r)
  {
    var vs := MovedTo(st.vs, f, side);
    var es := MarkExtended(st.es, SideLines(st, side));
    WellFormedKept(st, vs, es);
    Shape(vs, es, st.lockedX || !AboutY(side), st.lockedY || AboutY(side), st.closed)
  }

  /** The aligned shape is the one whose vertices are moved to the border and
      whose lines at that side are marked; `Figure.Align` builds it in place. */
  lemma AlignedIs(st: Shape, f: Frame, side: Side, vs: seq<Point>, es: seq<Edge>)
    requires WellFormed(st)
    requires vs == MovedTo(st.vs, f, side)
    requires es == MarkExtended(st.es, SideLines(st, side))
    ensures Aligned(st, f, side) == Shape(vs, es, st.lockedX || !AboutY(side), st.lockedY || AboutY(side), st.closed)
  {
  }

  /** After aligning, the figure's extreme towards `side` lies on that border,
      the other coordinate of every vertex is unchanged, the axis is locked
      while the other lock stays, and exactly the lines at that side have
      become extended, with nothing else about any line changed. */
  lemma AlignedReachesBorder(st: Shape, f: Frame, side: Side)
    requires WellFormed(st)
    ensures |Aligned(st, f, side).vs| == |st.vs| && SameEnds(st.es, Aligned(st, f, side).es)
    ensures Extreme(Aligned(st, f, side).vs, side) == BorderCoord(f, side)
    ensures forall i :: 0 <= i < |st.vs| ==> CoordAcross(Aligned(st, f, side).vs[i], side) == CoordAcross(st.vs[i], side)
    ensures Locked(Aligned(st, f, side), side)
    ensures if AboutY(side) then Aligned(st, f, side).lockedX == st.lockedX else Aligned(st, f, side).lockedY == st.lockedY
    ensures forall k :: 0 <= k < |st.es| ==>
              Aligned(st, f, side).es[k].extended == (st.es[k].extended || k in SideLines(st, side)) &&
              Aligned(st, f, side).es[k].ext == st.es[k].ext
    ensures Aligned(st, f, side).closed == st.closed
  {
    MovedToReaches(st.vs, f, side);
  }

  /** The position in `order` of the first side that can align, or `|order|`
      when none can. */
  function FirstAligning(st: Shape, order: seq<Side>): (i: nat)
    requires WellFormed(st)
    ensures i <= |order|
    ensures forall j :: 0 <= j < i ==> !CanAlign(st, order[j])
    ensures i < |order| ==> CanAlign(st, order[i])
  {
    var bs := seq(|order|, k requires 0 <= k < |order| => CanAlign(st, order[k]));
    assert forall j :: 0 <= j < |order| ==> bs[j] == CanAlign(st, order[j]);
    FirstTrue(bs)
  }

  /** `align_with_frame` over the shuffled `order`: only the first side that
      can act does; when none can, nothing changes. */
  function AlignFirst(st: Shape, f: Frame, order: seq<Side>): (r: Shape)
    requires WellFormed(st)
    ensures WellFormed(r)
    ensures (forall s :: s in order ==> !CanAlign(st, s)) ==> r == st
  {
    var i := FirstAligning(st, order);
    if i < |order| then Aligned(st, f, order[i]) else st
  }

  // ---------------------------------------------------------------------
  // Lone points and shifting to the frame

  /** Vertex `i` reaches the figure's extreme towards `side`. */
  predicate AtExtreme(vs: seq<Point>, i: nat, side: Side)
    requires i < |vs|
  {
    Coord(vs[i], side) == Extreme(vs, side)
  }

  /** `get_top_point` and its siblings: the point at the figure's extreme
      towards `side` when all the vertices that reach it sit at one position
      (one element of the source's set of distinct points), and `None`, the
      source's `False`, when two or more positions reach it. */
  function LonePoint(vs: seq<Point>, side: Side): (r: Option<Point>)
    requires |vs| > 0
    ensures r.Some? <==>
              forall i, j :: 0 <= i < |vs| && 0 <= j < |vs| && AtExtreme(vs, i, side) && AtExtreme(vs, j, side) ==>
                Same(vs[i], vs[j])
    ensures r.Some? ==> exists i :: 0 <= i < |vs| && AtExtreme(vs, i, side) && vs[i] == r.value
  {
    var bs := seq(|vs|, k requires 0 <= k < |vs| => AtExtreme(vs, k, side));
    assert forall j :: 0 <= j < |vs| ==> bs[j] == AtExtreme(vs, j, side);
    var i := FirstTrue(bs);
    assert i < |vs| by {
      ExtremeBounds(vs, side);
      var w :| 0 <= w < |vs| && Coord(vs[w], side) == Extreme(vs, side);
      assert bs[w];
    }
    if forall j :: 0 <= j < |vs| && AtExtreme(vs, j, side) ==> Same(vs[j], vs[i]) then Some(vs[i]) else None
  }

  /** Moving the figure to a border keeps the vertices that reach its extreme
      towards that border, so a lone point stays the lone point. */
  lemma MovedToKeepsExtreme(vs: seq<Point>, f: Frame, side: Side)
    requires |vs| > 0
    ensures LonePoint(MovedTo(vs, f, side), side).Some? <==> LonePoint(vs, side).Some?
  {
    var r := MovedTo(vs, f, side);
    MovedToReaches(vs, f, side);
    forall i | 0 <= i < |vs|
      ensures AtExtreme(r, i, side) <==> AtExtreme(vs, i, side)
    {
      var d := BorderCoord(f, side) - Extreme(vs, side);
      assert Coord(r[i], side) == Coord(vs[i], side) + d;
      assert Extreme(r, side) == Extreme(vs, side) + d;
    }
  }

  /** `shift_to_frame_<side>` can act: its axis is free and the figure has a
      lone point at that side. */
  predicate CanShift(st: Shape, side: Side)
    requires |st.vs| > 0
  {
    LonePoint(st.vs, side).Some? && !Locked(st, side)
  }

  /** `shift_to_frame_<side>` when it acts: the figure moves along one axis
      until its lone point at `side` lies on that border
      (`ShiftedToFrameTouches` states it). */
  function ShiftedToFrame(st: Shape, f: Frame, side: Side): (r: Shape)
    requires WellFormed(st)
    ensures WellFormed(r)
  {
    var vs := MovedTo(st.vs, f, side);
    WellFormedKept(st, vs, st.es);
    st.(vs := vs)
  }

  /** Shifting to the frame puts the lone point on the border and keeps the
      other coordinate of every vertex; unlike aligning, it locks nothing and
      marks no line. */
  lemma ShiftedToFrameTouches(st: Shape, f: Frame, side: Side)
    requires WellFormed(st) && CanShift(st, side)
    ensures ShiftedToFrame(st, f, side).es == st.es && |ShiftedToFrame(st, f, side).vs| == |st.vs|
    ensures ShiftedToFrame(st, f, side).lockedX == st.lockedX && ShiftedToFrame(st, f, side).lockedY == st.lockedY
    ensures ShiftedToFrame(st, f, side).closed == st.closed
    ensures LonePoint(ShiftedToFrame(st, f, side).vs, side).Some? &&
            Coord(LonePoint(ShiftedToFrame(st, f, side).vs, side).value, side) == BorderCoord(f, side)
    ensures forall i :: 0 <= i < |st.vs| ==> CoordAcross(ShiftedToFrame(st, f, side).vs[i], side) == CoordAcross(st.vs[i], side)
  {
    MovedToReaches(st.vs, f, side);
    MovedToKeepsExtreme(st.vs, f, side);
  }

  /** The position in `order` of the first side the figure can be shifted to,
      or `|order|` when there is none. */
  function FirstShifting(st: Shape, order: seq<Side>): (i: nat)
    requires WellFormed(st)
    ensures i <= |order|
    ensures forall j :: 0 <= j < i ==> !CanShift(st, order[j])
    ensures i < |order| ==> CanShift(st, order[i])
  {
    var bs := seq(|order|, k requires 0 <= k < |order| => CanShift(st, order[k]));
    assert forall j :: 0 <= j < |order| ==> bs[j] == CanShift(st, order[j]);
    FirstTrue(bs)
  }

  /** `shift_to_frame` over the shuffled `order`: only the first side the
      figure can be shifted to is used; when there is none, nothing changes. */
  function ShiftFirst(st: Shape, f: Frame, order: seq<Side>): (r: Shape)
    requires WellFormed(st)
    ensures WellFormed(r) && r.es == st.es
    ensures (forall s :: s in order ==> !CanShift(st, s)) ==> r == st
  {
    var i := FirstShifting(st, order);
    if i < |order| then ShiftedToFrame(st, f, order[i]) else st
  }

  // ---------------------------------------------------------------------
  // Extending one line

  /** How many lines are marked extended. */
  function NumExtended(es: seq<Edge>): (n: nat)
    ensures n <= |es|
  {
    if |es| == 0 then 0 else NumExtended(es[..|es| - 1]) + (if es[|es| - 1].extended then 1 else 0)
  }

  /** Extending one line that was not extended adds one to the count. */
  lemma {:induction false} NumExtendedMark(es: seq<Edge>, k: nat, ed: Edge)
    requires k < |es| && !es[k].extended && ed.extended
    ensures NumExtended(es[k := ed]) == NumExtended(es) + 1
    decreases |es|
  {
    var es' := es[k := ed];
    var n := |es| - 1;
    assert es'[..n] == if k < n then es[..n][k := ed] else es[..n];
    if k < n {
      NumExtendedMark(es[..n], k, ed);
    }
  }

  /** Every line is extended exactly when the count reaches the number of lines. */
  lemma {:induction false} NumExtendedAll(es: seq<Edge>)
    ensures NumExtended(es) == |es| <==> forall k :: 0 <= k < |es| ==> es[k].extended
    decreases |es|
  {
    if |es| > 0 {
      var n := |es| - 1;
      NumExtendedAll(es[..n]);
      assert forall k :: 0 <= k < n ==> es[..n][k] == es[k];
    }
  }

  /** `FigureLine.extend` on a line of the figure that is not yet extended:
      the line keeps its ends, is marked extended, and its extended points
      become the ends of the line stretched to the frame, which lie on the
      line and on the frame's borders. */
  function ExtendedEdge(vs: seq<Point>, ed: Edge, f: Frame): (r: Edge)
    requires ed.s < |vs| && ed.e < |vs|
    ensures r.s == ed.s && r.e == ed.e && r.extended && r.ext.Some?
    ensures Collinear(r.ext.value.start, EdgeLine(vs, ed)) && Collinear(r.ext.value.end, EdgeLine(vs, ed))
    ensures exists b, c :: OnBorder(r.ext.value.start, b, f) && OnBorder(r.ext.value.end, c, f)
  {
    var x := ExtendedVersion(EdgeLine(vs, ed), f);
    ExtendedVersionOnLine(EdgeLine(vs, ed), f);
    Edge(ed.s, ed.e, true, Some(Line(x.start, x.end)))
  }

  /** `order` lists indices below `n` and every index below `n` (a shuffle of
      the figure's lines or points). */
  predicate Covers(order: seq<nat>, n: nat)
  {
    (forall j :: 0 <= j < |order| ==> order[j] < n) && forall k :: 0 <= k < n ==> k in order
  }

  function FirstUnextended(es: seq<Edge>, order: seq<nat>): (i: nat)
    requires forall j :: 0 <= j < |order| ==> order[j] < |es|
    ensures i <= |order|
    ensures forall j :: 0 <= j < i ==> es[order[j]].extended
    ensures i < |order| ==> !es[order[i]].extended
  {
    var bs := seq(|order|, k requires 0 <= k < |order| => !es[order[k]].extended);
    assert forall j :: 0 <= j < |order| ==> bs[j] == !es[order[j]].extended;
    FirstTrue(bs)
  }

  /** `extend_line` over the shuffled line `order`: the first line that is not
      yet extended gets extended; the answer is false exactly when every line
      already was, and then nothing changes. One more line counts as extended
      afterwards, no extended line changes, and the vertices stay put. */
  function ExtendFirst(st: Shape, f: Frame, order: seq<nat>): (r: (bool, Shape))
    requires WellFormed(st) && Covers(order, |st.es|)
    ensures r.0 <==> exists k :: 0 <= k < |st.es| && !st.es[k].extended
    ensures !r.0 ==> r.1 == st
    ensures WellFormed(r.1) && r.1.vs == st.vs && SameEnds(st.es, r.1.es)
    ensures r.1.lockedX == st.lockedX && r.1.lockedY == st.lockedY && r.1.closed == st.closed
    ensures NumExtended(r.1.es) == NumExtended(st.es) + (if r.0 then 1 else 0)
    ensures forall k :: 0 <= k < |st.es| && st.es[k].extended ==> r.1.es[k] == st.es[k]
  {
    var i := FirstUnextended(st.es, order);
    if i < |order| then
      var k := order[i];
      var e := ExtendedEdge(st.vs, st.es[k], f);
      var es := st.es[k := e];
      NumExtendedMark(st.es, k, e);
      WellFormedKept(st, st.vs, es);
      (true, st.(es := es))
    else
      NoneUnextended(st.es, order);
      (false, st)
  }

  /** When the whole shuffled order holds only extended lines, every line
      is extended, since the order names each of them. */
  lemma NoneUnextended(es: seq<Edge>, order: seq<nat>)
    requires Covers(order, |es|) && FirstUnextended(es, order) == |order|
    ensures forall k :: 0 <= k < |es| ==> es[k].extended
  {
    forall k | 0 <= k < |es|
      ensures es[k].extended
    {
      assert k in order;
      var j :| 0 <= j < |order| && order[j] == k;
    }
  }

  // ---------------------------------------------------------------------
  // Random placement

  /** The distance `randomly_position` keeps between the figure and each
      border of the frame. */
  const Margin: real := 15.0

  /** Every coordinate of `p` at least `m` inside the frame's borders. */
  predicate InsideBy(p: Point, f: Frame, m: real)
  {
    LeftX(f) + m <= p.x <= RightX(f) - m && BottomY(f) + m <= p.y <= TopY(f) - m
  }

  /** The frame leaves room for the figure and the margin on both axes, so the
      ranges `randomly_position` draws its shifts from are not reversed. */
  predicate Roomy(vs: seq<Point>, f: Frame)
    requires |vs| > 0
  {
    LeftX(f) - Extreme(vs, LeftSide) + Margin <= RightX(f) - Extreme(vs, RightSide) - Margin &&
    BottomY(f) - Extreme(vs, BottomSide) + Margin <= TopY(f) - Extreme(vs, TopSide) - Margin
  }

  /** Vertices that differ only in their `grown` flags have the same extremes. */
  lemma ExtremeIgnoresGrown(vs: seq<Point>, ws: seq<Point>, side: Side)
    requires |vs| == |ws| > 0 && forall i :: 0 <= i < |vs| ==> Same(vs[i], ws[i])
    ensures Extreme(ws, side) == Extreme(vs, side)
  {
    ExtremeBounds(vs, side);
    ExtremeBounds(ws, side);
    var i :| 0 <= i < |vs| && Coord(vs[i], side) == Extreme(vs, side);
    var j :| 0 <= j < |ws| && Coord(ws[j], side) == Extreme(ws, side);
    assert Coord(ws[i], side) == Coord(vs[i], side);
    assert Coord(vs[j], side) == Coord(ws[j], side);
    assert Within(ws, i, side, Extreme(ws, side));
    assert Within(vs, j, side, Extreme(vs, side));
  }

  /** The shift `randomly_position` draws along x with `tx`: between the one
      that puts the lowest x at the margin inside the left border and the one
      that puts the highest x at the margin inside the right border. */
  function ShiftDrawX(vs: seq<Point>, f: Frame, tx: real): real
    requires |vs| > 0 && 0.0 <= tx <= 1.0
  {
    Uniform(LeftX(f) - Extreme(vs, LeftSide) + Margin, RightX(f) - Extreme(vs, RightSide) - Margin, tx)
  }

  /** The same along y with `ty`, between the bottom and the top border. */
  function ShiftDrawY(vs: seq<Point>, f: Frame, ty: real): real
    requires |vs| > 0 && 0.0 <= ty <= 1.0
  {
    Uniform(BottomY(f) - Extreme(vs, BottomSide) + Margin, TopY(f) - Extreme(vs, TopSide) - Margin, ty)
  }

  /** `randomly_position` with the draws `tx` and `ty` for its two
      `random.uniform` calls: a figure locked on either axis stays put and
      the answer is false; otherwise it moves as a whole by the drawn shifts
      (`PositionedInside` states where it ends up). */
  function Positioned(st: Shape, f: Frame, tx: real, ty: real): (r: (bool, Shape))
    requires WellFormed(st) && 0.0 <= tx <= 1.0 && 0.0 <= ty <= 1.0
    ensures r.0 == !(st.lockedX || st.lockedY)
    ensures !r.0 ==> r.1 == st
    ensures WellFormed(r.1)
  {
    if st.lockedX || st.lockedY then (false, st)
    else
      var vs := ShiftAll(st.vs, ShiftDrawX(st.vs, f, tx), ShiftDrawY(st.vs, f, ty));
      WellFormedKept(st, vs, st.es);
      (true, st.(vs := vs))
  }

  /** A figure placed at random keeps its lines, flags, width and height, and
      when the frame has room for it every vertex ends up at least the margin
      inside every border. */
  lemma PositionedInside(st: Shape, f: Frame, tx: real, ty: real)
    requires WellFormed(st) && 0.0 <= tx <= 1.0 && 0.0 <= ty <= 1.0
    ensures var r := Positioned(st, f, tx, ty);
            r.1.es == st.es && |r.1.vs| == |st.vs| &&
            r.1.lockedX == st.lockedX && r.1.lockedY == st.lockedY && r.1.closed == st.closed
    ensures var r := Positioned(st, f, tx, ty);
            Extreme(r.1.vs, RightSide) - Extreme(r.1.vs, LeftSide) == Extreme(st.vs, RightSide) - Extreme(st.vs, LeftSide) &&
            Extreme(r.1.vs, TopSide) - Extreme(r.1.vs, BottomSide) == Extreme(st.vs, TopSide) - Extreme(st.vs, BottomSide)
    ensures var r := Positioned(st, f, tx, ty);
            r.0 && Roomy(st.vs, f) ==> forall i :: 0 <= i < |st.vs| ==> InsideBy(r.1.vs[i], f, Margin)
  {
    if !(st.lockedX || st.lockedY) {
      var dx := ShiftDrawX(st.vs, f, tx);
      var dy := ShiftDrawY(st.vs, f, ty);
      var vs := ShiftAll(st.vs, dx, dy);
      assert Positioned(st, f, tx, ty).1.vs == vs;
      ShiftKeepsExtent(st.vs, dx, dy);
      if Roomy(st.vs, f) {
        ExtremeBounds(st.vs, LeftSide);
        ExtremeBounds(st.vs, RightSide);
        ExtremeBounds(st.vs, BottomSide);
        ExtremeBounds(st.vs, TopSide);
        forall i | 0 <= i < |st.vs|
          ensures InsideBy(vs[i], f, Margin)
        {
          assert Within(st.vs, i, LeftSide, Extreme(st.vs, LeftSide));
          assert Within(st.vs, i, RightSide, Extreme(st.vs, RightSide));
          assert Within(st.vs, i, BottomSide, Extreme(st.vs, BottomSide));
          assert Within(st.vs, i, TopSide, Extreme(st.vs, TopSide));
        }
      }
    }
  }

  // ---------------------------------------------------------------------
  // Growing a line from a point

  /** Vertex `i` is the first vertex at its position: the one the source's set
      of distinct points keeps for that position. */
  predicate IsRep(vs: seq<Point>, i: nat)
    requires i < |vs|
  {
    forall j :: 0 <= j < i ==> !Same(vs[j], vs[i])
  }

  /** `order` is a shuffle of the distinct points: it lists first vertices only
      and every one of them. */
  predicate RepOrder(vs: seq<Point>, order: seq<nat>)
  {
    (forall j :: 0 <= j < |order| ==> order[j] < |vs| && IsRep(vs, order[j])) &&
    forall i :: 0 <= i < |vs| && IsRep(vs, i) ==> i in order
  }

  function FirstUngrown(vs: seq<Point>, order: seq<nat>): (i: nat)
    requires forall j :: 0 <= j < |order| ==> order[j] < |vs|
    ensures i <= |order|
    ensures forall j :: 0 <= j < i ==> vs[order[j]].grown
    ensures i < |order| ==> !vs[order[i]].grown
  {
    var bs := seq(|order|, k requires 0 <= k < |order| => !vs[order[k]].grown);
    assert forall j :: 0 <= j < |order| ==> bs[j] == !vs[order[j]].grown;
    FirstTrue(bs)
  }

  /** Only `grown` flags changed, and none was cleared. */
  predicate OnlyMarked(vs: seq<Point>, ws: seq<Point>)
  {
    |ws| == |vs| && forall i :: 0 <= i < |vs| ==> Same(ws[i], vs[i]) && (vs[i].grown ==> ws[i].grown)
  }

  /** `Figure.grow_line` over the shuffled distinct points: the first point in
      `order` that has not grown a line grows one (with the draws `side` and
      `t` when the line is diagonal). The answer is `None`, the source's
      `False`, exactly when every distinct point has already grown a line;
      the vertices keep their positions and at most the growing point gets
      marked. A failure leaves the figure as it was and needs a frame that is
      not proper. */
  function GrowFirst(st: Shape, f: Frame, o: Orientation, order: seq<nat>, side: nat, t: real)
    : (r: (Result<Option<Anchored>>, Shape))
    requires WellFormed(st) && RepOrder(st.vs, order) && side < 4 && 0.0 <= t <= 1.0
    ensures r.0 == Ok(None) <==> forall i :: 0 <= i < |st.vs| && IsRep(st.vs, i) ==> st.vs[i].grown
    ensures r.0 == Ok(None) || r.0.Err? ==> r.1 == st
    ensures r.0.Err? ==> r.0.error == Unanchored && !Proper(f)
    ensures WellFormed(r.1) && r.1.es == st.es && OnlyMarked(st.vs, r.1.vs)
    ensures r.1.lockedX == st.lockedX && r.1.lockedY == st.lockedY && r.1.closed == st.closed
  {
    var i := FirstUngrown(st.vs, order);
    if i < |order| then
      var g := GrowFrom(st.vs[order[i]], f, o, side, t);
      var vs := st.vs[order[i] := g.1];
      WellFormedKept(st, vs, st.es);
      assert forall k :: 0 <= k < |st.vs| && IsRep(st.vs, k) ==> k in order;
      (g.0, st.(vs := vs))
    else
      assert forall k :: 0 <= k < |st.vs| && IsRep(st.vs, k) ==> st.vs[k].grown by {
        forall k | 0 <= k < |st.vs| && IsRep(st.vs, k)
          ensures st.vs[k].grown
        {
          assert k in order;
          var j :| 0 <= j < |order| && order[j] == k;
        }
      }
      (Ok(None), st)
  }

  // ---------------------------------------------------------------------
  // Free points and closing them up

  /** A line of the figure has an end at the position of `p`. */
  predicate Touches(vs: seq<Point>, ed: Edge, p: Point)
    requires ed.s < |vs| && ed.e < |vs|
  {
    Same(vs[ed.s], p) || Same(vs[ed.e], p)
  }

  /** The first line with an end at the position of `p`, or `|es|`. */
  function FirstTouching(vs: seq<Point>, es: seq<Edge>, p: Point): (k: nat)
    requires EdgesIn(es, |vs|)
    ensures k <= |es|
    ensures forall j :: 0 <= j < k ==> !Touches(vs, es[j], p)
    ensures k < |es| ==> Touches(vs, es[k], p)
  {
    var bs := seq(|es|, j requires 0 <= j < |es| => Touches(vs, es[j], p));
    assert forall j :: 0 <= j < |es| ==> bs[j] == Touches(vs, es[j], p);
    FirstTrue(bs)
  }

  /** Every vertex is an end of some line, so the first line through it
      exists (the source takes element 0 of that list). */
  lemma FirstTouchingFound(st: Shape, i: nat)
    requires WellFormed(st) && i < |st.vs|
    ensures FirstTouching(st.vs, st.es, st.vs[i]) < |st.es|
  {
    assert Used(st.es, i);
    var k :| 0 <= k < |st.es| && (st.es[k].s == i || st.es[k].e == i);
    assert Touches(st.vs, st.es[k], st.vs[i]);
  }

  /** Another vertex lies closer than 3 units (squared distance below 9). */
  predicate HasNearby(vs: seq<Point>, i: nat)
    requires i < |vs|
  {
    exists j :: 0 <= j < |vs| && j != i && Dist2(vs[i], vs[j]) < 9.0
  }

  /** A loose end in `find_free_points`: vertex `i` has not grown a line, lies
      on no border coordinate of the frame, no other vertex shares its
      position, the first line through it is not extended, and no other
      vertex lies within 3 units. */
  predicate IsFree(st: Shape, f: Frame, i: nat)
    requires WellFormed(st) && i < |st.vs|
    ensures IsFree(st, f, i) ==> forall j :: 0 <= j < |st.vs| && j != i ==> 9.0 <= Dist2(st.vs[i], st.vs[j])
  {
    var p := st.vs[i];
    !p.grown &&
    p.x != LeftX(f) && p.x != RightX(f) && p.y != TopY(f) && p.y != BottomY(f) &&
    (forall j :: 0 <= j < |st.vs| && j != i ==> !Same(st.vs[j], p)) &&
    FirstTouching(st.vs, st.es, p) < |st.es| && !st.es[FirstTouching(st.vs, st.es, p)].extended &&
    !HasNearby(st.vs, i)
  }

  /** The free vertices among the first `n`, in vertex order
      (`FreeAmongSpec` states what it holds). */
  function FreeAmong(st: Shape, f: Frame, n: nat): seq<nat>
    requires WellFormed(st) && n <= |st.vs|
  {
    if n == 0 then []
    else FreeAmong(st, f, n - 1) + (if IsFree(st, f, n - 1) then [n - 1] else [])
  }

  /** The free vertices among the first `n` are exactly those that are free,
      each once, in increasing order. */
  lemma {:induction false} FreeAmongSpec(st: Shape, f: Frame, n: nat)
    requires WellFormed(st) && n <= |st.vs|
    ensures forall k: int :: k in FreeAmong(st, f, n) <==> 0 <= k < n && IsFree(st, f, k)
    ensures forall a, b :: 0 <= a < b < |FreeAmong(st, f, n)| ==> FreeAmong(st, f, n)[a] < FreeAmong(st, f, n)[b]
    ensures forall a :: 0 <= a < |FreeAmong(st, f, n)| ==> FreeAmong(st, f, n)[a] < n
    decreases n
  {
    if n > 0 {
      FreeAmongSpec(st, f, n - 1);
      var prev := FreeAmong(st, f, n - 1);
      var free := IsFree(st, f, n - 1);
      assert FreeAmong(st, f, n) == prev + (if free then [n - 1] else []);
    }
  }

  /** `find_free_points`: the indices of the figure's free vertices. */
  function FreePoints(st: Shape, f: Frame): (r: seq<nat>)
    requires WellFormed(st)
    ensures forall k: int :: k in r <==> 0 <= k < |st.vs| && IsFree(st, f, k)
  {
    FreeAmongSpec(st, f, |st.vs|);
    FreeAmong(st, f, |st.vs|)
  }

  /** A free vertex is no other vertex's neighbour: any vertex at least
      3 units from all others is apart from every one of them. */
  lemma FreeIsAlone(st: Shape, f: Frame, i: nat, j: nat)
    requires WellFormed(st) && i < |st.vs| && j < |st.vs| && i != j && IsFree(st, f, i)
    ensures !Same(st.vs[j], st.vs[i]) && 9.0 <= Dist2(st.vs[j], st.vs[i])
  {
    Dist2Symmetric(st.vs[i], st.vs[j]);
  }

  /** The source's `random.choice` over horizontal, vertical and two
      diagonals: `pick` below 4 chooses one, so a diagonal is twice as
      likely. */
  function PickedOrientation(pick: nat): Orientation
    requires pick < 4
  {
    [Horizontal, Vertical, Diagonal, Diagonal][pick]
  }

  /** The draws one loose end uses: the orientation pick, and the border side
      and position that a diagonal grows towards. */
  datatype CloseDraw = CloseDraw(pick: nat, side: nat, t: real)

  predicate ValidCloseDraws(ds: seq<CloseDraw>)
  {
    forall j :: 0 <= j < |ds| ==> ds[j].pick < 4 && ds[j].side < 4 && 0.0 <= ds[j].t <= 1.0
  }

  /** Grows a line from each vertex in `ps`, in order, collecting the results,
      until one fails (`GrowEachKeeps` and `GrowEachLines` state what it gives). */
  function GrowEach(vs: seq<Point>, f: Frame, ps: seq<nat>, ds: seq<CloseDraw>)
    : (r: (Result<seq<Option<Anchored>>>, seq<Point>))
    requires (forall j :: 0 <= j < |ps| ==> ps[j] < |vs|) && |ds| >= |ps| && ValidCloseDraws(ds)
    ensures |r.1| == |vs|
    decreases |ps|
  {
    if |ps| == 0 then (Ok([]), vs)
    else
      var d := ds[0];
      var g := GrowFrom(vs[ps[0]], f, PickedOrientation(d.pick), d.side, d.t);
      var vs' := vs[ps[0] := g.1];
      if g.0.Err? then (Err(g.0.error), vs')
      else
        var rest := GrowEach(vs', f, ps[1..], ds[1..]);
        (if rest.0.Err? then Err(rest.0.error) else Ok([g.0.value] + rest.0.value), rest.1)
  }

  /** Growing from several vertices keeps their positions and only adds
      `grown` marks; a failure needs a frame that is not proper. */
  lemma {:induction false} GrowEachKeeps(vs: seq<Point>, f: Frame, ps: seq<nat>, ds: seq<CloseDraw>)
    requires (forall j :: 0 <= j < |ps| ==> ps[j] < |vs|) && |ds| >= |ps| && ValidCloseDraws(ds)
    ensures OnlyMarked(vs, GrowEach(vs, f, ps, ds).1)
    ensures GrowEach(vs, f, ps, ds).0.Err? ==> GrowEach(vs, f, ps, ds).0.error == Unanchored && !Proper(f)
    decreases |ps|
  {
    if |ps| > 0 {
      var d := ds[0];
      var g := GrowFrom(vs[ps[0]], f, PickedOrientation(d.pick), d.side, d.t);
      var vs' := vs[ps[0] := g.1];
      assert OnlyMarked(vs, vs');
      if g.0.Ok? {
        GrowEachKeeps(vs', f, ps[1..], ds[1..]);
      }
    }
  }

  /** On success there is one result per vertex, and each is a line when the
      vertices are distinct and none had grown one before. */
  lemma {:induction false} GrowEachLines(vs: seq<Point>, f: Frame, ps: seq<nat>, ds: seq<CloseDraw>)
    requires (forall j :: 0 <= j < |ps| ==> ps[j] < |vs|) && |ds| >= |ps| && ValidCloseDraws(ds)
    ensures GrowEach(vs, f, ps, ds).0.Ok? ==> |GrowEach(vs, f, ps, ds).0.value| == |ps|
    ensures GrowEach(vs, f, ps, ds).0.Ok? && (forall j :: 0 <= j < |ps| ==> !vs[ps[j]].grown) &&
            (forall a, b :: 0 <= a < b < |ps| ==> ps[a] != ps[b]) ==>
              forall j :: 0 <= j < |ps| ==> GrowEach(vs, f, ps, ds).0.value[j].Some?
    decreases |ps|
  {
    if |ps| > 0 {
      var d := ds[0];
      var g := GrowFrom(vs[ps[0]], f, PickedOrientation(d.pick), d.side, d.t);
      var vs' := vs[ps[0] := g.1];
      if g.0.Ok? {
        var r := GrowEach(vs, f, ps, ds);
        var rest := GrowEach(vs', f, ps[1..], ds[1..]);
        assert r == (if rest.0.Err? then Err(rest.0.error) else Ok([g.0.value] + rest.0.value), rest.1);
        GrowEachLines(vs', f, ps[1..], ds[1..]);
        if r.0.Ok? && (forall j :: 0 <= j < |ps| ==> !vs[ps[j]].grown) && (forall a, b :: 0 <= a < b < |ps| ==> ps[a] != ps[b]) {
          forall j | 0 <= j < |ps[1..]|
            ensures !vs'[ps[1..][j]].grown
          {
            assert ps[1..][j] == ps[j + 1] != ps[0];
            assert vs'[ps[j + 1]] == vs[ps[j + 1]];
          }
          assert g.0.value.Some?;
          forall j | 0 <= j < |ps|
            ensures r.0.value[j].Some?
          {
            if j > 0 {
              assert r.0.value[j] == rest.0.value[j - 1];
            }
          }
        }
      }
    }
  }

  /** `close_up_free_points` with one draw per loose end: a closed figure
      gives no lines and does not change. Otherwise a line grows from each
      free vertex in vertex order; when all succeed the figure is closed and
      there is one line per free vertex. In a proper frame growing never
      fails. A failure leaves the figure open with the marks made so far. */
  function CloseUp(st: Shape, f: Frame, ds: seq<CloseDraw>): (r: (Result<seq<Option<Anchored>>>, Shape))
    requires WellFormed(st) && |ds| >= |FreePoints(st, f)| && ValidCloseDraws(ds)
    ensures WellFormed(r.1)
  {
    if st.closed then (Ok([]), st)
    else
      var ps := FreePoints(st, f);
      FreeAmongSpec(st, f, |st.vs|);
      var g := GrowEach(st.vs, f, ps, ds);
      WellFormedKept(st, g.1, st.es);
      (g.0, st.(vs := g.1, closed := g.0.Ok?))
  }

  /** A closed figure gives no lines and does not change. Otherwise, when
      every free vertex grows its line, the figure becomes closed with one
      line per free vertex; a failure leaves it open and needs a frame that
      is not proper. Either way the lines, locks and vertex positions stay,
      and vertices only gain `grown` marks. */
  lemma CloseUpCloses(st: Shape, f: Frame, ds: seq<CloseDraw>)
    requires WellFormed(st) && |ds| >= |FreePoints(st, f)| && ValidCloseDraws(ds)
    ensures st.closed ==> CloseUp(st, f, ds) == (Ok([]), st)
    ensures var r := CloseUp(st, f, ds);
            !st.closed && r.0.Ok? ==>
              r.1.closed && |r.0.value| == |FreePoints(st, f)| &&
              forall j :: 0 <= j < |r.0.value| ==> r.0.value[j].Some?
    ensures var r := CloseUp(st, f, ds);
            r.0.Err? ==> !r.1.closed && !Proper(f)
    ensures var r := CloseUp(st, f, ds);
            r.1.es == st.es && OnlyMarked(st.vs, r.1.vs) && r.1.lockedX == st.lockedX && r.1.lockedY == st.lockedY
  {
    if !st.closed {
      var ps := FreePoints(st, f);
      FreeAmongSpec(st, f, |st.vs|);
      forall j | 0 <= j < |ps|
        ensures ps[j] in ps && !st.vs[ps[j]].grown
      {
        assert ps[j] in ps;
        assert IsFree(st, f, ps[j]);
      }
      GrowEachKeeps(st.vs, f, ps, ds);
      GrowEachLines(st.vs, f, ps, ds);
    }
  }

  // ---------------------------------------------------------------------
  // The figure object

  /** Moves every point of `a` by `(dx, dy)`, in place. */
  method ShiftEach(a: array<Point>, dx: real, dy: real)
    modifies a
    ensures a[..] == ShiftAll(old(a[..]), dx, dy)
  {
    var i := 0;
    while i < a.Length
      invariant 0 <= i <= a.Length
      invariant forall j :: 0 <= j < i ==> a[j] == Shifted(old(a[j]), dx, dy)
      invariant forall j :: i <= j < a.Length ==> a[j] == old(a[j])
    {
      a[i] := Shifted(a[i], dx, dy);
      i := i + 1;
    }
  }

  /** The loop of `align_with_frame_<side>` that marks the lines `ks` as
      extended, one by one. */
  method MarkEach(es: seq<Edge>, ks: seq<nat>) returns (r: seq<Edge>)
    ensures r == MarkExtended(es, ks)
  {
    r := es;
    for j := 0 to |ks|
      invariant |r| == |es|
      invariant forall k :: 0 <= k < |es| ==> r[k] == if k in ks[..j] then es[k].(extended := true) else es[k]
    {
      assert ks[..j + 1] == ks[..j] + [ks[j]];
      if ks[j] < |r| {
        r := r[ks[j] := r[ks[j]].(extended := true)];
      }
    }
    assert ks[..|ks|] == ks;
  }

  /** Vertex `i` is an end of one of the lines `ends`. */
  predicate EndOfSome(ends: seq<(nat, nat)>, i: nat)
  {
    exists k :: 0 <= k < |ends| && (ends[k].0 == i || ends[k].1 == i)
  }

  /** The `p`-th vertex met when the lines' ends are read in order, each
      line's start before its end. */
  function EndAt(ends: seq<(nat, nat)>, p: nat): nat
    requires p < 2 * |ends|
  {
    if p % 2 == 0 then ends[p / 2].0 else ends[p / 2].1
  }

  /** The vertices are numbered in the order the lines first use them: read
      in that order, vertex `i > 0` is met only after vertex `i - 1`. Python's
      set of the points keeps the first of equal points met in this order,
      which makes it the smallest index, as `IsRep` takes it. */
  predicate InFirstUseOrder(ends: seq<(nat, nat)>)
  {
    forall p :: 0 <= p < 2 * |ends| && EndAt(ends, p) > 0 ==>
      exists q :: 0 <= q < p && EndAt(ends, q) == EndAt(ends, p) - 1
  }

  /** In first-use order every vertex numbered below the one met at `p` has
      been met before `p`: the vertices are first met as 0, 1, 2, ... */
  lemma {:induction false} SmallerMetBefore(ends: seq<(nat, nat)>, p: nat, j: nat)
    requires InFirstUseOrder(ends) && p < 2 * |ends| && j < EndAt(ends, p)
    ensures exists q :: 0 <= q < p && EndAt(ends, q) == j
    decreases p
  {
    var q :| 0 <= q < p && EndAt(ends, q) == EndAt(ends, p) - 1;
    if j < EndAt(ends, q) {
      SmallerMetBefore(ends, q, j);
    }
  }

  /** A figure built from lines between the vertices of `pts`. Moving a vertex
      moves every line through it, as the source's shared point objects do.
      `width` and `height` are fixed when the figure is built; `frame` is the
      frame it is placed in, which the image holding it sets. */
  class Figure {
    const pts: array<Point>
    var edges: seq<Edge>
    var lockedX: bool
    var lockedY: bool
    var closed: bool
    var frame: Frame
    const width: real
    const height: real

    function State(): Shape
      reads this, pts
    {
      Shape(pts[..], edges, lockedX, lockedY, closed)
    }

    predicate Valid()
      reads this, pts
    {
      WellFormed(State())
    }

    /** A figure from lines `ends` between the vertices `vs`, listed in order
        of first use (`InFirstUseOrder`). No line is extended and no axis
        locked; the figure is closed when the first line starts where the
        last one ends. */
    constructor(vs: seq<Point>, ends: seq<(nat, nat)>, f: Frame)
      requires |ends| > 0
      requires forall k :: 0 <= k < |ends| ==> ends[k].0 < |vs| && ends[k].1 < |vs|
      requires forall i :: 0 <= i < |vs| ==> EndOfSome(ends, i)
      requires InFirstUseOrder(ends)
      ensures Valid() && fresh(pts) && frame == f
      ensures pts[..] == vs && |edges| == |ends|
      ensures forall k :: 0 <= k < |ends| ==> edges[k] == Edge(ends[k].0, ends[k].1, false, None)
      ensures !lockedX && !lockedY
      ensures closed <==> Same(vs[ends[0].0], vs[ends[|ends| - 1].1])
      ensures width >= 0.0 && height >= 0.0
    {
      pts := new Point[|vs|](i requires 0 <= i < |vs| => vs[i]);
      edges := seq(|ends|, k requires 0 <= k < |ends| => Edge(ends[k].0, ends[k].1, false, None));
      lockedX := false;
      lockedY := false;
      closed := Same(vs[ends[0].0], vs[ends[|ends| - 1].1]);
      frame := f;
      ExtentNonNegative(vs);
      width := Extreme(vs, RightSide) - Extreme(vs, LeftSide);
      height := Extreme(vs, TopSide) - Extreme(vs, BottomSide);
      new;
      assert pts[..] == vs;
      forall i | 0 <= i < |vs|
        ensures Used(edges, i)
      {
        assert EndOfSome(ends, i);
        var k :| 0 <= k < |ends| && (ends[k].0 == i || ends[k].1 == i);
        assert edges[k].s == ends[k].0 && edges[k].e == ends[k].1;
      }
    }

    /** `shift`: every vertex moves by `(dx, dy)`; lines, flags and locks stay. */
    method Shift(dx: real, dy: real)
      requires Valid()
      modifies pts
      ensures Valid()
      ensures State() == old(State()).(vs := ShiftAll(old(pts[..]), dx, dy))
    {
      ShiftEach(pts, dx, dy);
      WellFormedKept(old(State()), pts[..], edges);
    }

    /** `align_with_frame_<side>`: answers whether it acted, and the figure
        afterwards is the one `Aligned` describes. */
    method Align(side: Side) returns (ok: bool)
      requires Valid()
      modifies this, pts
      ensures frame == old(frame)
      ensures Valid()
      ensures ok == CanAlign(old(State()), side)
      ensures State() == if ok then Aligned(old(State()), frame, side) else old(State())
    {
      var ks := SideLines(State(), side);
      if Locked(State(), side) || |ks| == 0 {
        return false;
      }
      AlignAt(side, ks, State());
      return true;
    }

    /** The acting half of `align_with_frame_<side>`: shift to the border,
        lock the axis, mark the lines `ks` found at that side. */
    method AlignAt(side: Side, ks: seq<nat>, ghost st0: Shape)
      requires st0 == State() && WellFormed(st0) && ks == SideLines(st0, side)
      modifies this, pts
      ensures frame == old(frame)
      ensures State() == Aligned(st0, frame, side)
    {
      var f := frame;
      var es := MarkEach(edges, ks);
      var d := BorderCoord(f, side) - Extreme(pts[..], side);
      var dx, dy := if AboutY(side) then 0.0 else d, if AboutY(side) then d else 0.0;
      MovedToIsShift(st0.vs, f, side, dx, dy);
      ShiftEach(pts, dx, dy);
      ghost var vs := pts[..];
      assert vs == MovedTo(st0.vs, f, side);
      edges := es;
      lockedX, lockedY := lockedX || !AboutY(side), lockedY || AboutY(side);
      AlignedIs(st0, f, side, vs, es);
    }

    /** `align_with_frame`: tries the sides in the shuffled `order` and stops
        at the first that acts. */
    method AlignWithFrame(order: seq<Side>) returns (ok: bool)
      requires Valid()
      modifies this, pts
      ensures frame == old(frame)
      ensures Valid()
      ensures ok == (FirstAligning(old(State()), order) < |order|)
      ensures State() == AlignFirst(old(State()), frame, order)
    {
      ghost var st0 := State();
      for i := 0 to |order|
        invariant Valid() && State() == st0 && frame == old(frame)
        invariant i <= FirstAligning(st0, order)
      {
        ok := Align(order[i]);
        if ok {
          assert FirstAligning(st0, order) == i;
          return;
        }
      }
      assert FirstAligning(st0, order) == |order|;
      ok := false;
    }

    /** `shift_to_frame_<side>`: answers whether it acted, and the figure
        afterwards is the one `ShiftedToFrame` describes. */
    method ShiftToFrameSide(side: Side) returns (ok: bool)
      requires Valid()
      modifies pts
      ensures Valid()
      ensures ok == CanShift(old(State()), side)
      ensures State() == if ok then ShiftedToFrame(old(State()), frame, side) else old(State())
    {
      var p := LonePoint(pts[..], side);
      if p.None? || Locked(State(), side) {
        return false;
      }
      ShiftToAt(side);
      return true;
    }

    /** The acting half of `shift_to_frame_<side>`: the shift that brings the
        figure's extreme towards `side` onto that border. */
    method ShiftToAt(side: Side)
      requires Valid()
      modifies pts
      ensures Valid()
      ensures State() == ShiftedToFrame(old(State()), frame, side)
    {
      var d := BorderCoord(frame, side) - Extreme(pts[..], side);
      Shift(if AboutY(side) then 0.0 else d, if AboutY(side) then d else 0.0);
    }

    /** `shift_to_frame`: tries the sides in the shuffled `order` and stops at
        the first that acts. */
    method ShiftToFrame(order: seq<Side>) returns (ok: bool)
      requires Valid()
      modifies pts
      ensures Valid()
      ensures ok == (FirstShifting(old(State()), order) < |order|)
      ensures State() == ShiftFirst(old(State()), frame, order)
    {
      ghost var st0 := State();
      for i := 0 to |order|
        invariant Valid() && State() == st0
        invariant forall j :: 0 <= j < i ==> !CanShift(st0, order[j])
      {
        ok := ShiftToFrameSide(order[i]);
        if ok {
          assert FirstShifting(st0, order) == i;
          return;
        }
      }
      assert FirstShifting(st0, order) == |order|;
      ok := false;
    }

    /** `extend_line` over the shuffled line `order`: extends the first line
        that is not yet extended, as `ExtendFirst` describes. */
    method ExtendLine(order: seq<nat>) returns (ok: bool)
      requires Valid() && Covers(order, |edges|)
      modifies this
      ensures frame == old(frame)
      ensures Valid()
      ensures (ok, State()) == ExtendFirst(old(State()), frame, order)
    {
      ghost var st0 := State();
      for i := 0 to |order|
        invariant Valid() && State() == st0 && frame == old(frame)
        invariant forall j :: 0 <= j < i ==> edges[order[j]].extended
      {
        var k := order[i];
        if !edges[k].extended {
          edges := edges[k := ExtendedEdge(pts[..], edges[k], frame)];
          assert FirstUnextended(st0.es, order) == i;
          assert State() == ExtendFirst(st0, frame, order).1;
          return true;
        }
      }
      assert FirstUnextended(st0.es, order) == |order|;
      return false;
    }

    /** `randomly_position` with the draws `tx` and `ty`, as `Positioned`
        describes. */
    method RandomlyPosition(tx: real, ty: real) returns (ok: bool)
      requires Valid() && 0.0 <= tx <= 1.0 && 0.0 <= ty <= 1.0
      modifies pts
      ensures Valid()
      ensures (ok, State()) == Positioned(old(State()), frame, tx, ty)
    {
      if lockedX || lockedY {
        return false;
      }
      Shift(ShiftDrawX(pts[..], frame, tx), ShiftDrawY(pts[..], frame, ty));
      return true;
    }

    /** `grow_line` over the shuffled distinct points `order`: asks each point
        in turn to grow a line and stops at the first that does, as
        `GrowFirst` describes. */
    method GrowLine(o: Orientation, order: seq<nat>, side: nat, t: real) returns (r: Result<Option<Anchored>>)
      requires Valid() && RepOrder(pts[..], order) && side < 4 && 0.0 <= t <= 1.0
      modifies pts
      ensures Valid()
      ensures (r, State()) == GrowFirst(old(State()), frame, o, order, side, t)
    {
      ghost var st0 := State();
      for i := 0 to |order|
        invariant State() == st0
        invariant forall j :: 0 <= j < i ==> st0.vs[order[j]].grown
      {
        var k := order[i];
        var q;
        r, q := Growing.GrowLine(pts[k], frame, o, side, t);
        if r != Ok(None) {
          pts[k] := q;
          assert FirstUngrown(st0.vs, order) == i;
          assert pts[..] == st0.vs[k := q];
          return;
        }
      }
      assert FirstUngrown(st0.vs, order) == |order|;
      r := Ok(None);
    }

    /** The loop of `find_free_points` that looks for another vertex closer
        than 3 units to vertex `i`. */
    method HasNearbyPoint(i: nat) returns (near: bool)
      requires i < pts.Length
      ensures near == HasNearby(pts[..], i)
    {
      for j := 0 to pts.Length
        invariant forall k :: 0 <= k < j && k != i ==> 9.0 <= Dist2(pts[i], pts[k])
      {
        if j != i && Dist2(pts[i], pts[j]) < 9.0 {
          assert pts[..][j] == pts[j];
          return true;
        }
      }
      return false;
    }

    /** The body of the loop in `find_free_points`: whether vertex `i` is a
        loose end, tested in the source's order. */
    method IsFreePoint(i: nat) returns (b: bool)
      requires Valid() && i < pts.Length
      ensures b == IsFree(State(), frame, i)
    {
      var p := pts[i];
      if p.grown {
        return false;
      }
      if p.x == LeftX(frame) || p.x == RightX(frame) {
        return false;
      }
      if p.y == TopY(frame) || p.y == BottomY(frame) {
        return false;
      }
      if exists j :: 0 <= j < pts.Length && j != i && Same(pts[j], p) {
        return false;
      }
      FirstTouchingFound(State(), i);
      var k := FirstTouching(pts[..], edges, p);
      if edges[k].extended {
        return false;
      }
      var near := HasNearbyPoint(i);
      return !near;
    }

    /** `find_free_points`: the free vertices, in vertex order, as
        `FreePoints` describes. */
    method FindFreePoints() returns (free: seq<nat>)
      requires Valid()
      ensures free == FreePoints(State(), frame)
    {
      ghost var st := State();
      free := [];
      for i := 0 to pts.Length
        invariant free == FreeAmong(st, frame, i)
      {
        var b := IsFreePoint(i);
        if b {
          free := free + [i];
        }
      }
    }

    /** `close_up_free_points` with the draws `ds`, one per loose end, as
        `CloseUp` describes. */
    method CloseUpFreePoints(ds: seq<CloseDraw>) returns (r: Result<seq<Option<Anchored>>>)
      requires Valid() && |ds| >= |FreePoints(State(), frame)| && ValidCloseDraws(ds)
      modifies this, pts
      ensures frame == old(frame)
      ensures Valid()
      ensures (r, State()) == CloseUp(old(State()), frame, ds)
    {
      if closed {
        return Ok([]);
      }
      var free := FindFreePoints();
      FreeAmongSpec(State(), frame, pts.Length);
      r := GrowAll(pts, frame, free, ds);
      if r.Ok? {
        closed := true;
      }
    }
  }

  /** The loop of `close_up_free_points`: grows a line from each vertex of
      `a` listed in `ps`, in order, with the matching draw, collecting the
      results, and stops at the first failure, as `GrowEach` describes. */
  method GrowAll(a: array<Point>, f: Frame, ps: seq<nat>, ds: seq<CloseDraw>)
    returns (r: Result<seq<Option<Anchored>>>)
    requires (forall j :: 0 <= j < |ps| ==> ps[j] < a.Length) && |ds| >= |ps| && ValidCloseDraws(ds)
    modifies a
    ensures (r, a[..]) == GrowEach(old(a[..]), f, ps, ds)
  {
    var lines: seq<Option<Anchored>> := [];
    assert ps[0..] == ps && ds[0..] == ds;
    CollectedNothing(GrowEach(a[..], f, ps, ds));
    for j := 0 to |ps|
      invariant GrowEach(old(a[..]), f, ps, ds) == Collected(lines, GrowEach(a[..], f, ps[j..], ds[j..]))
    {
      var d := ds[j];
      ghost var vs := a[..];
      var g, q := Growing.GrowLine(a[ps[j]], f, PickedOrientation(d.pick), d.side, d.t);
      GrowEachStep(vs, f, ps, ds, j);
      a[ps[j]] := q;
      if g.Err? {
        return Err(g.error);
      }
      CollectedAppend(lines, g.value, GrowEach(a[..], f, ps[j + 1..], ds[j + 1..]));
      lines := lines + [g.value];
    }
    assert ps[|ps|..] == [] && lines + [] == lines;
    return Ok(lines);
  }

  /** The results collected so far, `done`, in front of what the rest of a
      `GrowEach` run gives. */
  function Collected(done: seq<Option<Anchored>>, rest: (Result<seq<Option<Anchored>>>, seq<Point>))
    : (r: (Result<seq<Option<Anchored>>>, seq<Point>))
    ensures r.1 == rest.1 && r.0.Err? == rest.0.Err?
  {
    (if rest.0.Err? then Err(rest.0.error) else Ok(done + rest.0.value), rest.1)
  }

  /** One step of `GrowEach` from position `j` of `ps`. */
  lemma GrowEachStep(vs: seq<Point>, f: Frame, ps: seq<nat>, ds: seq<CloseDraw>, j: nat)
    requires (forall k :: 0 <= k < |ps| ==> ps[k] < |vs|) && |ds| >= |ps| && ValidCloseDraws(ds) && j < |ps|
    ensures var g := GrowFrom(vs[ps[j]], f, PickedOrientation(ds[j].pick), ds[j].side, ds[j].t);
            GrowEach(vs, f, ps[j..], ds[j..]) ==
              if g.0.Err? then (Err(g.0.error), vs[ps[j] := g.1])
              else Collected([g.0.value], GrowEach(vs[ps[j] := g.1], f, ps[j + 1..], ds[j + 1..]))
  {
    assert ps[j..][0] == ps[j] && ps[j..][1..] == ps[j + 1..];
    assert ds[j..][0] == ds[j] && ds[j..][1..] == ds[j + 1..];
  }

  lemma CollectedNothing(rest: (Result<seq<Option<Anchored>>>, seq<Point>))
    ensures Collected([], rest) == rest
  {
    if rest.0.Ok? {
      assert [] + rest.0.value == rest.0.value;
    }
  }

  /** Collecting one more result in front of the rest. */
  lemma CollectedAppend(done: seq<Option<Anchored>>, x: Option<Anchored>, rest: (Result<seq<Option<Anchored>>>, seq<Point>))
    ensures Collected(done, Collected([x], rest)) == Collected(done + [x], rest)
  {
    if rest.0.Ok? {
      assert done + ([x] + rest.0.value) == (done + [x]) + rest.0.value;
    }
  }
}
