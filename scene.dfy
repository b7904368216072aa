/** The stimulus image: a frame, at most one embedded figure, the lines that
    are not part of the figure and the lines attached to the figure's lines.
    The class `Image` keeps these in fields and routes every new line to one
    of the two line lists; the rendering and saving of the source are not
    part of this model. A random `choice` from a list of length `n` is a
    draw `k` read as position `k % n`, so every draw is usable. */
module Scenes {
  import opened Results
  import opened Points
  import opened Lines
  import opened Frames
  import opened Clipping
  import opened AttachedLines
  import opened Figures

  /** The frame of an image `w` wide and `h` high, centred on the origin:
      its top runs from `(-w/2, h/2)` to `(w/2, h/2)` and its right border
      from `(w/2, h/2)` down to `(w/2, -h/2)`. */
  function ImageFrame(w: real, h: real): (f: Frame)
    ensures f == MakeFrame(f.top, f.right)
  {
    MakeFrame(Line(At(-w / 2.0, h / 2.0), At(w / 2.0, h / 2.0)),
              Line(At(w / 2.0, h / 2.0), At(w / 2.0, -h / 2.0)))
  }

  /** For a non-negative size the image frame is upright, `w` wide and `h`
      high, with its borders at `±w/2` and `±h/2`; for a positive size it is
      proper. */
  lemma ImageFrameBorders(w: real, h: real)
    requires w >= 0.0 && h >= 0.0
    ensures var f := ImageFrame(w, h);
            Upright(f) && f.width == w && f.height == h &&
            LeftX(f) == -w / 2.0 && RightX(f) == w / 2.0 &&
            BottomY(f) == -h / 2.0 && TopY(f) == h / 2.0
    ensures w > 0.0 && h > 0.0 ==> Proper(ImageFrame(w, h))
  {
    var f := ImageFrame(w, h);
    assert f.width == w && f.height == h;
  }

  /** The geometry of a line: its own two points. */
  function Geom(a: Anchored): Line
  {
    Line(a.start, a.end)
  }

  function Geoms(as_: seq<Anchored>): (r: seq<Line>)
    ensures |r| == |as_| && forall k :: 0 <= k < |as_| ==> r[k] == Geom(as_[k])
  {
    seq(|as_|, k requires 0 <= k < |as_| => Geom(as_[k]))
  }

  /** The figure's lines, each between its two vertices. */
  function EdgeLines(st: Shape): (r: seq<Line>)
    requires WellFormed(st)
    ensures |r| == |st.es| && forall k :: 0 <= k < |st.es| ==> r[k] == EdgeLine(st.vs, st.es[k])
  {
    seq(|st.es|, k requires 0 <= k < |st.es| => EdgeLine(st.vs, st.es[k]))
  }

  /** `ceil(2n/3)`: the least count whose triple is at least `2n`. */
  function TwoThirds(n: nat): (r: nat)
    ensures 3 * r >= 2 * n && (r == 0 || 3 * (r - 1) < 2 * n)
    ensures r <= n
  {
    (2 * n + 2) / 3
  }

  /** `st` is `st0` with more lines extended: the vertices, the lines' ends,
      the locks and `closed` are unchanged, and every line that was extended
      is exactly as it was. */
  predicate ExtendedFrom(st0: Shape, st: Shape)
  {
    st.vs == st0.vs && SameEnds(st0.es, st.es) &&
    st.lockedX == st0.lockedX && st.lockedY == st0.lockedY && st.closed == st0.closed &&
    forall k :: 0 <= k < |st0.es| && st0.es[k].extended ==> st.es[k] == st0.es[k]
  }

  /** Extending lines in two rounds is extending them once. */
  lemma ExtendedFromTrans(a: Shape, b: Shape, c: Shape)
    requires ExtendedFrom(a, b) && ExtendedFrom(b, c)
    ensures ExtendedFrom(a, c)
  {
  }

  /** How many more lines `extend_two_thirds_figure_lines` extends: up to
      `ceil(2n/3)` of the `n` lines, counting those already extended. */
  function ToExtend(es: seq<Edge>): int
  {
    TwoThirds(|es|) - NumExtended(es)
  }

  /** A figure of 3 lines with one already extended has exactly one line to
      extend. */
  lemma OneToExtend(es: seq<Edge>)
    requires |es| == 3 && es[0].extended && !es[1].extended && !es[2].extended
    ensures ToExtend(es) == 1
  {
    assert es[..2][..1] == es[..1] && es[..1][..0] == [];
    assert NumExtended(es[..1]) == 1;
    assert NumExtended(es[..2]) == 1;
  }

  /** No existing line is closer than 40 to the candidate `c` by the
      separation metric (squared: 1600). */
  predicate FarFromAll(ls: seq<Line>, c: Line)
  {
    forall k :: 0 <= k < |ls| ==> MaxDist2(ls[k], c) >= 1600.0
  }

  /** The loop of `add_side2side_line` over the existing lines: it stops at
      the first one closer than 40 to the candidate. */
  method IsFarFromAll(ls: seq<Line>, c: Line) returns (far: bool)
    ensures far == FarFromAll(ls, c)
  {
    for k := 0 to |ls|
      invariant forall j :: 0 <= j < k ==> MaxDist2(ls[j], c) >= 1600.0
    {
      if MaxDist2(ls[k], c) < 1600.0 {
        return false;
      }
    }
    return true;
  }

  /** The draws of one `fling_side_to_side` call: `t` places a vertical or
      horizontal line, `i` and `j` are the two `choice`s of distinct borders
      and `draws` the attempts of a diagonal fling. */
  datatype SideToSide = SideToSide(t: real, i: nat, j: nat, draws: seq<(real, real)>)

  predicate ValidSideToSide(o: Orientation, c: SideToSide)
  {
    0.0 <= c.t <= 1.0 && (o == Diagonal ==> |c.draws| >= Attempts && UnitDraws(c.draws))
  }

  predicate ValidCandidates(o: Orientation, cs: seq<SideToSide>)
  {
    forall n :: 0 <= n < |cs| ==> ValidSideToSide(o, cs[n])
  }

  /** A line `fling_side_to_side` can give: it runs between two borders of
      `f` with each end on its border; a vertical line from the top straight
      down to the bottom, a horizontal one from the right straight across
      to the left, and any other one longer than 50. */
  predicate SideToSideLine(f: Frame, o: Orientation, a: Anchored)
  {
    a.startLine in Borders(f) && a.endLine in Borders(f) &&
    Collinear(a.start, a.startLine) && InBox(a.start, a.startLine) &&
    Collinear(a.end, a.endLine) && InBox(a.end, a.endLine) &&
    (o == Vertical ==> a.startLine == f.top && a.endLine == f.bottom && a.end.x == a.start.x) &&
    (o == Horizontal ==> a.startLine == f.right && a.endLine == f.left && a.end.y == a.start.y) &&
    (o == Diagonal ==> FarEnough(a))
  }

  /** The draws of one attempt of `add_random_line`: `kind` chooses among
      the source's eight entries (five side-to-side, one line-to-line, two
      side-to-line), the rest are the draws the chosen operation uses. */
  datatype RandomPick = RandomPick(kind: nat, cands: seq<SideToSide>, k: nat, m: nat,
                                   lineDraws: seq<(real, real)>, sideDraws: seq<SideDraw>)

  predicate ValidPick(o: Orientation, p: RandomPick)
  {
    (p.kind % 8 < 5 ==> ValidCandidates(o, p.cands)) &&
    (p.kind % 8 == 5 ==> |p.lineDraws| >= Attempts && UnitDraws(p.lineDraws)) &&
    (p.kind % 8 > 5 ==> |p.sideDraws| >= Attempts && ValidSideDraws(o, p.sideDraws))
  }

  predicate ValidPicks(o: Orientation, ps: seq<RandomPick>)
  {
    forall n :: 0 <= n < |ps| ==> ValidPick(o, ps[n])
  }

  /** The second of two distinct choices among `n` items: draw `j` picks
      among the items other than `i`. */
  function OtherThan(i: nat, j: nat, n: nat): (r: nat)
    requires i < n && n > 1
    ensures r < n && r != i
  {
    var c := j % (n - 1);
    if c < i then c else c + 1
  }

  /** What the candidate `c` gives: `fling_side_to_side` with the border
      `c.i` and a different border chosen by `c.j`. */
  function CandidateFling(f: Frame, o: Orientation, c: SideToSide): Result<Anchored>
    requires ValidSideToSide(o, c)
  {
    var i := c.i % 4;
    SideToSideFling(f, o, c.t, i, OtherThan(i, c.j, 4), c.draws)
  }

  /** The candidate `c` is drawn again: its fling succeeds, but with a line
      closer than 40 to one of `ls`. */
  predicate TooNear(ls: seq<Line>, f: Frame, o: Orientation, c: SideToSide)
    requires ValidSideToSide(o, c)
  {
    CandidateFling(f, o, c).Ok? && !FarFromAll(ls, Geom(CandidateFling(f, o, c).value))
  }

  /** Every candidate before the `n`th is drawn again. */
  predicate NearBefore(ls: seq<Line>, f: Frame, o: Orientation, cs: seq<SideToSide>, n: nat)
    requires ValidCandidates(o, cs) && n <= |cs|
  {
    forall m :: 0 <= m < n ==> TooNear(ls, f, o, cs[m])
  }

  /** Every pair of distinct items is a possible pair of choices. */
  lemma OtherThanCovers(i: nat, r: nat, n: nat)
    requires i < n && r < n && r != i
    ensures OtherThan(i, if r < i then r else r - 1, n) == r
  {
  }

  // ---------------------------------------------------------------------
  // Replacing the figure by lines

  /** `random.randint(lo, lo + w)` for the draw `d`. */
  function RandInt(lo: nat, w: nat, d: nat): (r: nat)
    ensures lo <= r <= lo + w
  {
    lo + d % (w + 1)
  }

  /** The sizes of the jiggled and the left-alone groups of `n` lines for the
      draws `dj` and `dl`: between a third and two thirds (each rounded down)
      of the `n` lines, and of the `n - jiggled` lines that remain; the rest
      are replaced. */
  function Split(n: nat, dj: nat, dl: nat): (r: (nat, nat))
    ensures n / 3 <= r.0 <= (n / 3) * 2
    ensures (n - r.0) / 3 <= r.1 <= ((n - r.0) / 3) * 2
    ensures r.0 + r.1 <= n
  {
    var nj := RandInt(n / 3, (n / 3) * 2 - n / 3, dj);
    var m := n - nj;
    (nj, RandInt(m / 3, (m / 3) * 2 - m / 3, dl))
  }

  /** `perm` lists each of `0 .. n-1` once: the order in which the source's
      `sample` calls and set iteration visit the lines. */
  predicate IsPermutation(perm: seq<nat>, n: nat)
  {
    |perm| == n && (forall i :: 0 <= i < n ==> perm[i] < n) &&
    forall i, j :: 0 <= i < j < n ==> perm[i] != perm[j]
  }

  /** The set of the entries of `perm` at the positions `lo .. hi-1`. */
  function Block(perm: seq<nat>, lo: nat, hi: nat): set<nat>
    requires lo <= hi <= |perm|
  {
    set i | lo <= i < hi :: perm[i]
  }

  /** Distinct entries: a block has as many members as positions. */
  lemma {:induction false} BlockSize(perm: seq<nat>, lo: nat, hi: nat)
    requires lo <= hi <= |perm|
    requires forall i, j :: 0 <= i < j < |perm| ==> perm[i] != perm[j]
    ensures |Block(perm, lo, hi)| == hi - lo
    decreases hi - lo
  {
    if lo < hi {
      BlockSize(perm, lo + 1, hi);
      assert Block(perm, lo, hi) == {perm[lo]} + Block(perm, lo + 1, hi);
      assert perm[lo] !in Block(perm, lo + 1, hi);
    } else {
      assert Block(perm, lo, hi) == {};
    }
  }

  /** The numbers below `n`. */
  function Below(n: nat): (r: set<nat>)
    ensures forall x: nat :: x in r <==> x < n
    ensures |r| == n
  {
    if n == 0 then {} else Below(n - 1) + {n - 1}
  }

  lemma {:induction false} SubsetSize(a: set<nat>, b: set<nat>)
    requires a <= b
    ensures |a| <= |b|
    decreases b
  {
    if a != {} {
      var x :| x in a;
      SubsetSize(a - {x}, b - {x});
    }
  }

  /** A permutation lists every number below `n`: its `n` distinct entries
      all lie below `n`, and there are only `n` such numbers. */
  lemma PermutationCovers(perm: seq<nat>, n: nat)
    requires IsPermutation(perm, n)
    ensures forall x: nat :: x < n ==> x in Block(perm, 0, n)
  {
    BlockSize(perm, 0, n);
    forall x: nat | x < n
      ensures x in Block(perm, 0, n)
    {
      if x !in Block(perm, 0, n) {
        SubsetSize(Block(perm, 0, n), Below(n) - {x});
      }
    }
  }

  /** The jiggled, left-alone and replaced groups of `replace_figure_with_lines`
      have `nj`, `nl` and `n - nj - nl` members, no line is in two of them,
      and every one of the `n` lines is in one of them. */
  lemma ReplacePartition(perm: seq<nat>, n: nat, nj: nat, nl: nat)
    requires IsPermutation(perm, n) && nj + nl <= n
    ensures |Block(perm, 0, nj)| == nj && |Block(perm, nj, nj + nl)| == nl &&
            |Block(perm, nj + nl, n)| == n - nj - nl
    ensures Block(perm, 0, nj) !! Block(perm, nj, nj + nl)
    ensures Block(perm, 0, nj) !! Block(perm, nj + nl, n)
    ensures Block(perm, nj, nj + nl) !! Block(perm, nj + nl, n)
    ensures forall x: nat :: x < n ==>
              x in Block(perm, 0, nj) || x in Block(perm, nj, nj + nl) || x in Block(perm, nj + nl, n)
  {
    BlockSize(perm, 0, nj);
    BlockSize(perm, nj, nj + nl);
    BlockSize(perm, nj + nl, n);
    PermutationCovers(perm, n);
    forall x: nat | x < n
      ensures x in Block(perm, 0, nj) || x in Block(perm, nj, nj + nl) || x in Block(perm, nj + nl, n)
    {
      assert x in Block(perm, 0, n);
      var i :| 0 <= i < n && perm[i] == x;
      if i < nj {
        assert x in Block(perm, 0, nj);
      } else if i < nj + nl {
        assert x in Block(perm, nj, nj + nl);
      } else {
        assert x in Block(perm, nj + nl, n);
      }
    }
  }

  /** The draws for one replaced line: whether the source's `choice` fell
      on "line2line", and the draws of a line-to-line line, of a
      side-to-side line and of a random line. */
  datatype Replacement = Replacement(lineToLine: bool, k: nat, m: nat, lineDraws: seq<(real, real)>,
                                     cands: seq<SideToSide>, picks: seq<RandomPick>)

  /** The draws of a replacement are usable whatever the replaced line's
      orientation. */
  predicate ValidReplacement(rep: Replacement)
  {
    (rep.lineToLine ==> |rep.lineDraws| >= Attempts && UnitDraws(rep.lineDraws)) &&
    (forall o: Orientation :: ValidCandidates(o, rep.cands)) &&
    (forall o: Orientation :: ValidPicks(o, rep.picks))
  }

  /** All draws of `replace_figure_with_lines` for `n` lines to replace and
      `base` other lines: the `randint` draws `dj` and `dl`, the visiting
      order `perm`, a pair of draws per jiggled line, the draws per replaced
      line, and a pair of draws per line extended to its parents at the
      end. */
  datatype ReplaceDraws = ReplaceDraws(dj: nat, dl: nat, perm: seq<nat>, jiggle: seq<(real, real)>,
                                       reps: seq<Replacement>, extend: seq<(real, real)>)

  predicate ValidReplaceDraws(d: ReplaceDraws, n: nat, base: nat)
  {
    IsPermutation(d.perm, n) &&
    |d.jiggle| >= n && UnitDraws(d.jiggle) &&
    |d.reps| >= n && (forall i :: 0 <= i < |d.reps| ==> ValidReplacement(d.reps[i])) &&
    |d.extend| >= base + n && UnitDraws(d.extend)
  }

  /** The jiggled group: the first `nj` lines in the order `perm`, each
      jiggled with its pair of draws. */
  function JiggledGroup(ext: seq<Anchored>, perm: seq<nat>, nj: nat, ds: seq<(real, real)>): (r: seq<Anchored>)
    requires nj <= |perm| && (forall i :: 0 <= i < |perm| ==> perm[i] < |ext|)
    requires |ds| >= nj && UnitDraws(ds)
    ensures |r| == nj
  {
    seq(nj, i requires 0 <= i < nj => JiggledAll(ext[perm[i]], ds[i].0, ds[i].1))
  }

  /** The jiggling loop of `replace_figure_with_lines`. */
  method JiggleGroup(ext: seq<Anchored>, perm: seq<nat>, nj: nat, ds: seq<(real, real)>) returns (r: seq<Anchored>)
    requires nj <= |perm| && (forall i :: 0 <= i < |perm| ==> perm[i] < |ext|)
    requires |ds| >= nj && UnitDraws(ds)
    ensures r == JiggledGroup(ext, perm, nj, ds)
  {
    r := [];
    for i := 0 to nj
      invariant |r| == i
      invariant forall j :: 0 <= j < i ==> r[j] == JiggledAll(ext[perm[j]], ds[j].0, ds[j].1)
    {
      r := r + [JiggledAll(ext[perm[i]], ds[i].0, ds[i].1)];
    }
  }

  /** The group left alone: the next `nl` lines in the order `perm`. */
  function LeftGroup(ext: seq<Anchored>, perm: seq<nat>, nj: nat, nl: nat): (r: seq<Anchored>)
    requires nj + nl <= |perm| && (forall i :: 0 <= i < |perm| ==> perm[i] < |ext|)
    ensures |r| == nl
  {
    seq(nl, i requires 0 <= i < nl => ext[perm[nj + i]])
  }

  /** The other lines after the two kept groups are appended to `base`. */
  function Kept(base: seq<Anchored>, ext: seq<Anchored>, d: ReplaceDraws): (r: seq<Anchored>)
    requires ValidReplaceDraws(d, |ext|, |base|)
    ensures |r| == |base| + Split(|ext|, d.dj, d.dl).0 + Split(|ext|, d.dj, d.dl).1
  {
    var sp := Split(|ext|, d.dj, d.dl);
    base + JiggledGroup(ext, d.perm, sp.0, d.jiggle) + LeftGroup(ext, d.perm, sp.0, sp.1)
  }

  /** Each end lies on the line through its owner line. */
  predicate OnOwners(a: Anchored)
  {
    Collinear(a.start, a.startLine) && Collinear(a.end, a.endLine)
  }

  /** One more candidate drawn again extends the run of candidates drawn again. */
  lemma NearBeforeStep(ls: seq<Line>, f: Frame, o: Orientation, cs: seq<SideToSide>, n: nat)
    requires ValidCandidates(o, cs) && n < |cs|
    requires NearBefore(ls, f, o, cs, n) && TooNear(ls, f, o, cs[n])
    ensures NearBefore(ls, f, o, cs, n + 1)
  {
  }

  /** The loop of `add_side2side_line`: candidates from `fling_side_to_side`
      are drawn from `cands` in turn until one is at least 40 away from every
      line of `ls`. A diagonal fling that gives up ends the search with
      `TooClose`; running out of candidates is `Exhausted`. */
  method FirstFarCandidate(f: Frame, o: Orientation, ls: seq<Line>, cands: seq<SideToSide>) returns (r: Result<Anchored>)
    requires f == MakeFrame(f.top, f.right) && ValidCandidates(o, cands)
    ensures r.Ok? ==> SideToSideLine(f, o, r.value) && FarFromAll(ls, Geom(r.value))
    ensures r.Ok? ==> exists n :: 0 <= n < |cands| && NearBefore(ls, f, o, cands, n) &&
                                  CandidateFling(f, o, cands[n]) == Ok(r.value)
    ensures r.Err? ==> r.error == Exhausted || (r.error == TooClose && o == Diagonal)
    ensures r.Err? && r.error == TooClose ==>
              exists n :: 0 <= n < |cands| && NearBefore(ls, f, o, cands, n) && CandidateFling(f, o, cands[n]).Err?
    ensures r.Err? && r.error == Exhausted ==> NearBefore(ls, f, o, cands, |cands|)
  {
    for n := 0 to |cands|
      invariant NearBefore(ls, f, o, cands, n)
    {
      var a := FlingCandidate(f, o, cands[n]);
      if a.Err? {
        assert CandidateFling(f, o, cands[n]).Err?;
        return Err(a.error);
      }
      var far := IsFarFromAll(ls, Geom(a.value));
      if far {
        assert CandidateFling(f, o, cands[n]) == Ok(a.value);
        return Ok(a.value);
      }
      NearBeforeStep(ls, f, o, cands, n);
    }
    return Err(Exhausted);
  }

  /** One candidate of `add_side2side_line`: `fling_side_to_side` with the
      border `c.i` and a different border chosen by `c.j`. */
  method FlingCandidate(f: Frame, o: Orientation, c: SideToSide) returns (r: Result<Anchored>)
    requires f == MakeFrame(f.top, f.right) && ValidSideToSide(o, c)
    ensures r == CandidateFling(f, o, c)
    ensures r.Ok? ==> SideToSideLine(f, o, r.value)
    ensures r.Err? ==> r.error == TooClose && o == Diagonal
  {
    var i := c.i % 4;
    r := FlingSideToSide(f, o, c.t, i, OtherThan(i, c.j, 4), c.draws);
  }

  /** What the choice of a new line sees of the image: its frame, whether it
      has a figure, the figure's lines, the other lines and the lines
      attached to the figure. A figure has at least one line. */
  datatype View = View(frame: Frame, hasFigure: bool, edges: seq<Line>, others: seq<Line>, attached: seq<Line>)

  predicate ValidView(v: View)
  {
    if v.hasFigure then |v.edges| > 0 else v.edges == []
  }

  /** The lines a new line may start from: the figure's lines, then the other lines. */
  function Starts(v: View): seq<Line>
  {
    v.edges + v.others
  }

  /** The line `add_side2line_line` starts from for the draw `k`: a choice
      among the figure's lines and the other lines; the new line is attached
      to the figure exactly when the chosen line is a figure line. */
  function Side2LineStart(v: View, k: nat): (c: (Line, bool))
    requires ValidView(v) && (v.hasFigure || |v.others| > 0)
    ensures c.0 in Starts(v)
    ensures c.1 <==> v.hasFigure && k % |Starts(v)| < |v.edges|
  {
    var i := k % |Starts(v)|;
    (Starts(v)[i], v.hasFigure && i < |v.edges|)
  }

  /** The two lines `add_line2line_line` connects for the draws `k` and `m`:
      without a figure two different other lines (the source's `sample`),
      with a figure a choice among the figure's lines and the other lines to
      a choice among the other lines. The new line is attached to the figure
      exactly when it starts from a figure line. */
  function Line2LineEnds(v: View, k: nat, m: nat): (c: (Line, Line, bool))
    requires ValidView(v) && (|v.others| >= 2 || (v.hasFigure && |v.others| >= 1))
    ensures c.0 in Starts(v) && c.1 in v.others
    ensures c.2 <==> v.hasFigure && k % |Starts(v)| < |v.edges|
    ensures !v.hasFigure ==>
              c.0 == v.others[k % |v.others|] &&
              c.1 == v.others[OtherThan(k % |v.others|, m, |v.others|)]
  {
    if !v.hasFigure then
      var i := k % |v.others|;
      (v.others[i], v.others[OtherThan(i, m, |v.others|)], false)
    else
      var i := k % |Starts(v)|;
      (Starts(v)[i], v.others[m % |v.others|], i < |v.edges|)
  }

  /** The pick `p` adds the line `a` to the image `v`, to the lines attached
      to the figure exactly when `toFig`: a side-to-side pick the line of its
      first candidate that is at least 40 from every line, every earlier
      candidate being too near, never attached to the figure; a line-to-line or side-to-line pick, when
      its guard lets it through, one of its attempts from the lines
      `Line2LineEnds` or `Side2LineStart` choose that is longer than 50. */
  predicate PickAdds(v: View, o: Orientation, p: RandomPick, a: Anchored, toFig: bool)
    requires ValidView(v) && ValidPick(o, p)
  {
    if p.kind % 8 < 5 then
      !toFig && SideToSideLine(v.frame, o, a) && FarFromAll(v.edges + v.others + v.attached, Geom(a)) &&
      exists n :: 0 <= n < |p.cands| && NearBefore(v.edges + v.others + v.attached, v.frame, o, p.cands, n) &&
                  CandidateFling(v.frame, o, p.cands[n]) == Ok(a)
    else if p.kind % 8 == 5 then
      (|v.others| >= 2 || (v.hasFigure && |v.others| >= 1)) &&
      var c := Line2LineEnds(v, p.k, p.m);
      toFig == c.2 && a.startLine == c.0 && a.endLine == c.1 && FarEnough(a) &&
      exists n :: 0 <= n < Attempts && a == Attempt(c.0, c.1, p.lineDraws[n])
    else
      (v.hasFigure || |v.others| > 0) &&
      var c := Side2LineStart(v, p.k);
      toFig == c.1 && a.startLine == c.0 && FarEnough(a) &&
      exists n :: 0 <= n < Attempts && a == SideAttempt(v.frame, c.0, o, p.sideDraws[n])
  }

  /** The pick `p` fails on the image `v`, so that `add_random_line` draws
      again: a side-to-side pick when the fling of a candidate gives up, every
      earlier candidate being too near; a line-to-line or side-to-line pick when its guard lets it through and
      every one of its 100 attempts is 50 or shorter. */
  predicate PickFails(v: View, o: Orientation, p: RandomPick)
    requires ValidView(v) && ValidPick(o, p)
  {
    if p.kind % 8 < 5 then
      exists n :: 0 <= n < |p.cands| && NearBefore(v.edges + v.others + v.attached, v.frame, o, p.cands, n) &&
                  CandidateFling(v.frame, o, p.cands[n]).Err?
    else if p.kind % 8 == 5 then
      (|v.others| >= 2 || (v.hasFigure && |v.others| >= 1)) &&
      var c := Line2LineEnds(v, p.k, p.m);
      forall n :: 0 <= n < Attempts ==> !FarEnough(Attempt(c.0, c.1, p.lineDraws[n]))
    else
      (v.hasFigure || |v.others| > 0) &&
      var c := Side2LineStart(v, p.k);
      forall n :: 0 <= n < Attempts ==> !FarEnough(SideAttempt(v.frame, c.0, o, p.sideDraws[n]))
  }

  /** The pick `p` runs out of candidates: it is a side-to-side pick and every
      one of its candidates is too near. */
  predicate PickExhausts(v: View, o: Orientation, p: RandomPick)
    requires ValidView(v) && ValidPick(o, p)
  {
    p.kind % 8 < 5 && NearBefore(v.edges + v.others + v.attached, v.frame, o, p.cands, |p.cands|)
  }

  /** Each of the first `n` picks fails and leaves the image as it was. */
  predicate FailsBefore(v: View, o: Orientation, picks: seq<RandomPick>, n: nat)
    requires ValidView(v) && ValidPicks(o, picks) && n <= |picks|
  {
    forall j :: 0 <= j < n ==> PickFails(v, o, picks[j])
  }

  /** One more failing pick extends the run of failing picks. */
  lemma FailsBeforeStep(v: View, o: Orientation, picks: seq<RandomPick>, n: nat)
    requires ValidView(v) && ValidPicks(o, picks) && n < |picks|
    requires FailsBefore(v, o, picks, n) && PickFails(v, o, picks[n])
    ensures FailsBefore(v, o, picks, n + 1)
  {
  }

  /** The source's `LeftImage` without its window: the frame, the figure
      (`null` when there is none), the lines that are not part of the figure
      and the lines attached to a figure line. Python compares lines by
      identity, so a line "in the figure" is one of the first `|edges|`
      entries of a choice list. */
  class Image {
    const frame: Frame
    var figure: Figure?
    var nonFig: seq<Anchored>
    var linked: seq<Anchored>

    /** The objects of the figure, which the figure's operations change. */
    function Parts(): set<object>
      reads this
    {
      if figure == null then {} else {figure, figure.pts}
    }

    /** The frame is built from its top and right borders, and the figure, if
        any, is well formed and placed in the image's frame. */
    predicate Valid()
      reads this, Parts()
    {
      frame == MakeFrame(frame.top, frame.right) &&
      (figure != null ==> figure.Valid() && figure.frame == frame)
    }

    /** `get_all_lines`: the figure's lines (when there is a figure), then the
        other lines, then the lines attached to the figure. */
    function AllLines(): (r: seq<Line>)
      requires Valid()
      reads this, Parts()
      ensures |r| == (if figure == null then 0 else |figure.edges|) + |nonFig| + |linked|
    {
      (if figure == null then [] else EdgeLines(figure.State())) + Geoms(nonFig) + Geoms(linked)
    }

    /** The lines a new line may start from: the figure's lines, then the
        other lines. */
    function StartLines(): (r: seq<Line>)
      requires Valid()
      reads this, Parts()
      ensures |r| == (if figure == null then 0 else |figure.edges|) + |nonFig|
    {
      (if figure == null then [] else EdgeLines(figure.State())) + Geoms(nonFig)
    }

    /** The image as the choice of a new line sees it. */
    function CurrentView(): (v: View)
      requires Valid()
      reads this, Parts()
      ensures ValidView(v) && v.frame == frame && (v.hasFigure <==> figure != null)
      ensures v.others == Geoms(nonFig) && v.attached == Geoms(linked)
      ensures Starts(v) == StartLines() && v.edges + v.others + v.attached == AllLines()
      ensures figure != null ==> |v.edges| == |figure.edges|
    {
      View(frame, figure != null, if figure == null then [] else EdgeLines(figure.State()),
           Geoms(nonFig), Geoms(linked))
    }

    /** An image of the given size, with no figure and no lines. */
    constructor(w: real, h: real)
      ensures Valid() && frame == ImageFrame(w, h)
      ensures figure == null && nonFig == [] && linked == []
    {
      frame := ImageFrame(w, h);
      figure := null;
      nonFig := [];
      linked := [];
    }

    /** `add_figure`: the figure moves into the image's frame and becomes the
        image's figure; its lines, vertices and flags stay as they were. */
    method AddFigure(fig: Figure)
      requires Valid() && fig.Valid()
      modifies this, fig
      ensures Valid() && figure == fig
      ensures fig.frame == frame && fig.State() == old(fig.State())
      ensures nonFig == old(nonFig) && linked == old(linked)
    {
      fig.frame := frame;
      figure := fig;
    }

    /** `randomly_position_figure`: false without a figure; otherwise the
        figure is placed as `Positioned` describes and the answer is true,
        whether or not the figure moved. */
    method RandomlyPositionFigure(tx: real, ty: real) returns (ok: bool)
      requires Valid() && 0.0 <= tx <= 1.0 && 0.0 <= ty <= 1.0
      modifies Parts()
      ensures Valid() && ok == (figure != null)
      ensures figure != null ==> figure.State() == Positioned(old(figure.State()), frame, tx, ty).1
    {
      if figure == null {
        return false;
      }
      var _ := figure.RandomlyPosition(tx, ty);
      return true;
    }

    /** `extend_figure_line` with the shuffled line `order`: false without a
        figure; otherwise the answer and the figure are as `ExtendFirst`
        describes. */
    method ExtendFigureLine(order: seq<nat>) returns (ok: bool)
      requires Valid() && (figure != null ==> Covers(order, |figure.edges|))
      modifies Parts()
      ensures Valid()
      ensures ok == (figure != null && ExtendFirst(old(figure.State()), frame, order).0)
      ensures figure != null ==> figure.State() == ExtendFirst(old(figure.State()), frame, order).1
    {
      if figure == null {
        return false;
      }
      ok := figure.ExtendLine(order);
    }
      /** `extend_all_figure_lines` with one shuffled line order per call:
        false without a figure; otherwise every line ends up extended, and
        the answer says whether some line was not extended before. */
    method ExtendAllFigureLines(orders: seq<seq<nat>>) returns (ok: bool)
      requires Valid()
      requires figure != null ==>
                 |orders| > |figure.edges| - NumExtended(figure.edges) &&
                 forall i :: 0 <= i < |orders| ==> Covers(orders[i], |figure.edges|)
      modifies Parts()
      ensures Valid()
      ensures ok == (figure != null && NumExtended(old(figure.edges)) < |old(figure.edges)|)
      ensures figure != null ==>
                ExtendedFrom(old(figure.State()), figure.State()) &&
                forall k :: 0 <= k < |figure.edges| ==> figure.edges[k].extended
    {
      if figure == null {
        return false;
      }
      ghost var st0 := figure.State();
      var extended := true;
      var count := -1;
      while extended
        invariant Valid() && figure != null && count >= -1
        invariant ExtendedFrom(st0, figure.State())
        invariant extended ==> NumExtended(figure.edges) == NumExtended(st0.es) + count + 1
        invariant !extended ==> NumExtended(figure.edges) == NumExtended(st0.es) + count &&
                                forall k :: 0 <= k < |figure.edges| ==> figure.edges[k].extended
        decreases |figure.edges| - NumExtended(figure.edges) + (if extended then 1 else 0)
      {
        ghost var before := figure.State();
        extended := ExtendFigureLine(orders[count + 1]);
        ExtendedFromTrans(st0, before, figure.State());
        count := count + 1;
      }
      NumExtendedAll(figure.edges);
      NumExtendedAll(st0.es);
      return count > 0;
    }

    /** `extend_two_thirds_figure_lines` as the source writes it: its counter
        starts at -1 and counts every call, so after `m` successful calls it
        is `m - 1` and the answer is false when exactly one line was
        extended. Otherwise it behaves like `ExtendTwoThirdsFigureLines`. */
    method ExtendTwoThirdsFigureLinesAsWritten(orders: seq<seq<nat>>) returns (ok: bool)
      requires Valid()
      requires figure != null ==>
                 |orders| >= ToExtend(figure.edges) &&
                 forall i :: 0 <= i < |orders| ==> Covers(orders[i], |figure.edges|)
      modifies Parts()
      ensures Valid()
      ensures ok == (figure != null && ToExtend(old(figure.edges)) >= 2)
      ensures figure != null && ToExtend(old(figure.edges)) < 1 ==> figure.State() == old(figure.State())
      ensures figure != null && ToExtend(old(figure.edges)) >= 1 ==>
                ExtendedFrom(old(figure.State()), figure.State()) &&
                NumExtended(figure.edges) == TwoThirds(|figure.edges|)
    {
      if figure == null {
        return false;
      }
      var count := -1;
      var num := TwoThirds(|figure.edges|) - NumExtended(figure.edges);
      if num < 1 {
        return false;
      }
      ghost var st0 := figure.State();
      var extended := true;
      var i := 0;
      while i < num && extended
        invariant Valid() && figure != null && 0 <= i <= num && extended
        invariant ExtendedFrom(st0, figure.State())
        invariant count == i - 1 && NumExtended(figure.edges) == NumExtended(st0.es) + i
      {
        NumExtendedAll(figure.edges);
        ghost var before := figure.State();
        extended := ExtendFigureLine(orders[i]);
        ExtendedFromTrans(st0, before, figure.State());
        count := count + 1;
        i := i + 1;
      }
      return count > 0;
    }

    /** `extend_two_thirds_figure_lines`: false without a figure or when two
        thirds of the lines (rounded up) are already extended, and then
        nothing changes; otherwise it extends lines until exactly that many
        are extended and answers true. */
    method ExtendTwoThirdsFigureLines(orders: seq<seq<nat>>) returns (ok: bool)
      requires Valid()
      requires figure != null ==>
                 |orders| >= ToExtend(figure.edges) &&
                 forall i :: 0 <= i < |orders| ==> Covers(orders[i], |figure.edges|)
      modifies Parts()
      ensures Valid()
      ensures ok == (figure != null && ToExtend(old(figure.edges)) >= 1)
      ensures figure != null && !ok ==> figure.State() == old(figure.State())
      ensures ok ==> ExtendedFrom(old(figure.State()), figure.State()) &&
                     NumExtended(figure.edges) == TwoThirds(|figure.edges|)
    {
      if figure == null {
        return false;
      }
      var count := 0;
      var num := TwoThirds(|figure.edges|) - NumExtended(figure.edges);
      if num < 1 {
        return false;
      }
      ghost var st0 := figure.State();
      var extended := true;
      var i := 0;
      while i < num && extended
        invariant Valid() && figure != null && 0 <= i <= num && extended
        invariant ExtendedFrom(st0, figure.State())
        invariant count == i && NumExtended(figure.edges) == NumExtended(st0.es) + i
      {
        NumExtendedAll(figure.edges);
        ghost var before := figure.State();
        extended := ExtendFigureLine(orders[i]);
        ExtendedFromTrans(st0, before, figure.State());
        if extended {
          count := count + 1;
        }
        i := i + 1;
      }
      return count > 0;
    }
      /** `align_figure_with_frame` with the shuffled side `order`: the figure,
        if any, is aligned as `AlignFirst` describes. */
    method AlignFigureWithFrame(order: seq<Side>)
      requires Valid()
      modifies Parts()
      ensures Valid()
      ensures figure != null ==> figure.State() == AlignFirst(old(figure.State()), frame, order)
    {
      if figure == null {
        return;
      }
      var _ := figure.AlignWithFrame(order);
    }

    /** `shift_figure_to_frame` with the shuffled side `order`: false without
        a figure; otherwise the answer and the figure are as `ShiftFirst`
        describes. */
    method ShiftFigureToFrame(order: seq<Side>) returns (ok: bool)
      requires Valid()
      modifies Parts()
      ensures Valid()
      ensures ok == (figure != null && FirstShifting(old(figure.State()), order) < |order|)
      ensures figure != null ==> figure.State() == ShiftFirst(old(figure.State()), frame, order)
    {
      if figure == null {
        return false;
      }
      ok := figure.ShiftToFrame(order);
    }

    /** `grow_figure_line`: `pick` chooses the orientation and `order` shuffles
        the figure's distinct points. Without a figure the answer is
        `Ok(false)`. Otherwise the figure grows a line as `GrowFirst`
        describes; a grown line joins the other lines and the answer is
        `Ok(true)`, and when every point has grown a line already nothing is
        added and the answer is `Ok(false)`. A failure of the growth is passed
        on and adds nothing. */
    method GrowFigureLine(pick: nat, order: seq<nat>, side: nat, t: real) returns (r: Result<bool>)
      requires Valid() && side < 4 && 0.0 <= t <= 1.0
      requires figure != null ==> RepOrder(figure.pts[..], order)
      modifies this, Parts()
      ensures Valid() && figure == old(figure) && linked == old(linked)
      ensures figure == null ==> r == Ok(false) && nonFig == old(nonFig)
      ensures figure != null ==>
                var g := GrowFirst(old(figure.State()), frame, PickedOrientation(pick % 4), order, side, t);
                figure.State() == g.1 &&
                match g.0
                case Ok(Some(a)) => r == Ok(true) && nonFig == old(nonFig) + [a]
                case Ok(None) => r == Ok(false) && nonFig == old(nonFig)
                case Err(e) => r == Err(e) && nonFig == old(nonFig)
    {
      if figure == null {
        return Ok(false);
      }
      var o := PickedOrientation(pick % 4);
      var g := figure.GrowLine(o, order, side, t);
      if g.Err? {
        return Err(g.error);
      }
      if g.value.Some? {
        nonFig := nonFig + [g.value.value];
        return Ok(true);
      }
      return Ok(false);
    }

    /** `close_figure_free_points` with one draw per loose end: without a
        figure the answer is `Ok(false)` and nothing changes. Otherwise the
        figure closes up as `CloseUp` describes, the lines grown from its
        loose ends join the other lines in order, and the answer is
        `Ok(false)`, standing for the source's falsy `None`; a failure of the
        growth is passed on and adds nothing. */
    method CloseFigureFreePoints(ds: seq<CloseDraw>) returns (r: Result<bool>)
      requires Valid() && ValidCloseDraws(ds)
      requires figure != null ==> |ds| >= |FreePoints(figure.State(), frame)|
      modifies this, Parts()
      ensures Valid() && figure == old(figure) && linked == old(linked)
      ensures figure == null ==> r == Ok(false) && nonFig == old(nonFig)
      ensures figure != null ==>
                var c := CloseUp(old(figure.State()), frame, ds);
                figure.State() == c.1 &&
                if c.0.Err? then r == Err(c.0.error) && nonFig == old(nonFig)
                else r == Ok(false) && |nonFig| == |old(nonFig)| + |c.0.value| &&
                     nonFig[..|old(nonFig)|] == old(nonFig) &&
                     forall j :: 0 <= j < |c.0.value| ==> Some(nonFig[|old(nonFig)| + j]) == c.0.value[j]
    {
      if figure == null {
        return Ok(false);
      }
      ghost var st0 := figure.State();
      CloseUpCloses(st0, frame, ds);
      var grown := figure.CloseUpFreePoints(ds);
      if grown.Err? {
        return Err(grown.error);
      }
      var added := [];
      for j := 0 to |grown.value|
        invariant |added| == j && forall i :: 0 <= i < j ==> Some(added[i]) == grown.value[i]
      {
        added := added + [grown.value[j].value];
      }
      nonFig := nonFig + added;
      return Ok(false);
    }

    /** `jiggle_non_fig_lines`: every other line is jiggled with its own pair
        of draws, as `JiggledAll` describes. */
    method JiggleNonFigLines(draws: seq<(real, real)>)
      requires |draws| >= |nonFig| && UnitDraws(draws)
      modifies this
      ensures |nonFig| == |old(nonFig)|
      ensures forall k :: 0 <= k < |nonFig| ==> nonFig[k] == JiggledAll(old(nonFig[k]), draws[k].0, draws[k].1)
      ensures figure == old(figure) && linked == old(linked)
    {
      var ls := nonFig;
      for k := 0 to |ls|
        invariant |ls| == |nonFig|
        invariant forall j :: 0 <= j < k ==> ls[j] == JiggledAll(nonFig[j], draws[j].0, draws[j].1)
        invariant forall j :: k <= j < |ls| ==> ls[j] == nonFig[j]
      {
        ls := ls[k := JiggledAll(ls[k], draws[k].0, draws[k].1)];
      }
      nonFig := ls;
    }
    /** `add_side2side_line`: `FirstFarCandidate` searches `cands` against the
        lines the image holds, and the line it finds joins the other lines.
        A failed diagonal fling is passed on, and running out of candidates is
        `Exhausted`; either way nothing changes. */
    method AddSide2SideLine(o: Orientation, cands: seq<SideToSide>) returns (r: Result<Anchored>)
      requires Valid() && ValidCandidates(o, cands)
      modifies this
      ensures Valid() && figure == old(figure) && linked == old(linked)
      ensures r.Ok? ==> nonFig == old(nonFig) + [r.value] &&
                        SideToSideLine(frame, o, r.value) && FarFromAll(old(AllLines()), Geom(r.value))
      ensures r.Ok? ==> exists n :: 0 <= n < |cands| && NearBefore(old(AllLines()), frame, o, cands, n) &&
                                    CandidateFling(frame, o, cands[n]) == Ok(r.value)
      ensures r.Err? ==> nonFig == old(nonFig) &&
                         (r.error == Exhausted || (r.error == TooClose && o == Diagonal))
      ensures r.Err? && r.error == TooClose ==>
                exists n :: 0 <= n < |cands| && NearBefore(old(AllLines()), frame, o, cands, n) &&
                            CandidateFling(frame, o, cands[n]).Err?
      ensures r.Err? && r.error == Exhausted ==> NearBefore(old(AllLines()), frame, o, cands, |cands|)
    {
      r := FirstFarCandidate(frame, o, AllLines(), cands);
      if r.Ok? {
        nonFig := nonFig + [r.value];
      }
    }

    /** `add_side2line_line`: without a figure and without other lines the
        answer is `Ok(None)` (the source's `False`) and nothing changes.
        Otherwise a line is flung from the line `Side2LineStart` chooses to a
        border, as `fling_side_to_line` does with `draws`, and joins the
        lines attached to the figure when it starts from a figure line, the
        other lines otherwise. A failed fling is passed on and adds
        nothing. */
    method AddSide2LineLine(o: Orientation, k: nat, draws: seq<SideDraw>) returns (r: Result<Option<Anchored>>)
      requires Valid() && |draws| >= Attempts && ValidSideDraws(o, draws)
      modifies this
      ensures Valid() && figure == old(figure)
      ensures r.Ok? && r.value.None? <==> |old(nonFig)| < 1 && figure == null
      ensures r.Ok? && r.value.Some? ==>
                var a := r.value.value;
                var c := Side2LineStart(old(CurrentView()), k);
                a.startLine == c.0 && FarEnough(a) && (Upright(frame) ==> OnOwners(a)) &&
                (exists n :: 0 <= n < Attempts && a == SideAttempt(frame, c.0, o, draws[n])) &&
                if c.1 then linked == old(linked) + [a] && nonFig == old(nonFig)
                else nonFig == old(nonFig) + [a] && linked == old(linked)
      ensures !(r.Ok? && r.value.Some?) ==> nonFig == old(nonFig) && linked == old(linked)
      ensures r.Err? ==> r.error == TooClose && old(figure != null || |nonFig| > 0) &&
                         forall n :: 0 <= n < Attempts ==>
                                       !FarEnough(SideAttempt(frame, Side2LineStart(old(CurrentView()), k).0, o, draws[n]))
    {
      if |nonFig| < 1 && figure == null {
        return Ok(None);
      }
      var c := Side2LineStart(CurrentView(), k);
      var a := FlingSideToLine(frame, c.0, o, draws);
      if a.Err? {
        return Err(a.error);
      }
      if c.1 {
        linked := linked + [a.value];
      } else {
        nonFig := nonFig + [a.value];
      }
      return Ok(Some(a.value));
    }

    /** `add_line2line_line`: with fewer than two other lines and no figure,
        or with no other line at all, the answer is `Ok(None)` (the source's
        `False`) and nothing changes. Otherwise a line is flung between the
        lines `Line2LineEnds` chooses, as `fling_to_line` does with `draws`,
        and joins the lines attached to the figure when it starts from a
        figure line, the other lines otherwise. A failed fling is passed on
        and adds nothing. */
    method AddLine2LineLine(k: nat, m: nat, draws: seq<(real, real)>) returns (r: Result<Option<Anchored>>)
      requires Valid() && |draws| >= Attempts && UnitDraws(draws)
      modifies this
      ensures Valid() && figure == old(figure)
      ensures r.Ok? && r.value.None? <==> |old(nonFig)| < 2 && (figure == null || |old(nonFig)| < 1)
      ensures r.Ok? && r.value.Some? ==>
                var a := r.value.value;
                var c := Line2LineEnds(old(CurrentView()), k, m);
                a.startLine == c.0 && a.endLine == c.1 && FarEnough(a) && OnOwners(a) &&
                (exists n :: 0 <= n < Attempts && a == Attempt(c.0, c.1, draws[n])) &&
                if c.2 then linked == old(linked) + [a] && nonFig == old(nonFig)
                else nonFig == old(nonFig) + [a] && linked == old(linked)
      ensures !(r.Ok? && r.value.Some?) ==> nonFig == old(nonFig) && linked == old(linked)
      ensures r.Err? ==> r.error == TooClose && old(|nonFig| >= 2 || (figure != null && |nonFig| >= 1)) &&
                         var c := Line2LineEnds(old(CurrentView()), k, m);
                         forall n :: 0 <= n < Attempts ==> !FarEnough(Attempt(c.0, c.1, draws[n]))
    {
      if |nonFig| < 2 && (figure == null || |nonFig| < 1) {
        return Ok(None);
      }
      var c := Line2LineEnds(CurrentView(), k, m);
      var a := FlingToLine(c.0, c.1, draws);
      if a.Err? {
        return Err(a.error);
      }
      if c.2 {
        linked := linked + [a.value];
      } else {
        nonFig := nonFig + [a.value];
      }
      return Ok(Some(a.value));
    }
      /** One pass of the `try` block of `add_random_line`: the pick's kind
        chooses the way of adding a line, which runs with the pick's draws.
        A line added is the one `PickAdds` describes; `TooClose` means the
        pick failed as `PickFails` describes; `Exhausted` means a side-to-side
        line ran out of candidates; `Ok(None)` is a refusal by a guard, which
        needs fewer than two other lines. Unless a line is added nothing
        changes. */
    method TryPick(o: Orientation, p: RandomPick) returns (r: Result<Option<Anchored>>)
      requires Valid() && ValidPick(o, p)
      modifies this
      ensures Valid() && figure == old(figure)
      ensures r.Err? ==> (r.error == Exhausted && PickExhausts(old(CurrentView()), o, p)) ||
                         (r.error == TooClose && PickFails(old(CurrentView()), o, p))
      ensures !(r.Ok? && r.value.Some?) ==> nonFig == old(nonFig) && linked == old(linked)
      ensures r == Ok(None) ==> |old(nonFig)| < 2
      ensures r.Ok? && r.value.Some? ==>
                var a := r.value.value;
                (Upright(frame) ==> OnOwners(a)) &&
                ((PickAdds(old(CurrentView()), o, p, a, false) && nonFig == old(nonFig) + [a] && linked == old(linked)) ||
                 (PickAdds(old(CurrentView()), o, p, a, true) && figure != null &&
                  linked == old(linked) + [a] && nonFig == old(nonFig)))
    {
      ghost var v := CurrentView();
      if p.kind % 8 < 5 {
        var a := AddSide2SideLine(o, p.cands);
        if a.Ok? {
          return Ok(Some(a.value));
        }
        return Err(a.error);
      } else if p.kind % 8 == 5 {
        r := AddLine2LineLine(p.k, p.m, p.lineDraws);
      } else {
        r := AddSide2LineLine(o, p.k, p.sideDraws);
      }
    }

    /** `add_random_line`: picks are tried in turn by `TryPick`; a pick whose
        fling fails is followed by the next one, and a refusal by a guard
        ends the call like a success. The line added is the one the first
        pick that did not fail adds, by `PickAdds`, every pick before it
        failing by `PickFails`. The answer is `Ok(None)` for a refusal, or
        `Exhausted` when the picks or the candidates of a side-to-side line
        run out, and then nothing changes. */
    method AddRandomLine(o: Orientation, picks: seq<RandomPick>) returns (r: Result<Option<Anchored>>)
      requires Valid() && ValidPicks(o, picks)
      modifies this
      ensures Valid() && figure == old(figure)
      ensures r.Err? ==> r.error == Exhausted
      ensures r.Err? ==> FailsBefore(old(CurrentView()), o, picks, |picks|) ||
                         exists n :: 0 <= n < |picks| &&
                           FailsBefore(old(CurrentView()), o, picks, n) &&
                           PickExhausts(old(CurrentView()), o, picks[n])
      ensures !(r.Ok? && r.value.Some?) ==> nonFig == old(nonFig) && linked == old(linked)
      ensures r == Ok(None) ==> |old(nonFig)| < 2
      ensures r.Ok? && r.value.Some? ==>
                var a := r.value.value;
                (Upright(frame) ==> OnOwners(a)) &&
                exists n :: 0 <= n < |picks| &&
                  FailsBefore(old(CurrentView()), o, picks, n) &&
                  ((PickAdds(old(CurrentView()), o, picks[n], a, false) &&
                    nonFig == old(nonFig) + [a] && linked == old(linked)) ||
                   (PickAdds(old(CurrentView()), o, picks[n], a, true) && figure != null &&
                    linked == old(linked) + [a] && nonFig == old(nonFig)))
    {
      ghost var v := CurrentView();
      for n := 0 to |picks|
        invariant Valid() && figure == old(figure) && nonFig == old(nonFig) && linked == old(linked)
        invariant CurrentView() == v
        invariant FailsBefore(v, o, picks, n)
      {
        r := TryPick(o, picks[n]);
        if r.Ok? || r.error == Exhausted {
          return;
        }
        FailsBeforeStep(v, o, picks, n);
      }
      return Err(Exhausted);
    }

    /** The figure's lines and the lines attached to them, each stretched to
        the frame (`get_extended_version`). */
    function ExtendedLines(): (r: seq<Anchored>)
      requires Valid() && figure != null
      reads this, Parts()
      ensures |r| == |figure.edges| + |linked|
    {
      var st := figure.State();
      var ls := linked;
      seq(|st.es|, k requires 0 <= k < |st.es| => ExtendedVersion(EdgeLine(st.vs, st.es[k]), frame)) +
      seq(|ls|, k requires 0 <= k < |ls| => ExtendedVersion(Geom(ls[k]), frame))
    }

    /** The replacing loop of `replace_figure_with_lines`: for each line
        `ext[perm[i]]` from position `from` on, a new line is added: while
        the counter is positive a line-to-line or a side-to-side line
        (with the replaced line's orientation), and the counter goes down by
        one; afterwards a random line. A failure of an addition that the
        source does not catch is passed on. Lines are only appended, at most
        one per replaced line; `guided` counts the additions made while the
        counter was positive, which on success is the smaller of the counter
        and the number of replaced lines. */
    method ReplaceRest(ext: seq<Anchored>, perm: seq<nat>, from: nat, counter: nat, reps: seq<Replacement>)
      returns (r: Result<()>, ghost guided: nat)
      requires Valid() && figure == null && linked == []
      requires from <= |perm| && (forall i :: 0 <= i < |perm| ==> perm[i] < |ext|)
      requires |reps| >= |perm| && forall i :: 0 <= i < |reps| ==> ValidReplacement(reps[i])
      modifies this
      ensures Valid() && figure == null && linked == []
      ensures |old(nonFig)| <= |nonFig| <= |old(nonFig)| + (|perm| - from)
      ensures nonFig[..|old(nonFig)|] == old(nonFig)
      ensures r.Ok? ==> guided == if counter < |perm| - from then counter else |perm| - from
    {
      var count := counter;
      guided := 0;
      for i := from to |perm|
        invariant Valid() && figure == null && linked == []
        invariant |old(nonFig)| <= |nonFig| <= |old(nonFig)| + (i - from)
        invariant nonFig[..|old(nonFig)|] == old(nonFig)
        invariant guided == (if counter < i - from then counter else i - from) && count == counter - guided
      {
        var o := OrientationOf(Geom(ext[perm[i]]));
        var rep := reps[i];
        if count > 0 {
          if rep.lineToLine {
            var a := AddLine2LineLine(rep.k, rep.m, rep.lineDraws);
            if a.Err? {
              return Err(a.error), guided;
            }
          } else {
            var a := AddSide2SideLine(o, rep.cands);
            if a.Err? {
              return Err(a.error), guided;
            }
          }
          count := count - 1;
          guided := guided + 1;
        } else {
          var a := AddRandomLine(o, rep.picks);
          if a.Err? {
            return Err(a.error), guided;
          }
        }
      }
      r := Ok(());
    }

    /** The closing loop of `replace_figure_with_lines`: every line of the
        image is extended to its parents with its pair of draws, as
        `ExtendedToParents` describes. */
    method ExtendLinesToParents(ds: seq<(real, real)>)
      requires |ds| >= |nonFig| && UnitDraws(ds)
      modifies this
      ensures figure == old(figure) && linked == old(linked) && |nonFig| == |old(nonFig)|
      ensures forall i :: 0 <= i < |nonFig| ==>
                nonFig[i] == ExtendedToParents(old(nonFig[i]), frame, ds[i].0, ds[i].1)
    {
      var ls := nonFig;
      for i := 0 to |ls|
        invariant |ls| == |nonFig|
        invariant forall j :: 0 <= j < i ==> ls[j] == ExtendedToParents(nonFig[j], frame, ds[j].0, ds[j].1)
        invariant forall j :: i <= j < |ls| ==> ls[j] == nonFig[j]
      {
        ls := ls[i := ExtendedToParents(ls[i], frame, ds[i].0, ds[i].1)];
      }
      nonFig := ls;
    }

    /** The two loops of `replace_figure_with_lines` that keep lines: the
        jiggled group and then the group left alone join the other lines. */
    method KeepGroups(ext: seq<Anchored>, d: ReplaceDraws)
      requires ValidReplaceDraws(d, |ext|, |nonFig|)
      modifies this
      ensures figure == old(figure) && linked == old(linked)
      ensures nonFig == Kept(old(nonFig), ext, d)
    {
      var sp := Split(|ext|, d.dj, d.dl);
      var jiggled := JiggleGroup(ext, d.perm, sp.0, d.jiggle);
      nonFig := nonFig + jiggled;
      nonFig := nonFig + LeftGroup(ext, d.perm, sp.0, sp.1);
    }

    /** `replace_figure_with_lines`: the figure and the lines attached to it
        are taken out, stretched to the frame; their number `n` is split by
        `Split` into a group that is jiggled and kept, a group that is kept
        as it is (`KeepGroups`), and a group that is replaced by new lines
        (`ReplaceRest`), with the counter starting at the number of extended
        figure lines. Afterwards there is no figure and no attached line, the
        other lines start with the old ones followed by the two kept groups,
        and at most one line is added per replaced line. On success every
        line is then extended to its parents, so each end lies on the line
        through its owner; a failure leaves the lines unextended. */
    method ReplaceFigureWithLines(d: ReplaceDraws) returns (r: Result<()>)
      requires Valid() && figure != null && |AllLines()| > 5
      requires ValidReplaceDraws(d, |figure.edges| + |linked|, |nonFig|)
      modifies this
      ensures Valid() && figure == null && linked == []
      ensures var ext := old(ExtendedLines());
              var kept := Kept(old(nonFig), ext, d);
              |kept| <= |nonFig| <= |old(nonFig)| + |ext| &&
              (r.Err? ==> nonFig[..|kept|] == kept) &&
              (r.Ok? ==> (forall i :: 0 <= i < |kept| ==>
                            nonFig[i] == ExtendedToParents(kept[i], frame, d.extend[i].0, d.extend[i].1)) &&
                         forall i :: 0 <= i < |nonFig| ==> OnOwners(nonFig[i]))
    {
      var ext := ExtendedLines();
      var counter := NumExtended(figure.edges);
      figure := null;
      linked := [];
      KeepGroups(ext, d);
      var sp := Split(|ext|, d.dj, d.dl);
      ghost var guided;
      r, guided := ReplaceRest(ext, d.perm, sp.0 + sp.1, counter, d.reps);
      if r.Err? {
        return;
      }
      ExtendLinesToParents(d.extend);
    }
  }
}
