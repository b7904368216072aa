/** A line of a figure. Besides its own two points it keeps a separate pair of
    extended points, which stand for its own points until the line is
    extended to the frame once; after that they lie on the frame's borders. */
module FigureLines {
  import opened Points
  import opened Lines
  import opened Frames
  import opened Clipping

  class FigureLine {
    var start: Point
    var end: Point
    var startExt: Point
    var endExt: Point
    var extended: bool

    /** Until the line is extended its extended points are its own points. */
    predicate Valid()
      reads this
    {
      !extended ==> startExt == start && endExt == end
    }

    function Geometry(): Line
      reads this
    {
      Line(start, end)
    }

    /** A new figure line is not extended, and its extended points are its own. */
    constructor(s: Point, e: Point)
      ensures Valid()
      ensures start == s && end == e && startExt == s && endExt == e && !extended
    {
      start := s;
      end := e;
      startExt := s;
      endExt := e;
      extended := false;
    }

    /** Extends the line to the frame once. A second call changes nothing and
        answers false. The first call never touches the line's own points and
        writes the extended points `get_extended_version` computes for the same
        line and frame. */
    method Extend(f: Frame) returns (ok: bool)
      requires Valid()
      modifies this
      ensures Valid()
      ensures ok == !old(extended) && extended
      ensures start == old(start) && end == old(end)
      ensures !ok ==> startExt == old(startExt) && endExt == old(endExt)
      ensures ok ==> startExt == ExtendedVersion(Geometry(), f).start &&
                     endExt == ExtendedVersion(Geometry(), f).end
    {
      if extended {
        return false;
      }
      var l := Line(start, end);
      if IsHorizontal(l) {
        endExt := At(RightX(f), endExt.y);
        startExt := At(LeftX(f), startExt.y);
      } else if IsVertical(l) {
        endExt := At(endExt.x, TopY(f));
        startExt := At(startExt.x, BottomY(f));
      } else {
        var a := Leftmost(l);
        var k := ClipSlope(l);
        endExt := ClipRightward(a, k, f).0;
        startExt := ClipLeftward(a, k, f).0;
      }
      extended := true;
      return true;
    }
  }
}
