/** Points in the plane. A point carries the one-shot `grown` flag that records
    that a line has already been grown from it. */
module Points {
  import opened RealArith

  datatype Point = Point(x: real, y: real, grown: bool)

  /** A freshly built point: nothing has been grown from it yet. */
  function At(x: real, y: real): (r: Point)
    ensures r.x == x && r.y == y && !r.grown
  {
    Point(x, y, false)
  }

  /** Point equality compares the coordinates only; `grown` plays no part:
      two points are equal exactly when they differ at most in that flag. */
  predicate Same(p: Point, q: Point)
    ensures Same(p, q) <==> p.(grown := q.grown) == q
  {
    p.x == q.x && p.y == q.y
  }

  /** `p + q` is a fresh point; adding the origin keeps the position. */
  function Plus(p: Point, q: Point): (r: Point)
    ensures !r.grown && (Same(q, At(0.0, 0.0)) ==> Same(r, p))
  {
    At(p.x + q.x, p.y + q.y)
  }

  /** `p - q` is a fresh point that, added back to `q`, gives `p`. */
  function Minus(p: Point, q: Point): (r: Point)
    ensures Same(Plus(r, q), p) && !r.grown
  {
    At(p.x - q.x, p.y - q.y)
  }

  /** `p / s`: a fresh point that, scaled back by `s`, gives `p`. */
  function DivBy(p: Point, s: real): (r: Point)
    requires s != 0.0
    ensures r.x * s == p.x && r.y * s == p.y && !r.grown
  {
    DivMul(p.x, s);
    DivMul(p.y, s);
    At(p.x / s, p.y / s)
  }

  /** The point moved by `(dx, dy)`: its displacement from `p` is exactly
      `(dx, dy)`, and the `grown` flag travels with it. */
  function Shifted(p: Point, dx: real, dy: real): (r: Point)
    ensures Same(Minus(r, p), At(dx, dy))
    ensures r.grown == p.grown
  {
    Point(p.x + dx, p.y + dy, p.grown)
  }

  /** Squared Euclidean distance (the source's `dist`, squared). */
  function Dist2(p: Point, q: Point): (r: real)
    ensures r >= 0.0
    ensures r == 0.0 <==> Same(p, q)
  {
    SqFacts(p.x - q.x);
    SqFacts(p.y - q.y);
    Sq(p.x - q.x) + Sq(p.y - q.y)
  }

  lemma Dist2Symmetric(p: Point, q: Point)
    ensures Dist2(p, q) == Dist2(q, p)
  {
    SqFacts(p.x - q.x);
    SqFacts(p.y - q.y);
    assert q.x - p.x == -(p.x - q.x);
    assert q.y - p.y == -(p.y - q.y);
  }

  /** `(p + q) - q == p`. */
  lemma PlusMinusCancel(p: Point, q: Point)
    ensures Same(Minus(Plus(p, q), q), p)
  {
  }

  /** `p - p` is the origin. */
  lemma MinusSelfIsOrigin(p: Point)
    ensures Same(Minus(p, p), At(0.0, 0.0))
  {
  }

  /** Equality of points is equality of coordinate pairs. */
  lemma SameIgnoresGrown(p: Point, q: Point)
    ensures Same(p, q) <==> (p.x, p.y) == (q.x, q.y)
    ensures Same(p, q) <==> p.(grown := q.grown) == q
  {
  }
}
