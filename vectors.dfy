/** Free 2D vectors. Every operator builds a new vector; nothing is mutated. */
module Vectors {
  import opened RealArith

  datatype Vector = Vector(x: real, y: real)

  const Zero := Vector(0.0, 0.0)

  /** `u + v`; adding the zero vector changes nothing. */
  function Add(u: Vector, v: Vector): (r: Vector)
    ensures v == Zero ==> r == u
  {
    Vector(u.x + v.x, u.y + v.y)
  }

  /** `u - v` is the vector that, added back to `v`, gives `u`. */
  function Sub(u: Vector, v: Vector): (r: Vector)
    ensures Add(r, v) == u
  {
    Vector(u.x - v.x, u.y - v.y)
  }

  /** `u * s`: the squared norm scales by the square of `s`. */
  function Scale(u: Vector, s: real): (r: Vector)
    ensures Norm2(r) == Sq(s) * Norm2(u)
  {
    SqMul(u.x, s);
    SqMul(u.y, s);
    Vector(u.x * s, u.y * s)
  }

  /** `u / s` undoes a scaling by `s`; a zero divisor is an error in the
      source, so it is excluded here. */
  function Div(u: Vector, s: real): (r: Vector)
    requires s != 0.0
    ensures Scale(r, s) == u
  {
    DivMul(u.x, s);
    DivMul(u.y, s);
    Vector(u.x / s, u.y / s)
  }

  /** `-u` is the additive inverse of `u`. */
  function Neg(u: Vector): (r: Vector)
    ensures Add(u, r) == Zero
  {
    Vector(-u.x, -u.y)
  }

  /** Vector equality compares the (x, y) pairs: two vectors are equal
      exactly when their difference is the zero vector. */
  predicate Same(u: Vector, v: Vector)
    ensures Same(u, v) <==> Sub(u, v) == Zero
  {
    u.x == v.x && u.y == v.y
  }

  /** Squared Euclidean norm: non-negative, and zero only for the zero vector. */
  function Norm2(u: Vector): (r: real)
    ensures r >= 0.0
    ensures r == 0.0 <==> u == Zero
  {
    SqFacts(u.x);
    SqFacts(u.y);
    Sq(u.x) + Sq(u.y)
  }

  lemma SqMul(a: real, s: real)
    ensures Sq(a * s) == Sq(s) * Sq(a)
  {
    assert Sq(a * s) == (a * s) * Copy(a * s);
  }

  /** `(u + v) - v == u`. */
  lemma AddSubCancel(u: Vector, v: Vector)
    ensures Sub(Add(u, v), v) == u
  {
  }

  /** `-u == u * -1`. */
  lemma NegIsScaleByMinusOne(u: Vector)
    ensures Neg(u) == Scale(u, -1.0)
  {
  }

  /** For a non-zero `s`, `u / s == u * (1 / s)`. */
  lemma DivIsScaleByInverse(u: Vector, s: real)
    requires s != 0.0
    ensures Div(u, s) == Scale(u, 1.0 / s)
  {
  }

  lemma SameIsEquality(u: Vector, v: Vector)
    ensures Same(u, v) <==> u == v
  {
  }
}
