/** Facts about real arithmetic that the geometry needs. The solver is weak at
    non-linear real arithmetic, so each step it cannot take alone is a lemma
    here, stated over plain parameters. */
module RealArith {

  function Abs(a: real): (r: real)
    ensures r >= 0.0 && (r == a || r == -a)
  {
    if a < 0.0 then -a else a
  }

  function Min(a: real, b: real): (r: real)
    ensures r <= a && r <= b && (r == a || r == b)
  {
    if a <= b then a else b
  }

  function Max(a: real, b: real): (r: real)
    ensures r >= a && r >= b && (r == a || r == b)
  {
    if a >= b then a else b
  }

  /** `v` lies in the closed interval spanned by `a` and `b`, in either order. */
  predicate Between(v: real, a: real, b: real)
  {
    (a <= v <= b) || (b <= v <= a)
  }

  /** A copy of its argument: `a * Copy(a)` keeps the solver from rewriting a
      square into a power term that it then fails to relate to `a * a`. */
  function Copy(a: real): real { a }

  function Sq(a: real): real { a * a }

  lemma SqFacts(a: real)
    ensures Sq(a) >= 0.0
    ensures a != 0.0 ==> Sq(a) > 0.0
    ensures Sq(-a) == Sq(a)
  {
    assert Sq(a) == a * Copy(a);
    if a < 0.0 {
      MulNegNeg(a, Copy(a));
    } else if a > 0.0 {
      MulPosPos(a, Copy(a));
    }
  }

  lemma MulPosPos(a: real, b: real)
    requires a > 0.0 && b > 0.0
    ensures a * b > 0.0
  {
  }

  lemma MulNegNeg(a: real, b: real)
    requires a < 0.0 && b < 0.0
    ensures a * b > 0.0
  {
    MulPosPos(-a, -b);
  }

  /** The product `d * t` as a named term. Facts proved about `Part(d, t)`
      carry over to every caller, whatever expression it passes for `d`. */
  function Part(d: real, t: real): real { d * t }

  /** A product with a factor in [0, 1] lies between 0 and the other factor. */
  lemma MulUnit(d: real, t: real)
    requires 0.0 <= t <= 1.0
    ensures Between(Part(d, t), 0.0, d)
    ensures t == 0.0 ==> Part(d, t) == 0.0
    ensures t == 1.0 ==> Part(d, t) == d
  {
    assert Part(d, t) == d * t;
    if d >= 0.0 {
      assert d * t <= d * 1.0;
      assert d * t >= d * 0.0;
    } else {
      assert d * t >= d * 1.0;
      assert d * t <= d * 0.0;
    }
  }

  lemma PartOfZero(d: real, t: real)
    ensures d == 0.0 ==> Part(d, t) == 0.0
  {
  }

  /** Scaling two directions by the same fraction keeps their cross product. */
  lemma PartCross(dx: real, dy: real, t: real)
    ensures Part(dx, t) * dy == Part(dy, t) * dx
  {
  }

  /** A third of a run, scaled, is a third of the scaled run. */
  lemma PartThird(d: real, e: real, t: real)
    requires 3.0 * d == e
    ensures 3.0 * Part(d, t) == Part(e, t)
  {
  }

  /** Multiplying out a two-to-one blend whose parts are named. */
  lemma Thirds(x: real, a: real, b: real, c: real)
    requires 3.0 * x == 2.0 * a + b
    ensures 3.0 * (x * c) == 2.0 * (a * c) + b * c
  {
  }

  /** Multiplying out a sum whose parts are named. */
  lemma Distrib(x: real, a: real, b: real, c: real)
    requires x == a + b
    ensures x * c == a * c + b * c
  {
  }

  lemma DivMul(a: real, k: real)
    requires k != 0.0
    ensures (a / k) * k == a
  {
  }

  lemma MulSigns(a: real, b: real)
    ensures a >= 0.0 && b >= 0.0 ==> a * b >= 0.0
    ensures a <= 0.0 && b <= 0.0 ==> a * b >= 0.0
    ensures a >= 0.0 && b <= 0.0 ==> a * b <= 0.0
    ensures a <= 0.0 && b >= 0.0 ==> a * b <= 0.0
    ensures a > 0.0 && b < 0.0 ==> a * b < 0.0
    ensures a < 0.0 && b > 0.0 ==> a * b < 0.0
    ensures a < 0.0 && b < 0.0 ==> a * b > 0.0
  {
    if a > 0.0 && b < 0.0 { MulPosPos(a, -b); }
    if a < 0.0 && b > 0.0 { MulPosPos(-a, b); }
    if a < 0.0 && b < 0.0 { MulNegNeg(a, b); }
  }

  /** Multiplying by a negative number reverses a strict order. */
  lemma MulMonoNeg(a: real, b: real, k: real)
    requires k < 0.0 && a < b
    ensures a * k > b * k
  {
    MulPosPos(b - a, -k);
  }

  /** Multiplying by a positive number keeps a strict order. */
  lemma MulMonoPos(a: real, b: real, k: real)
    requires k > 0.0 && a < b
    ensures a * k < b * k
  {
    MulPosPos(b - a, k);
  }

  lemma MulZero(a: real, b: real)
    requires b == 0.0
    ensures a * b == 0.0
  {
  }

  lemma MulNonNeg(a: real, b: real)
    requires (a >= 0.0 && b >= 0.0) || (a <= 0.0 && b <= 0.0)
    ensures a * b >= 0.0
  {
    if a < 0.0 && b < 0.0 { MulNegNeg(a, b); }
  }

  lemma MulNonPos(a: real, b: real)
    requires (a >= 0.0 && b <= 0.0) || (a <= 0.0 && b >= 0.0)
    ensures a * b <= 0.0
  {
    if a > 0.0 && b < 0.0 { MulPosPos(a, -b); }
    if a < 0.0 && b > 0.0 { MulPosPos(-a, b); }
  }
}
