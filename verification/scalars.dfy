/** Scalar helpers shared by the vector, quaternion and shape modules.

    The library computes over `float`/`double`; this model computes over `real`.
    Square roots are not computed: where the library calls `std::sqrt(m)`, the
    model takes the root as a parameter `s` constrained by `IsRoot(s, m)`. */
module Scalars {

  /** `a * a`, named so that squares stay recognisable inside larger products. */
  function Sq(a: real): real {
    a * a
  }

  /** `s` is the non-negative square root of `m`. */
  predicate IsRoot(s: real, m: real) {
    s >= 0.0 && Sq(s) == m
  }

  /** Real absolute value (the `abs`/`std::abs` of the shape predicates). */
  function Abs(a: real): (r: real)
    ensures r >= 0.0
    ensures r == a || r == -a
  {
    if a < 0.0 then -a else a
  }

  lemma MulPos(a: real, b: real)
    requires a > 0.0 && b > 0.0
    ensures a * b > 0.0
  {
  }

  /** A non-zero square is positive. */
  lemma SquarePos(s: real)
    requires s != 0.0
    ensures Sq(s) > 0.0
  {
    if s > 0.0 {
      calc {
        Sq(s);
      ==
        s * s;
      > { MulPos(s, s); }
        0.0;
      }
    } else {
      calc {
        Sq(s);
      ==
        (-s) * (-s);
      > { MulPos(-s, -s); }
        0.0;
      }
    }
  }

  lemma SquareNonNeg(a: real)
    ensures Sq(a) >= 0.0
  {
    if a != 0.0 {
      SquarePos(a);
    }
  }

  /** A root is zero exactly when its square is zero. */
  lemma RootIsZeroIff(s: real, m: real)
    requires IsRoot(s, m)
    ensures s == 0.0 <==> m == 0.0
  {
    if s != 0.0 {
      SquarePos(s);
    }
  }

  /** A sum of three squares is non-negative. */
  lemma SumOfSquares3NonNeg(a: real, b: real, c: real)
    ensures Sq(a) + Sq(b) + Sq(c) >= 0.0
  {
    SquareNonNeg(a);
    SquareNonNeg(b);
    SquareNonNeg(c);
  }

  lemma SumOfSquares2NonNeg(a: real, b: real)
    ensures Sq(a) + Sq(b) >= 0.0
  {
    SquareNonNeg(a);
    SquareNonNeg(b);
  }

  lemma SumOfSquares4NonNeg(a: real, b: real, c: real, d: real)
    ensures Sq(a) + Sq(b) + Sq(c) + Sq(d) >= 0.0
  {
    SumOfSquares3NonNeg(a, b, c);
    SquareNonNeg(d);
  }

  /** A sum of three squares is non-negative, and positive unless every term is zero. */
  lemma Squares3Vanish(a: real, b: real, c: real)
    ensures Sq(a) + Sq(b) + Sq(c) >= 0.0
    ensures a != 0.0 || b != 0.0 || c != 0.0 ==> Sq(a) + Sq(b) + Sq(c) > 0.0
  {
    SquareNonNeg(a);
    SquareNonNeg(b);
    SquareNonNeg(c);
    if a != 0.0 { SquarePos(a); }
    if b != 0.0 { SquarePos(b); }
    if c != 0.0 { SquarePos(c); }
  }

  /** A sum of four squares is non-negative, and positive unless every term is zero. */
  lemma Squares4Vanish(a: real, b: real, c: real, d: real)
    ensures Sq(a) + Sq(b) + Sq(c) + Sq(d) >= 0.0
    ensures a != 0.0 || b != 0.0 || c != 0.0 || d != 0.0 ==> Sq(a) + Sq(b) + Sq(c) + Sq(d) > 0.0
  {
    Squares3Vanish(a, b, c);
    SquareNonNeg(d);
    if d != 0.0 { SquarePos(d); }
  }

  lemma MulDivCancel(k: real, l: real)
    requires l != 0.0
    ensures (k * l) / l == k
  {
  }

  /** A factor that leaves a non-zero number unchanged is one. */
  lemma UnitFactor(k: real, l: real)
    requires l != 0.0 && k * l == l
    ensures k == 1.0
  {
    calc {
      k;
    == { MulDivCancel(k, l); }
      (k * l) / l;
    ==
      l / l;
    ==
      1.0;
    }
  }

  /** Squaring commutes with division by a non-zero number. */
  lemma SqOfQuotient(a: real, s: real)
    requires s != 0.0
    ensures Sq(a / s) * Sq(s) == Sq(a)
  {
    var q := a / s;
    assert q * s == a;
    calc {
      Sq(q) * Sq(s);
      (q * q) * (s * s);
      (q * s) * (q * s);
      a * a;
    }
  }

  /** Dividing each term of a sum of squares by the root of that sum leaves
      squares summing to one (the two-, three- and four-term cases). */
  lemma UnitQuotient4(w: real, x: real, y: real, z: real, m: real)
    requires m != 0.0 && Sq(w) + Sq(x) + Sq(y) + Sq(z) == Sq(m)
    ensures Sq(w / m) + Sq(x / m) + Sq(y / m) + Sq(z / m) == 1.0
  {
    SqOfQuotient(w, m);
    SqOfQuotient(x, m);
    SqOfQuotient(y, m);
    SqOfQuotient(z, m);
    calc {
      (Sq(w / m) + Sq(x / m) + Sq(y / m) + Sq(z / m)) * Sq(m);
    ==
      Sq(w / m) * Sq(m) + Sq(x / m) * Sq(m) + Sq(y / m) * Sq(m) + Sq(z / m) * Sq(m);
    ==
      Sq(w) + Sq(x) + Sq(y) + Sq(z);
    ==
      Sq(m);
    }
    SquarePos(m);
    UnitFactor(Sq(w / m) + Sq(x / m) + Sq(y / m) + Sq(z / m), Sq(m));
  }

  lemma UnitQuotient3(x: real, y: real, z: real, m: real)
    requires m != 0.0 && Sq(x) + Sq(y) + Sq(z) == Sq(m)
    ensures Sq(x / m) + Sq(y / m) + Sq(z / m) == 1.0
  {
    SqOfQuotient(x, m);
    SqOfQuotient(y, m);
    SqOfQuotient(z, m);
    calc {
      (Sq(x / m) + Sq(y / m) + Sq(z / m)) * Sq(m);
    ==
      Sq(x / m) * Sq(m) + Sq(y / m) * Sq(m) + Sq(z / m) * Sq(m);
    ==
      Sq(x) + Sq(y) + Sq(z);
    ==
      Sq(m);
    }
    SquarePos(m);
    UnitFactor(Sq(x / m) + Sq(y / m) + Sq(z / m), Sq(m));
  }

  lemma UnitQuotient2(x: real, y: real, m: real)
    requires m != 0.0 && Sq(x) + Sq(y) == Sq(m)
    ensures Sq(x / m) + Sq(y / m) == 1.0
  {
    SqOfQuotient(x, m);
    SqOfQuotient(y, m);
    calc {
      (Sq(x / m) + Sq(y / m)) * Sq(m);
    ==
      Sq(x / m) * Sq(m) + Sq(y / m) * Sq(m);
    ==
      Sq(x) + Sq(y);
    ==
      Sq(m);
    }
    SquarePos(m);
    UnitFactor(Sq(x / m) + Sq(y / m), Sq(m));
  }

  /** Division by a non-zero number is undone by multiplication. */
  lemma QuotientTimes(a: real, s: real)
    requires s != 0.0
    ensures (a / s) * s == a
  {
  }

  /** The absolute value of a sum of three terms is at most the sum of their
      absolute values. */
  lemma AbsSum3(a: real, b: real, c: real)
    ensures Abs(a + b + c) <= Abs(a) + Abs(b) + Abs(c)
  {
  }

  /** When one term opposes the sign of a three-term sum, the sum of the
      absolute values exceeds the absolute sum by twice that term's size. */
  lemma AbsSum3Opposed(a: real, b: real, c: real)
    requires (a <= 0.0 && a + b + c >= 0.0) || (a >= 0.0 && a + b + c <= 0.0)
    ensures Abs(a) + Abs(b) + Abs(c) >= Abs(a + b + c) + 2.0 * Abs(a)
  {
  }

  lemma AbsNeg(a: real)
    ensures Abs(-a) == Abs(a)
  {
  }

  lemma MulNonNeg(a: real, b: real)
    requires a >= 0.0 && b >= 0.0
    ensures a * b >= 0.0
  {
    if a > 0.0 && b > 0.0 {
      MulPos(a, b);
    }
  }

  /** A non-negative factor comes out of an absolute value unchanged. */
  lemma AbsScale(l: real, d: real)
    requires l >= 0.0
    ensures Abs(l * d) == l * Abs(d)
  {
    if d >= 0.0 {
      MulNonNeg(l, d);
    } else {
      MulNonNeg(l, -d);
      assert l * (-d) == -(l * d);
    }
  }

  /** A positive factor times a negative one is negative. */
  lemma MulPosNeg(a: real, b: real)
    requires a > 0.0 && b < 0.0
    ensures a * b < 0.0
  {
    MulPos(a, -b);
    assert a * (-b) == -(a * b);
  }

  /** A factor that is zero annihilates the product. */
  lemma MulZero(z: real, c: real)
    requires z == 0.0
    ensures z * c == 0.0
  {
  }

  lemma SqNeg(a: real)
    ensures Sq(-a) == Sq(a)
  {
    calc {
      Sq(-a);
    ==
      (-a) * (-a);
    ==
      a * a;
    }
  }

  /** The root of a product with a zero factor is zero. */
  lemma RootOfVanishingProduct(s: real, a: real, b: real)
    requires a == 0.0 || b == 0.0
    requires IsRoot(s, a * b)
    ensures s == 0.0
  {
    if a == 0.0 {
      MulZero(a, b);
    } else {
      MulZero(b, a);
    }
    RootIsZeroIff(s, a * b);
  }

  lemma SqOfSum(a: real, b: real)
    ensures Sq(a + b) == Sq(a) + 2.0 * a * b + Sq(b)
  {
  }

  /** Squaring is strictly increasing on the non-negative reals. */
  lemma SqMonotone(a: real, b: real)
    requires 0.0 <= a < b
    ensures Sq(a) < Sq(b)
  {
    var diff, sum := b - a, b + a;
    MulPos(diff, sum);
    calc {
      Sq(b) - Sq(a);
    ==
      b * b - a * a;
    ==
      diff * sum;
    >
      0.0;
    }
  }

  /** A root whose square exceeds Sq(d) by a non-negative amount dominates
      |d|: both n + d and n - d are non-negative. */
  lemma RootDominates(n: real, d: real, e: real)
    requires n >= 0.0 && e >= 0.0 && Sq(n) == e + Sq(d)
    ensures n + d >= 0.0 && n - d >= 0.0
  {
    if n + d < 0.0 {
      SqMonotone(n, -d);
      SqNeg(d);
    }
    if n - d < 0.0 {
      SqMonotone(n, d);
    }
  }
}
