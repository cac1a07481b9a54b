/** The algebra of the `Quaternion` class of includes/Quaternion.hpp: the
    Hamilton product, conjugate, sign canonicalisation and the zero-guarded
    normalisation. Modelled over `real`; the magnitude that `normalize`
    takes the square root of is a parameter constrained by a requires.
    Rotation and the static constructors live in `QuaternionRotation` and
    `QuaternionConstructors`. */
module Quaternions {
  import opened Scalars

  datatype Quaternion = Quaternion(w: real, x: real, y: real, z: real)

  /** The all-zero quaternion (not a rotation). */
  const Zero: Quaternion := Quaternion(0.0, 0.0, 0.0, 0.0)

  /** `Quaternion::identity()`; `IdentityIsUnit` states what it is for. */
  function Identity(): Quaternion {
    Quaternion(1.0, 0.0, 0.0, 0.0)
  }

  /** The default constructor builds the same quaternion as `identity()`. */
  function Default(): (r: Quaternion)
    ensures r == Identity()
  {
    Quaternion(1.0, 0.0, 0.0, 0.0)
  }

  /** `w*w + x*x + y*y + z*z`, the square of the magnitude `normalize` uses. */
  function SquareNorm(q: Quaternion): real {
    Sq(q.w) + Sq(q.x) + Sq(q.y) + Sq(q.z)
  }

  /** The squared norm is never negative, and zero only for zero. */
  lemma SquareNormZeroIff(q: Quaternion)
    ensures SquareNorm(q) >= 0.0
    ensures SquareNorm(q) == 0.0 <==> q == Zero
  {
    Squares4Vanish(q.w, q.x, q.y, q.z);
  }

  /** `operator*`: the Hamilton product, one coordinate function each. */
  function Mul(a: Quaternion, b: Quaternion): Quaternion {
    Quaternion(
      HamiltonW(a.w, a.x, a.y, a.z, b.w, b.x, b.y, b.z),
      HamiltonX(a.w, a.x, a.y, a.z, b.w, b.x, b.y, b.z),
      HamiltonY(a.w, a.x, a.y, a.z, b.w, b.x, b.y, b.z),
      HamiltonZ(a.w, a.x, a.y, a.z, b.w, b.x, b.y, b.z))
  }

  // The coordinates of the Hamilton product as functions of eight reals, so
  // that laws such as associativity become polynomial identities over plain
  // reals, one per coordinate.

  function HamiltonW(p0: real, p1: real, p2: real, p3: real, q0: real, q1: real, q2: real, q3: real): real {
    p0 * q0 - p1 * q1 - p2 * q2 - p3 * q3
  }

  function HamiltonX(p0: real, p1: real, p2: real, p3: real, q0: real, q1: real, q2: real, q3: real): real {
    p0 * q1 + p1 * q0 + p2 * q3 - p3 * q2
  }

  function HamiltonY(p0: real, p1: real, p2: real, p3: real, q0: real, q1: real, q2: real, q3: real): real {
    p0 * q2 - p1 * q3 + p2 * q0 + p3 * q1
  }

  function HamiltonZ(p0: real, p1: real, p2: real, p3: real, q0: real, q1: real, q2: real, q3: real): real {
    p0 * q3 + p1 * q2 - p2 * q1 + p3 * q0
  }

  /** `conjugate()`: keeps `w` and negates the vector part. */
  function Conjugate(q: Quaternion): Quaternion {
    Quaternion(q.w, -q.x, -q.y, -q.z)
  }

  function Negate(q: Quaternion): Quaternion {
    Quaternion(-q.w, -q.x, -q.y, -q.z)
  }

  /** Multiplication by a real scalar, componentwise. */
  function Scale(q: Quaternion, s: real): Quaternion {
    Quaternion(q.w * s, q.x * s, q.y * s, q.z * s)
  }

  // ---------- algebraic laws of the product ----------

  lemma ConjugateInvolution(q: Quaternion)
    ensures Conjugate(Conjugate(q)) == q
  {
  }

  /** Multiplying by the conjugate, on either side, leaves the real number
      |q|^2. */
  lemma MulConjugate(q: Quaternion)
    ensures Mul(q, Conjugate(q)) == Real(SquareNorm(q))
    ensures Mul(Conjugate(q), q) == Real(SquareNorm(q))
  {
  }

  /** The identity is a left and a right unit of the product. */
  lemma IdentityIsUnit(q: Quaternion)
    ensures Mul(Identity(), q) == q
    ensures Mul(q, Identity()) == q
  {
  }

  /** The identity has norm one and is its own conjugate. */
  lemma IdentityNorm()
    ensures SquareNorm(Identity()) == 1.0
    ensures Conjugate(Identity()) == Identity()
  {
  }

  /** The Hamilton product is associative, so the grouping in `rotate` is
      immaterial. */
  lemma MulAssociative(a: Quaternion, b: Quaternion, c: Quaternion)
    ensures Mul(Mul(a, b), c) == Mul(a, Mul(b, c))
  {
    var ab, bc := Mul(a, b), Mul(b, c);
    AssocCoordinateW(a.w, a.x, a.y, a.z, b.w, b.x, b.y, b.z, c.w, c.x, c.y, c.z);
    AssocCoordinateX(a.w, a.x, a.y, a.z, b.w, b.x, b.y, b.z, c.w, c.x, c.y, c.z);
    AssocCoordinateY(a.w, a.x, a.y, a.z, b.w, b.x, b.y, b.z, c.w, c.x, c.y, c.z);
    AssocCoordinateZ(a.w, a.x, a.y, a.z, b.w, b.x, b.y, b.z, c.w, c.x, c.y, c.z);
  }

  lemma AssocCoordinateW(a0: real, a1: real, a2: real, a3: real, b0: real, b1: real, b2: real, b3: real,
                          c0: real, c1: real, c2: real, c3: real)
    ensures var ab0, ab1, ab2, ab3 := HamiltonW(a0, a1, a2, a3, b0, b1, b2, b3), HamiltonX(a0, a1, a2, a3, b0, b1, b2, b3),
                                      HamiltonY(a0, a1, a2, a3, b0, b1, b2, b3), HamiltonZ(a0, a1, a2, a3, b0, b1, b2, b3);
            var bc0, bc1, bc2, bc3 := HamiltonW(b0, b1, b2, b3, c0, c1, c2, c3), HamiltonX(b0, b1, b2, b3, c0, c1, c2, c3),
                                      HamiltonY(b0, b1, b2, b3, c0, c1, c2, c3), HamiltonZ(b0, b1, b2, b3, c0, c1, c2, c3);
            HamiltonW(ab0, ab1, ab2, ab3, c0, c1, c2, c3) == HamiltonW(a0, a1, a2, a3, bc0, bc1, bc2, bc3)
  {
  }

  lemma AssocCoordinateX(a0: real, a1: real, a2: real, a3: real, b0: real, b1: real, b2: real, b3: real,
                          c0: real, c1: real, c2: real, c3: real)
    ensures var ab0, ab1, ab2, ab3 := HamiltonW(a0, a1, a2, a3, b0, b1, b2, b3), HamiltonX(a0, a1, a2, a3, b0, b1, b2, b3),
                                      HamiltonY(a0, a1, a2, a3, b0, b1, b2, b3), HamiltonZ(a0, a1, a2, a3, b0, b1, b2, b3);
            var bc0, bc1, bc2, bc3 := HamiltonW(b0, b1, b2, b3, c0, c1, c2, c3), HamiltonX(b0, b1, b2, b3, c0, c1, c2, c3),
                                      HamiltonY(b0, b1, b2, b3, c0, c1, c2, c3), HamiltonZ(b0, b1, b2, b3, c0, c1, c2, c3);
            HamiltonX(ab0, ab1, ab2, ab3, c0, c1, c2, c3) == HamiltonX(a0, a1, a2, a3, bc0, bc1, bc2, bc3)
  {
  }

  lemma AssocCoordinateY(a0: real, a1: real, a2: real, a3: real, b0: real, b1: real, b2: real, b3: real,
                          c0: real, c1: real, c2: real, c3: real)
    ensures var ab0, ab1, ab2, ab3 := HamiltonW(a0, a1, a2, a3, b0, b1, b2, b3), HamiltonX(a0, a1, a2, a3, b0, b1, b2, b3),
                                      HamiltonY(a0, a1, a2, a3, b0, b1, b2, b3), HamiltonZ(a0, a1, a2, a3, b0, b1, b2, b3);
            var bc0, bc1, bc2, bc3 := HamiltonW(b0, b1, b2, b3, c0, c1, c2, c3), HamiltonX(b0, b1, b2, b3, c0, c1, c2, c3),
                                      HamiltonY(b0, b1, b2, b3, c0, c1, c2, c3), HamiltonZ(b0, b1, b2, b3, c0, c1, c2, c3);
            HamiltonY(ab0, ab1, ab2, ab3, c0, c1, c2, c3) == HamiltonY(a0, a1, a2, a3, bc0, bc1, bc2, bc3)
  {
  }

  lemma AssocCoordinateZ(a0: real, a1: real, a2: real, a3: real, b0: real, b1: real, b2: real, b3: real,
                          c0: real, c1: real, c2: real, c3: real)
    ensures var ab0, ab1, ab2, ab3 := HamiltonW(a0, a1, a2, a3, b0, b1, b2, b3), HamiltonX(a0, a1, a2, a3, b0, b1, b2, b3),
                                      HamiltonY(a0, a1, a2, a3, b0, b1, b2, b3), HamiltonZ(a0, a1, a2, a3, b0, b1, b2, b3);
            var bc0, bc1, bc2, bc3 := HamiltonW(b0, b1, b2, b3, c0, c1, c2, c3), HamiltonX(b0, b1, b2, b3, c0, c1, c2, c3),
                                      HamiltonY(b0, b1, b2, b3, c0, c1, c2, c3), HamiltonZ(b0, b1, b2, b3, c0, c1, c2, c3);
            HamiltonZ(ab0, ab1, ab2, ab3, c0, c1, c2, c3) == HamiltonZ(a0, a1, a2, a3, bc0, bc1, bc2, bc3)
  {
  }

  /** Conjugation reverses products. */
  lemma ConjugateOfProduct(a: Quaternion, b: Quaternion)
    ensures Conjugate(Mul(a, b)) == Mul(Conjugate(b), Conjugate(a))
  {
    ReversedCoordinates(a.w, a.x, a.y, a.z, b.w, b.x, b.y, b.z);
  }

  /** The coordinate identities behind `ConjugateOfProduct`. */
  lemma ReversedCoordinates(p0: real, p1: real, p2: real, p3: real, q0: real, q1: real, q2: real, q3: real)
    ensures HamiltonW(q0, -q1, -q2, -q3, p0, -p1, -p2, -p3) == HamiltonW(p0, p1, p2, p3, q0, q1, q2, q3)
    ensures HamiltonX(q0, -q1, -q2, -q3, p0, -p1, -p2, -p3) == -HamiltonX(p0, p1, p2, p3, q0, q1, q2, q3)
    ensures HamiltonY(q0, -q1, -q2, -q3, p0, -p1, -p2, -p3) == -HamiltonY(p0, p1, p2, p3, q0, q1, q2, q3)
    ensures HamiltonZ(q0, -q1, -q2, -q3, p0, -p1, -p2, -p3) == -HamiltonZ(p0, p1, p2, p3, q0, q1, q2, q3)
  {
  }

  /** The real quaternion (k, 0, 0, 0). */
  function Real(k: real): Quaternion {
    Quaternion(k, 0.0, 0.0, 0.0)
  }

  /** A real quaternion multiplies like a scalar, on either side. */
  lemma MulReal(a: Quaternion, k: real)
    ensures Mul(Real(k), a) == Scale(a, k)
    ensures Mul(a, Real(k)) == Scale(a, k)
  {
  }

  /** Scalars move out of a product. */
  lemma MulScaleLeft(a: Quaternion, c: Quaternion, k: real)
    ensures Mul(Scale(a, k), c) == Scale(Mul(a, c), k)
  {
    var r, ac := Real(k), Mul(a, c);
    calc {
      Mul(Scale(a, k), c);
    == { MulReal(a, k); }
      Mul(Mul(r, a), c);
    == { MulAssociative(r, a, c); }
      Mul(r, ac);
    == { MulReal(ac, k); }
      Scale(ac, k);
    }
  }

  lemma MulScaleRight(a: Quaternion, c: Quaternion, k: real)
    ensures Mul(a, Scale(c, k)) == Scale(Mul(a, c), k)
  {
    var r, ac := Real(k), Mul(a, c);
    calc {
      Mul(a, Scale(c, k));
    == { MulReal(c, k); }
      Mul(a, Mul(c, r));
    == { MulAssociative(a, c, r); }
      Mul(ac, r);
    == { MulReal(ac, k); }
      Scale(ac, k);
    }
  }

  /** The norm is multiplicative (Euler's four-square identity). */
  lemma SquareNormMultiplicative(a: Quaternion, b: Quaternion)
    ensures SquareNorm(Mul(a, b)) == SquareNorm(a) * SquareNorm(b)
  {
    ProductTimesConjugate(a, b);
    RealOfScale(SquareNorm(Mul(a, b)), SquareNorm(a), SquareNorm(b));
  }

  /** The same identity as an equation between real quaternions, derived from
      |ab|^2 == (ab)(ab)* == a (b b*) a*. */
  lemma ProductTimesConjugate(a: Quaternion, b: Quaternion)
    ensures Real(SquareNorm(Mul(a, b))) == Scale(Real(SquareNorm(a)), SquareNorm(b))
  {
    var ab := Mul(a, b);
    var na, nb := SquareNorm(a), SquareNorm(b);
    MulConjugate(ab);
    MulConjugate(b);
    MulConjugate(a);
    calc {
      Real(SquareNorm(ab));
    ==
      Mul(ab, Conjugate(ab));
    == { ConjugateOfProduct(a, b); }
      Mul(ab, Mul(Conjugate(b), Conjugate(a)));
    == { MulAssociative(ab, Conjugate(b), Conjugate(a)); }
      Mul(Mul(ab, Conjugate(b)), Conjugate(a));
    == { MulAssociative(a, b, Conjugate(b)); }
      Mul(Mul(a, Mul(b, Conjugate(b))), Conjugate(a));
    ==
      Mul(Mul(a, Real(nb)), Conjugate(a));
    == { MulReal(a, nb); }
      Mul(Scale(a, nb), Conjugate(a));
    == { MulScaleLeft(a, Conjugate(a), nb); }
      Scale(Mul(a, Conjugate(a)), nb);
    ==
      Scale(Real(na), nb);
    }
  }

  /** A scaled real quaternion is the real quaternion of the product. */
  lemma RealOfScale(j: real, k: real, l: real)
    requires Real(j) == Scale(Real(k), l)
    ensures j == k * l
  {
    assert Real(j).w == Scale(Real(k), l).w;
  }

  lemma SquareNormConjugate(q: Quaternion)
    ensures SquareNorm(Conjugate(q)) == SquareNorm(q)
  {
    SqNeg(q.x);
    SqNeg(q.y);
    SqNeg(q.z);
  }

  /** The product of the unit test: (1,0,1,0) * (1,0.5,0.5,0.75). */
  lemma MulExample()
    ensures Mul(Quaternion(1.0, 0.0, 1.0, 0.0), Quaternion(1.0, 0.5, 0.5, 0.75))
         == Quaternion(0.5, 1.25, 1.5, 0.25)
  {
  }

  // ---------- enforceSign ----------

  /** `enforceSign()`: flips all four components exactly when `w` is
      negative, so that afterwards `w >= 0`; a quaternion with `w == 0` is
      kept as it is. */
  function EnforceSign(q: Quaternion): (r: Quaternion)
    ensures r.w >= 0.0
    ensures q.w < 0.0 ==> r == Negate(q)
    ensures q.w >= 0.0 ==> r == q
  {
    if q.w < 0.0 then Quaternion(-q.w, -q.x, -q.y, -q.z) else q
  }

  /** Canonicalising twice is the same as once. */
  lemma EnforceSignIdempotent(q: Quaternion)
    ensures EnforceSign(EnforceSign(q)) == EnforceSign(q)
  {
  }

  /** Canonicalising the sign keeps the norm. */
  lemma EnforceSignKeepsNorm(q: Quaternion)
    ensures SquareNorm(EnforceSign(q)) == SquareNorm(q)
  {
    SqNeg(q.w);
    SqNeg(q.x);
    SqNeg(q.y);
    SqNeg(q.z);
  }

  lemma NegateIsScale(q: Quaternion, m: real)
    requires m == -1.0
    ensures Negate(q) == Scale(q, m)
  {
  }

  // ---------- normalize / normalise ----------

  /** `normalize()`, given `m` the square root of the squared norm that the
      source computes. The result is always a unit quaternion: the zero
      quaternion becomes the identity, any other one is divided by its
      magnitude and scales back to the input. */
  function Normalize(q: Quaternion, m: real): (r: Quaternion)
    requires IsRoot(m, SquareNorm(q))
    ensures q == Zero ==> r == Identity()
    ensures q != Zero ==> SquareNorm(r) == 1.0 && Scale(r, m) == q
  {
    RootIsZeroIff(m, SquareNorm(q));
    SquareNormZeroIff(q);
    if m == 0.0 then Identity()
    else
      UnitAfterDivision(q, m);
      Quaternion(q.w / m, q.x / m, q.y / m, q.z / m)
  }

  /** `normalise()`: the British spelling, which the library defines as a
      second copy of `normalize()` with the same body. */
  function Normalise(q: Quaternion, m: real): (r: Quaternion)
    requires IsRoot(m, SquareNorm(q))
    ensures q == Zero ==> r == Identity()
    ensures q != Zero ==> SquareNorm(r) == 1.0 && Scale(r, m) == q
  {
    RootIsZeroIff(m, SquareNorm(q));
    SquareNormZeroIff(q);
    if m == 0.0 then Identity()
    else
      UnitAfterDivision(q, m);
      Quaternion(q.w / m, q.x / m, q.y / m, q.z / m)
  }

  /** Either way, the result of `normalize` is a unit quaternion. */
  lemma NormalizeIsUnit(q: Quaternion, m: real)
    requires IsRoot(m, SquareNorm(q))
    ensures SquareNorm(Normalize(q, m)) == 1.0
  {
    if q == Zero {
      IdentityNorm();
    }
  }

  lemma NormalizeNormaliseAgree(q: Quaternion, m: real)
    requires IsRoot(m, SquareNorm(q))
    ensures Normalize(q, m) == Normalise(q, m)
  {
  }

  /** Dividing by the magnitude gives a unit quaternion that scales back. */
  lemma UnitAfterDivision(q: Quaternion, m: real)
    requires IsRoot(m, SquareNorm(q)) && m != 0.0
    ensures SquareNorm(Quaternion(q.w / m, q.x / m, q.y / m, q.z / m)) == 1.0
    ensures Scale(Quaternion(q.w / m, q.x / m, q.y / m, q.z / m), m) == q
  {
    QuotientTimes(q.w, m);
    QuotientTimes(q.x, m);
    QuotientTimes(q.y, m);
    QuotientTimes(q.z, m);
    UnitQuotient4(q.w, q.x, q.y, q.z, m);
  }

  /** The unit test: (0,3,0,4) has magnitude 5 and becomes (0,0.6,0,0.8). */
  lemma NormalizeExample()
    ensures Normalize(Quaternion(0.0, 3.0, 0.0, 4.0), 5.0) == Quaternion(0.0, 0.6, 0.0, 0.8)
  {
    assert SquareNorm(Quaternion(0.0, 3.0, 0.0, 4.0)) == Sq(0.0) + Sq(3.0) + Sq(0.0) + Sq(4.0) == 25.0;
  }
}
