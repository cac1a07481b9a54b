/** `Quaternion::rotate` of includes/Quaternion.hpp: the sandwich product
    q (p - c) q* of a point p about a centre c, and how it interacts with
    the algebra of the `Quaternions` module. */
module QuaternionRotation {
  import opened Scalars
  import opened Quaternions
  import Vec3

  /** The pure quaternion (0, v). */
  function Pure(v: Vec3.Vector3): Quaternion {
    Quaternion(0.0, v.x, v.y, v.z)
  }

  /** `rotate(point, center)`: the sandwich product q (p - c) q* moved back
      by the centre. */
  function Rotate(q: Quaternion, point: Vec3.Vector3, center: Vec3.Vector3): Vec3.Vector3 {
    var p := Pure(Vec3.Sub(point, center));
    var s := Mul(Mul(q, p), Conjugate(q));
    Vec3.Vector3(s.x + center.x, s.y + center.y, s.z + center.z)
  }

  /** The sandwich product of a pure quaternion is pure. */
  lemma SandwichIsPure(q: Quaternion, v: Vec3.Vector3)
    ensures Mul(Mul(q, Pure(v)), Conjugate(q)).w == 0.0
  {
  }

  /** The identity leaves every point where it is. */
  lemma RotateByIdentity(q: Quaternion, point: Vec3.Vector3, center: Vec3.Vector3)
    requires q == Identity()
    ensures Rotate(q, point, center) == point
  {
    var p := Pure(Vec3.Sub(point, center));
    assert Conjugate(q) == q;
    IdentityIsUnit(p);
    calc {
      Mul(Mul(q, p), Conjugate(q));
    ==
      Mul(Mul(Identity(), p), Identity());
    ==
      Mul(p, Identity());
    ==
      p;
    }
  }

  /** Every quaternion leaves the centre fixed. */
  lemma RotateFixesCenter(q: Quaternion, center: Vec3.Vector3)
    ensures Rotate(q, center, center) == center
  {
  }

  /** A unit quaternion keeps the distance of every point to the centre. */
  lemma RotatePreservesDistance(q: Quaternion, point: Vec3.Vector3, center: Vec3.Vector3)
    requires SquareNorm(q) == 1.0
    ensures Vec3.SquareMagnitude(Vec3.Sub(Rotate(q, point, center), center))
         == Vec3.SquareMagnitude(Vec3.Sub(point, center))
  {
    var v := Vec3.Sub(point, center);
    var p := Pure(v);
    var qp := Mul(q, p);
    var s := Mul(qp, Conjugate(q));
    SandwichIsPure(q, v);
    SquareNormMultiplicative(q, p);
    SquareNormMultiplicative(qp, Conjugate(q));
    SquareNormConjugate(q);
    assert Vec3.Sub(Rotate(q, point, center), center) == Vec3.Vector3(s.x, s.y, s.z);
    calc {
      Vec3.SquareMagnitude(Vec3.Vector3(s.x, s.y, s.z));
    ==
      SquareNorm(s);
    ==
      SquareNorm(qp) * SquareNorm(Conjugate(q));
    ==
      SquareNorm(qp) * 1.0;
    ==
      SquareNorm(q) * SquareNorm(p);
    ==
      1.0 * SquareNorm(p);
    ==
      Vec3.SquareMagnitude(v);
    }
  }

  /** Rotating by a product about a centre is rotating by the right factor,
      then by the left one, about the same centre. */
  lemma RotateComposition(a: Quaternion, b: Quaternion, point: Vec3.Vector3, center: Vec3.Vector3)
    ensures Rotate(Mul(a, b), point, center) == Rotate(a, Rotate(b, point, center), center)
  {
    var p := Pure(Vec3.Sub(point, center));
    var inner := Mul(Mul(b, p), Conjugate(b));
    SandwichIsPure(b, Vec3.Sub(point, center));
    assert Pure(Vec3.Sub(Rotate(b, point, center), center)) == inner;
    ConjugateOfProduct(a, b);
    calc {
      Mul(Mul(Mul(a, b), p), Conjugate(Mul(a, b)));
    ==
      Mul(Mul(Mul(a, b), p), Mul(Conjugate(b), Conjugate(a)));
    == { MulAssociative(a, b, p); }
      Mul(Mul(a, Mul(b, p)), Mul(Conjugate(b), Conjugate(a)));
    == { MulAssociative(Mul(a, Mul(b, p)), Conjugate(b), Conjugate(a)); }
      Mul(Mul(Mul(a, Mul(b, p)), Conjugate(b)), Conjugate(a));
    == { MulAssociative(a, Mul(b, p), Conjugate(b)); }
      Mul(Mul(a, Mul(Mul(b, p), Conjugate(b))), Conjugate(a));
    ==
      Mul(Mul(a, inner), Conjugate(a));
    }
  }

  /** For a unit quaternion the conjugate is the inverse rotation: rotating
      by q and then by its conjugate, about the same centre, returns the
      point. */
  lemma RotateRoundTrip(q: Quaternion, point: Vec3.Vector3, center: Vec3.Vector3)
    requires SquareNorm(q) == 1.0
    ensures Rotate(Conjugate(q), Rotate(q, point, center), center) == point
  {
    RotateComposition(Conjugate(q), q, point, center);
    MulConjugate(q);
    RotateByIdentity(Identity(), point, center);
  }

  /** The unit test: a quarter turn about z, (s,0,0,s) with s*s == 1/2,
      takes (1,0,0) to (0,1,0). */
  lemma RotateQuarterTurnExample(s: real)
    requires Sq(s) == 0.5
    ensures Rotate(Quaternion(s, 0.0, 0.0, s), Vec3.Vector3(1.0, 0.0, 0.0), Vec3.Zero)
         == Vec3.Vector3(0.0, 1.0, 0.0)
  {
  }

  /** Canonicalising the sign changes no rotation. */
  lemma EnforceSignKeepsRotation(q: Quaternion, point: Vec3.Vector3, center: Vec3.Vector3)
    ensures Rotate(EnforceSign(q), point, center) == Rotate(q, point, center)
  {
    if q.w < 0.0 {
      RotateNegate(q, point, center);
    }
  }

  /** q and -q rotate every point alike. */
  lemma RotateNegate(q: Quaternion, point: Vec3.Vector3, center: Vec3.Vector3)
    ensures Rotate(Negate(q), point, center) == Rotate(q, point, center)
  {
    var p := Pure(Vec3.Sub(point, center));
    var m := -1.0;
    var qc := Conjugate(q);
    var qp := Mul(q, p);
    NegateIsScale(q, m);
    NegateIsScale(qc, m);
    assert Conjugate(Negate(q)) == Negate(qc);
    calc {
      Mul(Mul(Negate(q), p), Conjugate(Negate(q)));
    ==
      Mul(Mul(Scale(q, m), p), Scale(qc, m));
    == { MulScaleLeft(q, p, m); }
      Mul(Scale(qp, m), Scale(qc, m));
    == { MulScaleLeft(qp, Scale(qc, m), m); }
      Scale(Mul(qp, Scale(qc, m)), m);
    == { MulScaleRight(qp, qc, m); }
      Scale(Scale(Mul(qp, qc), m), m);
    ==
      Mul(qp, qc);
    }
  }
}
