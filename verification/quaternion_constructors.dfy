/** The static constructors of includes/Quaternion.hpp: `fromVectors`,
    `fromAxisAngle` and `fromEulerAngles`. Square roots, sines and cosines
    are parameters constrained by requires. */
module QuaternionConstructors {
  import opened Scalars
  import opened Quaternions
  import Vec3

  /** `fromVectors(v1, v2)` from the point where `u1` and `u2` are the
      normalised inputs, with `n` the square root the general branch takes
      of |u1|^2 |u2|^2. The three branches are described by
      `FromVectorsParallel`, `FromVectorsOpposite` and `FromVectorsGeneral`. */
  function FromVectors(u1: Vec3.Vector3, u2: Vec3.Vector3, n: real): Quaternion
    requires IsRoot(n, Vec3.SquareMagnitude(u1) * Vec3.SquareMagnitude(u2))
  {
    var dot := Vec3.Dot(u1, u2);
    if dot > 0.999999 then Quaternion(1.0, 0.0, 0.0, 0.0)
    else if dot < -0.999999 then
      var axis := HalfTurnAxis(u1);
      Quaternion(0.0, axis.x, axis.y, axis.z)
    else
      var axis := Vec3.Cross(u1, u2);
      Quaternion(n + dot, axis.x, axis.y, axis.z)
  }

  /** Nearly parallel inputs give the identity rotation. */
  lemma FromVectorsParallel(u1: Vec3.Vector3, u2: Vec3.Vector3, n: real)
    requires IsRoot(n, Vec3.SquareMagnitude(u1) * Vec3.SquareMagnitude(u2))
    requires Vec3.Dot(u1, u2) > 0.999999
    ensures FromVectors(u1, u2, n) == Identity()
  {
  }

  /** Nearly opposite inputs give a half turn (w == 0) about an axis
      orthogonal to `u1`, which is non-zero whenever `u1` is. */
  lemma FromVectorsOpposite(u1: Vec3.Vector3, u2: Vec3.Vector3, n: real)
    requires IsRoot(n, Vec3.SquareMagnitude(u1) * Vec3.SquareMagnitude(u2))
    requires Vec3.Dot(u1, u2) < -0.999999
    ensures FromVectors(u1, u2, n).w == 0.0
    ensures Vec3.Dot(u1, VectorPart(FromVectors(u1, u2, n))) == 0.0
    ensures u1 != Vec3.Zero ==> VectorPart(FromVectors(u1, u2, n)) != Vec3.Zero
  {
    var r := FromVectors(u1, u2, n);
    assert VectorPart(r) == HalfTurnAxis(u1);
    HalfTurnAxisOrthogonal(u1);
  }

  /** Otherwise the vector part is orthogonal to both inputs, w is never
      negative (n dominates |u1.u2|), and the squared norm is 2n(n + u1.u2),
      so normalising the result yields the rotation by the angle between
      the inputs. */
  lemma FromVectorsGeneral(u1: Vec3.Vector3, u2: Vec3.Vector3, n: real)
    requires IsRoot(n, Vec3.SquareMagnitude(u1) * Vec3.SquareMagnitude(u2))
    requires -0.999999 <= Vec3.Dot(u1, u2) <= 0.999999
    ensures Vec3.Dot(u1, VectorPart(FromVectors(u1, u2, n))) == 0.0
    ensures Vec3.Dot(u2, VectorPart(FromVectors(u1, u2, n))) == 0.0
    ensures FromVectors(u1, u2, n).w >= 0.0
    ensures SquareNorm(FromVectors(u1, u2, n)) == 2.0 * n * (n + Vec3.Dot(u1, u2))
  {
    var r := FromVectors(u1, u2, n);
    var d, c := Vec3.Dot(u1, u2), Vec3.Cross(u1, u2);
    assert r.w == n + d && VectorPart(r) == c;
    Vec3.CrossOrthogonal(u1, u2);
    Vec3.CrossLagrange(u1, u2);
    RootDominates(n, d, Vec3.SquareMagnitude(c));
    HalfwayNorm(n, d, Vec3.SquareMagnitude(c), r.w, r.x, r.y, r.z);
  }

  /** The norm identity behind the general branch: with w == n + d and
      n^2 == e + d^2, where e is the square of the vector part,
      |(w, x, y, z)|^2 == 2n(n + d). */
  lemma HalfwayNorm(n: real, d: real, e: real, w: real, x: real, y: real, z: real)
    requires w == n + d && e == Sq(x) + Sq(y) + Sq(z) && Sq(n) == e + Sq(d)
    ensures Sq(w) + Sq(x) + Sq(y) + Sq(z) == 2.0 * n * (n + d)
  {
    calc {
      Sq(w) + Sq(x) + Sq(y) + Sq(z);
    ==
      Sq(n + d) + e;
    == { SqOfSum(n, d); }
      Sq(n) + 2.0 * n * d + Sq(d) + e;
    ==
      2.0 * Sq(n) + 2.0 * n * d;
    ==
      2.0 * n * (n + d);
    }
  }

  function VectorPart(q: Quaternion): Vec3.Vector3 {
    Vec3.Vector3(q.x, q.y, q.z)
  }

  /** The antiparallel branch's axis: (1,0,0) x u, or (0,1,0) x u when the
      first is zero, with the two cross products written out
      (`HalfTurnAxisIsCross`). It is non-zero whenever `u` is, and
      orthogonal to `u` (`HalfTurnAxisOrthogonal`). */
  function HalfTurnAxis(u: Vec3.Vector3): (r: Vec3.Vector3)
    ensures u != Vec3.Zero ==> r != Vec3.Zero
  {
    var axis := Vec3.Vector3(0.0, -u.z, u.y);
    if axis.x == 0.0 && axis.y == 0.0 && axis.z == 0.0 then Vec3.Vector3(u.z, 0.0, -u.x) else axis
  }

  /** The axis is the source's cross product with (1,0,0), falling back to
      the one with (0,1,0). */
  lemma HalfTurnAxisIsCross(e1: Vec3.Vector3, e2: Vec3.Vector3, u: Vec3.Vector3)
    requires e1 == Vec3.Vector3(1.0, 0.0, 0.0) && e2 == Vec3.Vector3(0.0, 1.0, 0.0)
    ensures HalfTurnAxis(u) == if Vec3.Cross(e1, u) == Vec3.Zero then Vec3.Cross(e2, u) else Vec3.Cross(e1, u)
  {
    CrossWithAxes(e1, e2, u);
  }

  lemma HalfTurnAxisOrthogonal(u: Vec3.Vector3)
    ensures Vec3.Dot(u, HalfTurnAxis(u)) == 0.0
  {
    var e1, e2 := Vec3.Vector3(1.0, 0.0, 0.0), Vec3.Vector3(0.0, 1.0, 0.0);
    HalfTurnAxisIsCross(e1, e2, u);
    Vec3.CrossOrthogonal(e1, u);
    Vec3.CrossOrthogonal(e2, u);
  }

  /** The two candidate axes, written out. */
  lemma CrossWithAxes(e1: Vec3.Vector3, e2: Vec3.Vector3, u: Vec3.Vector3)
    requires e1 == Vec3.Vector3(1.0, 0.0, 0.0) && e2 == Vec3.Vector3(0.0, 1.0, 0.0)
    ensures Vec3.Cross(e1, u) == Vec3.Vector3(0.0, -u.z, u.y)
    ensures Vec3.Cross(e2, u) == Vec3.Vector3(u.z, 0.0, -u.x)
  {
  }

  /** A zero input (whose normalisation is the zero vector) makes the
      general branch return the zero quaternion. */
  lemma FromVectorsZeroInput(u1: Vec3.Vector3, u2: Vec3.Vector3, n: real)
    requires u1 == Vec3.Zero || u2 == Vec3.Zero
    requires IsRoot(n, Vec3.SquareMagnitude(u1) * Vec3.SquareMagnitude(u2))
    ensures FromVectors(u1, u2, n) == Zero
  {
    ZeroInputRoot(u1, u2, n);
    ZeroInputProducts(u1, u2);
    FromVectorsAllZero(u1, u2, n);
  }

  lemma ZeroInputRoot(u1: Vec3.Vector3, u2: Vec3.Vector3, n: real)
    requires u1 == Vec3.Zero || u2 == Vec3.Zero
    requires IsRoot(n, Vec3.SquareMagnitude(u1) * Vec3.SquareMagnitude(u2))
    ensures n == 0.0
  {
    Vec3.SquareMagnitudeZeroIff(u1);
    Vec3.SquareMagnitudeZeroIff(u2);
    RootOfVanishingProduct(n, Vec3.SquareMagnitude(u1), Vec3.SquareMagnitude(u2));
  }

  lemma ZeroInputProducts(u1: Vec3.Vector3, u2: Vec3.Vector3)
    requires u1 == Vec3.Zero || u2 == Vec3.Zero
    ensures Vec3.Dot(u1, u2) == 0.0 && Vec3.Cross(u1, u2) == Vec3.Zero
  {
    Vec3.DotWithZero(u1, u2);
    Vec3.CrossWithZero(u1, u2);
  }

  lemma FromVectorsAllZero(u1: Vec3.Vector3, u2: Vec3.Vector3, n: real)
    requires IsRoot(n, Vec3.SquareMagnitude(u1) * Vec3.SquareMagnitude(u2))
    requires n == 0.0 && Vec3.Dot(u1, u2) == 0.0 && Vec3.Cross(u1, u2) == Vec3.Zero
    ensures FromVectors(u1, u2, n) == Zero
  {
    FromVectorsGeneralValue(u1, u2, n);
  }

  /** The general branch, written out. */
  lemma FromVectorsGeneralValue(u1: Vec3.Vector3, u2: Vec3.Vector3, n: real)
    requires IsRoot(n, Vec3.SquareMagnitude(u1) * Vec3.SquareMagnitude(u2))
    requires -0.999999 <= Vec3.Dot(u1, u2) <= 0.999999
    ensures var c := Vec3.Cross(u1, u2);
            FromVectors(u1, u2, n) == Quaternion(n + Vec3.Dot(u1, u2), c.x, c.y, c.z)
  {
  }

  /** The unit test: (1,0,0) to itself gives the identity. */
  lemma FromVectorsParallelExample(u: Vec3.Vector3, n: real)
    requires u == Vec3.Vector3(1.0, 0.0, 0.0)
    requires IsRoot(n, Vec3.SquareMagnitude(u) * Vec3.SquareMagnitude(u))
    ensures FromVectors(u, u, n) == Identity()
  {
    UnitXValues(u);
  }

  /** The unit test: (1,0,0) to (-1,0,0) gives the half turn about
      (0,0,-1). */
  lemma FromVectorsOppositeExample(u: Vec3.Vector3, v: Vec3.Vector3, n: real)
    requires u == Vec3.Vector3(1.0, 0.0, 0.0) && v == Vec3.Negate(u)
    requires IsRoot(n, Vec3.SquareMagnitude(u) * Vec3.SquareMagnitude(v))
    ensures FromVectors(u, v, n) == Quaternion(0.0, 0.0, 0.0, -1.0)
  {
    UnitXValues(u);
    FromVectorsOppositeValue(u, v, n);
  }

  /** For an input on the x axis the first cross product vanishes and the
      fallback axis is used; it lies on the z axis. */
  lemma HalfTurnAxisOnXAxis(u: Vec3.Vector3)
    requires u.y == 0.0 && u.z == 0.0
    ensures HalfTurnAxis(u) == Vec3.Vector3(0.0, 0.0, -u.x)
  {
  }

  /** That fallback axis is as long as the input, so a unit input such as
      the test's (1,0,0) gets a unit axis. */
  lemma HalfTurnAxisOnXAxisLength(u: Vec3.Vector3)
    requires u.y == 0.0 && u.z == 0.0
    ensures Vec3.SquareMagnitude(HalfTurnAxis(u)) == Vec3.SquareMagnitude(u)
  {
    var a := HalfTurnAxis(u);
    HalfTurnAxisOnXAxis(u);
    calc {
      Vec3.SquareMagnitude(a);
    == { SquareMagnitudeOnZAxis(a); }
      Sq(a.z);
    == { SqNeg(u.x); }
      Sq(u.x);
    == { SquareMagnitudeOnXAxis(u); }
      Vec3.SquareMagnitude(u);
    }
  }

  lemma SquareMagnitudeOnXAxis(v: Vec3.Vector3)
    requires v.y == 0.0 && v.z == 0.0
    ensures Vec3.SquareMagnitude(v) == Sq(v.x)
  {
    MulZero(v.y, v.y);
    MulZero(v.z, v.z);
  }

  lemma SquareMagnitudeOnZAxis(v: Vec3.Vector3)
    requires v.x == 0.0 && v.y == 0.0
    ensures Vec3.SquareMagnitude(v) == Sq(v.z)
  {
    MulZero(v.x, v.x);
    MulZero(v.y, v.y);
  }

  /** The antiparallel branch, written out. */
  lemma FromVectorsOppositeValue(u1: Vec3.Vector3, u2: Vec3.Vector3, n: real)
    requires IsRoot(n, Vec3.SquareMagnitude(u1) * Vec3.SquareMagnitude(u2))
    requires Vec3.Dot(u1, u2) < -0.999999
    ensures var a := HalfTurnAxis(u1);
            FromVectors(u1, u2, n) == Quaternion(0.0, a.x, a.y, a.z)
  {
  }

  /** The products the two examples need, on the unit vector (1,0,0). */
  lemma UnitXValues(u: Vec3.Vector3)
    requires u == Vec3.Vector3(1.0, 0.0, 0.0)
    ensures Vec3.Dot(u, u) == 1.0
    ensures Vec3.Dot(u, Vec3.Negate(u)) == -1.0
  {
  }

  // ---------- trigonometric constructors ----------

  /** `fromAxisAngle(angle, axis)`, given `c` and `s` the cosine and sine of
      half the angle. The squared norm is c^2 + s^2 |axis|^2, so a unit axis
      gives a unit quaternion. */
  function FromAxisAngle(axis: Vec3.Vector3, c: real, s: real): (r: Quaternion)
    requires Sq(c) + Sq(s) == 1.0
    ensures SquareNorm(r) == Sq(c) + Sq(s) * Vec3.SquareMagnitude(axis)
    ensures Vec3.SquareMagnitude(axis) == 1.0 ==> SquareNorm(r) == 1.0
  {
    Quaternion(c, axis.x * s, axis.y * s, axis.z * s)
  }

  /** The quaternion of a rotation about one coordinate axis. */
  function AxisTurn(axisIndex: nat, c: real, s: real): Quaternion
    requires axisIndex < 3
  {
    if axisIndex == 0 then Quaternion(c, s, 0.0, 0.0)
    else if axisIndex == 1 then Quaternion(c, 0.0, s, 0.0)
    else Quaternion(c, 0.0, 0.0, s)
  }

  /** `fromEulerAngles(x, y, z)`, given the cosine and sine of each half
      angle. The result is the product qz * qy * qx of the three axis turns:
      the x turn acts first and the z turn last. It is a unit quaternion. */
  function FromEulerAngles(cx: real, sx: real, cy: real, sy: real, cz: real, sz: real): (r: Quaternion)
    requires Sq(cx) + Sq(sx) == 1.0 && Sq(cy) + Sq(sy) == 1.0 && Sq(cz) + Sq(sz) == 1.0
    ensures r == Mul(Mul(AxisTurn(2, cz, sz), AxisTurn(1, cy, sy)), AxisTurn(0, cx, sx))
    ensures SquareNorm(r) == 1.0
  {
    EulerIsProduct(cx, sx, cy, sy, cz, sz);
    Quaternion(
      cx * cy * cz + sx * sy * sz,
      sx * cy * cz - cx * sy * sz,
      cx * sy * cz + sx * cy * sz,
      cx * cy * sz - sx * sy * cz)
  }

  lemma EulerIsProduct(cx: real, sx: real, cy: real, sy: real, cz: real, sz: real)
    requires Sq(cx) + Sq(sx) == 1.0 && Sq(cy) + Sq(sy) == 1.0 && Sq(cz) + Sq(sz) == 1.0
    ensures var q := Quaternion(cx * cy * cz + sx * sy * sz, sx * cy * cz - cx * sy * sz,
                                cx * sy * cz + sx * cy * sz, cx * cy * sz - sx * sy * cz);
            q == Mul(Mul(AxisTurn(2, cz, sz), AxisTurn(1, cy, sy)), AxisTurn(0, cx, sx)) &&
            SquareNorm(q) == 1.0
  {
    var qz, qy, qx := AxisTurn(2, cz, sz), AxisTurn(1, cy, sy), AxisTurn(0, cx, sx);
    var zy := Mul(qz, qy);
    TurnZThenY(cy, sy, cz, sz);
    TurnZYThenX(cx, sx, cy, sy, cz, sz);
    assert SquareNorm(qz) == Sq(cz) + Sq(sz);
    assert SquareNorm(qy) == Sq(cy) + Sq(sy);
    assert SquareNorm(qx) == Sq(cx) + Sq(sx);
    SquareNormMultiplicative(qz, qy);
    SquareNormMultiplicative(zy, qx);
    calc {
      SquareNorm(Mul(zy, qx));
    ==
      SquareNorm(zy) * SquareNorm(qx);
    ==
      (SquareNorm(qz) * SquareNorm(qy)) * SquareNorm(qx);
    ==
      (1.0 * 1.0) * 1.0;
    }
  }

  /** The turn about z followed by the turn about y, multiplied out. */
  lemma TurnZThenY(cy: real, sy: real, cz: real, sz: real)
    ensures Mul(AxisTurn(2, cz, sz), AxisTurn(1, cy, sy)) == Quaternion(cz * cy, -(sz * sy), cz * sy, sz * cy)
  {
  }

  /** Any quaternion followed by the turn about x, multiplied out. */
  lemma ThenTurnX(w: real, x: real, y: real, z: real, cx: real, sx: real)
    ensures Mul(Quaternion(w, x, y, z), AxisTurn(0, cx, sx)) ==
            Quaternion(w * cx - x * sx, w * sx + x * cx, y * cx + z * sx, z * cx - y * sx)
  {
  }

  /** The product of all three turns, multiplied out. */
  lemma TurnZYThenX(cx: real, sx: real, cy: real, sy: real, cz: real, sz: real)
    ensures Mul(Quaternion(cz * cy, -(sz * sy), cz * sy, sz * cy), AxisTurn(0, cx, sx)) ==
            Quaternion(cx * cy * cz + sx * sy * sz, sx * cy * cz - cx * sy * sz,
                       cx * sy * cz + sx * cy * sz, cx * cy * sz - sx * sy * cz)
  {
    ThenTurnX(cz * cy, -(sz * sy), cz * sy, sz * cy, cx, sx);
    EulerW(cx, sx, cy, sy, cz, sz);
    EulerX(cx, sx, cy, sy, cz, sz);
    EulerY(cx, sx, cy, sy, cz, sz);
    EulerZ(cx, sx, cy, sy, cz, sz);
  }

  lemma EulerW(cx: real, sx: real, cy: real, sy: real, cz: real, sz: real)
    ensures (cz * cy) * cx - (-(sz * sy)) * sx == cx * cy * cz + sx * sy * sz
  {
  }

  lemma EulerX(cx: real, sx: real, cy: real, sy: real, cz: real, sz: real)
    ensures (cz * cy) * sx + (-(sz * sy)) * cx == sx * cy * cz - cx * sy * sz
  {
  }

  lemma EulerY(cx: real, sx: real, cy: real, sy: real, cz: real, sz: real)
    ensures (cz * sy) * cx + (sz * cy) * sx == cx * sy * cz + sx * cy * sz
  {
  }

  lemma EulerZ(cx: real, sx: real, cy: real, sy: real, cz: real, sz: real)
    ensures (sz * cy) * cx - (cz * sy) * sx == cx * cy * sz - sx * sy * cz
  {
  }
}
