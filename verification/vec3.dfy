/** `Vector3<T>` (includes/Vector3.hpp): a three-component value type with
    componentwise arithmetic, compound assignment, dot and cross products, and
    a normalisation that leaves the zero vector alone. Modelled over `real`. */
module Vec3 {
  import opened Scalars

  datatype Vector3 = Vector3(x: real, y: real, z: real)

  /** The value-initialised vector `Vector3{}`. */
  const Zero: Vector3 := Vector3(0.0, 0.0, 0.0)

  // ---------- comparison ----------

  /** `operator==` compares the components one by one. */
  function Equals(a: Vector3, b: Vector3): (r: bool)
    ensures r <==> a == b
  {
    a.x == b.x && a.y == b.y && a.z == b.z
  }

  /** `operator!=` is the negation of `operator==`; each vector header
      repeats this definition, so it mirrors `Vec2.NotEquals`. */
  function NotEquals(a: Vector3, b: Vector3): (r: bool)
    ensures r <==> a != b
  {
    !Equals(a, b)
  }

  // ---------- arithmetic ----------

  function Add(a: Vector3, b: Vector3): Vector3 {
    Vector3(a.x + b.x, a.y + b.y, a.z + b.z)
  }

  function Sub(a: Vector3, b: Vector3): Vector3 {
    Vector3(a.x - b.x, a.y - b.y, a.z - b.z)
  }

  /** `operator*(T scalar)`. */
  function Scale(v: Vector3, s: real): Vector3 {
    Vector3(v.x * s, v.y * s, v.z * s)
  }

  /** `operator/(T scalar)`; a zero divisor has no real-valued result. */
  function Div(v: Vector3, s: real): Vector3
    requires s != 0.0
  {
    Vector3(v.x / s, v.y / s, v.z / s)
  }

  /** Unary `operator-`. */
  function Negate(v: Vector3): Vector3 {
    Vector3(-v.x, -v.y, -v.z)
  }

  // ---------- compound assignment: the receiver's state afterwards ----------

  function AddAssign(self: Vector3, other: Vector3): (r: Vector3)
    ensures r == Add(self, other)
  {
    var x := self.x + other.x;
    var y := self.y + other.y;
    var z := self.z + other.z;
    Vector3(x, y, z)
  }

  function SubAssign(self: Vector3, other: Vector3): (r: Vector3)
    ensures r == Sub(self, other)
  {
    var x := self.x - other.x;
    var y := self.y - other.y;
    var z := self.z - other.z;
    Vector3(x, y, z)
  }

  function ScaleAssign(self: Vector3, s: real): (r: Vector3)
    ensures r == Scale(self, s)
  {
    var x := self.x * s;
    var y := self.y * s;
    var z := self.z * s;
    Vector3(x, y, z)
  }

  function DivAssign(self: Vector3, s: real): (r: Vector3)
    requires s != 0.0
    ensures r == Div(self, s)
  {
    var x := self.x / s;
    var y := self.y / s;
    var z := self.z / s;
    Vector3(x, y, z)
  }

  // ---------- products and magnitude ----------

  function Dot(a: Vector3, b: Vector3): real {
    a.x * b.x + a.y * b.y + a.z * b.z
  }

  /** `cross()`, the vector product; `CrossOrthogonal` and `CrossLagrange`
      state what it is. */
  function Cross(a: Vector3, b: Vector3): Vector3 {
    Vector3(a.y * b.z - a.z * b.y,
            a.z * b.x - a.x * b.z,
            a.x * b.y - a.y * b.x)
  }

  /** `square_magnitude()`: never negative, and the vector's dot product
      with itself (`SquareMagnitudeIsDot`). */
  function SquareMagnitude(v: Vector3): (r: real)
    ensures r >= 0.0
  {
    SumOfSquares3NonNeg(v.x, v.y, v.z);
    Sq(v.x) + Sq(v.y) + Sq(v.z)
  }

  lemma SquareMagnitudeIsDot(v: Vector3)
    ensures SquareMagnitude(v) == Dot(v, v)
  {
  }

  /** Only the zero vector has a zero square magnitude. */
  lemma SquareMagnitudeZeroIff(v: Vector3)
    ensures SquareMagnitude(v) == 0.0 <==> v == Zero
  {
    Squares3Vanish(v.x, v.y, v.z);
  }

  // ---------- normalisation ----------

  /** `normalized()`, given `len` the square root that `magnitude()` computes.
      The zero vector maps to the zero vector; any other vector maps to a
      unit vector that scales back to the input. */
  function Normalized(v: Vector3, len: real): (r: Vector3)
    requires IsRoot(len, SquareMagnitude(v))
    ensures v == Zero ==> r == Zero
    ensures v != Zero ==> SquareMagnitude(r) == 1.0 && Scale(r, len) == v
  {
    RootIsZeroIff(len, SquareMagnitude(v));
    SquareMagnitudeZeroIff(v);
    if len == 0.0 then Zero
    else
      var r := Vector3(v.x / len, v.y / len, v.z / len);
      UnitAfterDivision(v, len);
      r
  }

  /** `normalize()`: the receiver is left untouched when its length is zero,
      otherwise divided by its length. Each vector header repeats this
      definition, so it mirrors `Vec2.Normalize`. */
  function Normalize(self: Vector3, len: real): (r: Vector3)
    requires IsRoot(len, SquareMagnitude(self))
    ensures self == Zero ==> r == self
    ensures self != Zero ==> SquareMagnitude(r) == 1.0 && Scale(r, len) == self
  {
    RootIsZeroIff(len, SquareMagnitude(self));
    SquareMagnitudeZeroIff(self);
    if len == 0.0 then self
    else
      UnitAfterDivision(self, len);
      Div(self, len)
  }

  /** Dividing a vector by its length gives a unit vector that scales back. */
  lemma UnitAfterDivision(v: Vector3, len: real)
    requires IsRoot(len, SquareMagnitude(v)) && len != 0.0
    ensures SquareMagnitude(Div(v, len)) == 1.0
    ensures Scale(Div(v, len), len) == v
  {
    QuotientTimes(v.x, len);
    QuotientTimes(v.y, len);
    QuotientTimes(v.z, len);
    UnitQuotient3(v.x, v.y, v.z, len);
  }

  // ---------- algebraic laws ----------

  /** The in-place and the value-returning normalisations agree. */
  lemma NormalizeAgreesWithNormalized(v: Vector3, len: real)
    requires IsRoot(len, SquareMagnitude(v))
    ensures Normalize(v, len) == Normalized(v, len)
  {
    RootIsZeroIff(len, SquareMagnitude(v));
    SquareMagnitudeZeroIff(v);
  }

  /** Adding back what was subtracted restores the vector. */
  lemma SubThenAdd(a: Vector3, b: Vector3)
    ensures Add(Sub(a, b), b) == a
    ensures Sub(a, b) == Add(a, Negate(b))
  {
  }

  /** Scaling by a non-zero divisor undoes the division. */
  lemma DivThenScale(v: Vector3, s: real)
    requires s != 0.0
    ensures Scale(Div(v, s), s) == v
  {
    QuotientTimes(v.x, s);
    QuotientTimes(v.y, s);
    QuotientTimes(v.z, s);
  }

  lemma AddNegateIsZero(v: Vector3)
    ensures Add(v, Negate(v)) == Zero
  {
  }

  lemma DotSymmetric(a: Vector3, b: Vector3)
    ensures Dot(a, b) == Dot(b, a)
  {
  }

  lemma CrossAntiCommutative(a: Vector3, b: Vector3)
    ensures Cross(a, b) == Negate(Cross(b, a))
    ensures Cross(a, a) == Zero
  {
  }

  /** The cross product is orthogonal to both operands. */
  lemma CrossOrthogonal(a: Vector3, b: Vector3)
    ensures Dot(a, Cross(a, b)) == 0.0 && Dot(b, Cross(a, b)) == 0.0
  {
  }

  /** Lagrange's identity: |a x b|^2 + (a.b)^2 == |a|^2 |b|^2. */
  lemma CrossLagrange(a: Vector3, b: Vector3)
    ensures SquareMagnitude(Cross(a, b)) + Sq(Dot(a, b)) == SquareMagnitude(a) * SquareMagnitude(b)
  {
  }

  /** Products with the zero vector vanish. */
  lemma DotWithZero(a: Vector3, b: Vector3)
    requires a == Zero || b == Zero
    ensures Dot(a, b) == 0.0
  {
  }

  lemma CrossWithZero(a: Vector3, b: Vector3)
    requires a == Zero || b == Zero
    ensures Cross(a, b) == Zero
  {
  }

  lemma EqualsIsEquivalence(a: Vector3, b: Vector3)
    ensures Equals(a, a)
    ensures Equals(a, b) == Equals(b, a)
    ensures NotEquals(a, b) == !Equals(a, b)
  {
  }
}
