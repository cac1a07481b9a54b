/** `Vector2<T>` (includes/Vector2.hpp): a two-component value type with
    componentwise arithmetic, compound assignment, dot product, a scalar
    cross product, and a normalisation that leaves the zero vector alone.
    Modelled over `real`. */
module Vec2 {
  import opened Scalars

  datatype Vector2 = Vector2(x: real, y: real)

  /** The value-initialised vector `Vector2{}`. */
  const Zero: Vector2 := Vector2(0.0, 0.0)

  // ---------- comparison ----------

  /** `operator==` compares the components one by one. */
  function Equals(a: Vector2, b: Vector2): (r: bool)
    ensures r <==> a == b
  {
    a.x == b.x && a.y == b.y
  }

  /** `operator!=` is the negation of `operator==`. */
  function NotEquals(a: Vector2, b: Vector2): (r: bool)
    ensures r <==> a != b
  {
    !Equals(a, b)
  }

  // ---------- arithmetic ----------

  function Add(a: Vector2, b: Vector2): Vector2 {
    Vector2(a.x + b.x, a.y + b.y)
  }

  function Sub(a: Vector2, b: Vector2): Vector2 {
    Vector2(a.x - b.x, a.y - b.y)
  }

  /** `operator*(T scalar)`. */
  function Scale(v: Vector2, s: real): Vector2 {
    Vector2(v.x * s, v.y * s)
  }

  /** `operator/(T scalar)`; a zero divisor has no real-valued result. */
  function Div(v: Vector2, s: real): Vector2
    requires s != 0.0
  {
    Vector2(v.x / s, v.y / s)
  }

  /** Unary `operator-`. */
  function Negate(v: Vector2): Vector2 {
    Vector2(-v.x, -v.y)
  }

  // ---------- compound assignment: the receiver's state afterwards ----------

  function AddAssign(self: Vector2, other: Vector2): (r: Vector2)
    ensures r == Add(self, other)
  {
    var x := self.x + other.x;
    var y := self.y + other.y;
    Vector2(x, y)
  }

  function SubAssign(self: Vector2, other: Vector2): (r: Vector2)
    ensures r == Sub(self, other)
  {
    var x := self.x - other.x;
    var y := self.y - other.y;
    Vector2(x, y)
  }

  function ScaleAssign(self: Vector2, s: real): (r: Vector2)
    ensures r == Scale(self, s)
  {
    var x := self.x * s;
    var y := self.y * s;
    Vector2(x, y)
  }

  function DivAssign(self: Vector2, s: real): (r: Vector2)
    requires s != 0.0
    ensures r == Div(self, s)
  {
    var x := self.x / s;
    var y := self.y / s;
    Vector2(x, y)
  }

  // ---------- products and magnitude ----------

  function Dot(a: Vector2, b: Vector2): real {
    a.x * b.x + a.y * b.y
  }

  /** The scalar cross product, the z component of the 3-D cross product. */
  function Cross(a: Vector2, b: Vector2): real {
    a.x * b.y - a.y * b.x
  }

  /** `square_magnitude()`: never negative, and the vector's dot product
      with itself (`SquareMagnitudeIsDot`). */
  function SquareMagnitude(v: Vector2): (r: real)
    ensures r >= 0.0
  {
    SumOfSquares2NonNeg(v.x, v.y);
    Sq(v.x) + Sq(v.y)
  }

  lemma SquareMagnitudeIsDot(v: Vector2)
    ensures SquareMagnitude(v) == Dot(v, v)
  {
  }

  /** Only the zero vector has a zero square magnitude. */
  lemma SquareMagnitudeZeroIff(v: Vector2)
    ensures SquareMagnitude(v) == 0.0 <==> v == Zero
  {
    Squares3Vanish(v.x, v.y, 0.0);
  }

  // ---------- normalisation ----------

  /** `normalized()`, given `len` the square root that `magnitude()` computes.
      The zero vector maps to the zero vector; any other vector maps to a
      unit vector that scales back to the input. */
  function Normalized(v: Vector2, len: real): (r: Vector2)
    requires IsRoot(len, SquareMagnitude(v))
    ensures v == Zero ==> r == Zero
    ensures v != Zero ==> SquareMagnitude(r) == 1.0 && Scale(r, len) == v
  {
    RootIsZeroIff(len, SquareMagnitude(v));
    SquareMagnitudeZeroIff(v);
    if len == 0.0 then Zero
    else
      var r := Vector2(v.x / len, v.y / len);
      UnitAfterDivision(v, len);
      r
  }

  /** `normalize()`: the receiver is left untouched when its length is zero,
      otherwise divided by its length. */
  function Normalize(self: Vector2, len: real): (r: Vector2)
    requires IsRoot(len, SquareMagnitude(self))
    ensures self == Zero ==> r == self
    ensures self != Zero ==> SquareMagnitude(r) == 1.0 && Scale(r, len) == self
  {
    RootIsZeroIff(len, SquareMagnitude(self));
    SquareMagnitudeZeroIff(self);
    if len == 0.0 then self
    else
      UnitAfterDivision(self, len);
      Div(self, len)
  }

  /** Dividing a vector by its length gives a unit vector that scales back. */
  lemma UnitAfterDivision(v: Vector2, len: real)
    requires IsRoot(len, SquareMagnitude(v)) && len != 0.0
    ensures SquareMagnitude(Div(v, len)) == 1.0
    ensures Scale(Div(v, len), len) == v
  {
    QuotientTimes(v.x, len);
    QuotientTimes(v.y, len);
    UnitQuotient2(v.x, v.y, len);
  }

  // ---------- algebraic laws ----------

  /** The in-place and the value-returning normalisations agree. */
  lemma NormalizeAgreesWithNormalized(v: Vector2, len: real)
    requires IsRoot(len, SquareMagnitude(v))
    ensures Normalize(v, len) == Normalized(v, len)
  {
    RootIsZeroIff(len, SquareMagnitude(v));
    SquareMagnitudeZeroIff(v);
  }

  /** Adding back what was subtracted restores the vector. */
  lemma SubThenAdd(a: Vector2, b: Vector2)
    ensures Add(Sub(a, b), b) == a
    ensures Sub(a, b) == Add(a, Negate(b))
  {
  }

  /** Scaling by a non-zero divisor undoes the division. */
  lemma DivThenScale(v: Vector2, s: real)
    requires s != 0.0
    ensures Scale(Div(v, s), s) == v
  {
    QuotientTimes(v.x, s);
    QuotientTimes(v.y, s);
  }

  lemma AddNegateIsZero(v: Vector2)
    ensures Add(v, Negate(v)) == Zero
  {
  }

  lemma DotSymmetric(a: Vector2, b: Vector2)
    ensures Dot(a, b) == Dot(b, a)
  {
  }

  /** The scalar cross product is anti-commutative and vanishes on parallel
      vectors, in particular on a vector and itself. */
  lemma CrossAntiCommutative(a: Vector2, b: Vector2, s: real)
    ensures Cross(a, b) == -Cross(b, a)
    ensures Cross(a, a) == 0.0
    ensures Cross(a, Scale(a, s)) == 0.0
  {
  }

  /** Lagrange's identity in the plane: cross^2 + dot^2 == |a|^2 |b|^2. */
  lemma CrossLagrange(a: Vector2, b: Vector2)
    ensures Sq(Cross(a, b)) + Sq(Dot(a, b)) == SquareMagnitude(a) * SquareMagnitude(b)
  {
  }

  lemma EqualsIsEquivalence(a: Vector2, b: Vector2)
    ensures Equals(a, a)
    ensures Equals(a, b) == Equals(b, a)
    ensures NotEquals(a, b) == !Equals(a, b)
  {
  }
}
