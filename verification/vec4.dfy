/** `Vector4<T>` (includes/Vector4.hpp): a four-component value type
    (w, x, y, z) with componentwise arithmetic, compound assignment, dot
    product, and a normalisation that leaves the zero vector alone.
    Modelled over `real`. */
module Vec4 {
  import opened Scalars

  datatype Vector4 = Vector4(w: real, x: real, y: real, z: real)

  /** The value-initialised vector `Vector4{}`. */
  const Zero: Vector4 := Vector4(0.0, 0.0, 0.0, 0.0)

  // ---------- comparison ----------

  /** `operator==` compares the components one by one. */
  function Equals(a: Vector4, b: Vector4): (r: bool)
    ensures r <==> a == b
  {
    a.w == b.w && a.x == b.x && a.y == b.y && a.z == b.z
  }

  /** `operator!=` is the negation of `operator==`; each vector header
      repeats this definition, so it mirrors `Vec2.NotEquals`. */
  function NotEquals(a: Vector4, b: Vector4): (r: bool)
    ensures r <==> a != b
  {
    !Equals(a, b)
  }

  // ---------- arithmetic ----------

  function Add(a: Vector4, b: Vector4): Vector4 {
    Vector4(a.w + b.w, a.x + b.x, a.y + b.y, a.z + b.z)
  }

  function Sub(a: Vector4, b: Vector4): Vector4 {
    Vector4(a.w - b.w, a.x - b.x, a.y - b.y, a.z - b.z)
  }

  /** `operator*(T scalar)`. */
  function Scale(v: Vector4, s: real): Vector4 {
    Vector4(v.w * s, v.x * s, v.y * s, v.z * s)
  }

  /** `operator/(T scalar)`; a zero divisor has no real-valued result. */
  function Div(v: Vector4, s: real): Vector4
    requires s != 0.0
  {
    Vector4(v.w / s, v.x / s, v.y / s, v.z / s)
  }

  /** Unary `operator-`. */
  function Negate(v: Vector4): Vector4 {
    Vector4(-v.w, -v.x, -v.y, -v.z)
  }

  // ---------- compound assignment: the receiver's state afterwards ----------

  function AddAssign(self: Vector4, other: Vector4): (r: Vector4)
    ensures r == Add(self, other)
  {
    var w := self.w + other.w;
    var x := self.x + other.x;
    var y := self.y + other.y;
    var z := self.z + other.z;
    Vector4(w, x, y, z)
  }

  /** `operator-=` as written: the `w` component is ADDED, so the receiver
      matches binary `-` exactly when `other.w` is zero, and otherwise
      differs from it in `w` alone, by twice `other.w`. */
  function SubAssign(self: Vector4, other: Vector4): (r: Vector4)
    ensures r == Sub(self, other) <==> other.w == 0.0
    ensures r.x == Sub(self, other).x && r.y == Sub(self, other).y && r.z == Sub(self, other).z
    ensures r.w == Sub(self, other).w + 2.0 * other.w
  {
    var w := self.w + other.w;
    var x := self.x - other.x;
    var y := self.y - other.y;
    var z := self.z - other.z;
    Vector4(w, x, y, z)
  }

  /** `operator-=` as evidently intended: every component subtracted. */
  function SubAssignCorrected(self: Vector4, other: Vector4): (r: Vector4)
    ensures r == Sub(self, other)
  {
    var w := self.w - other.w;
    var x := self.x - other.x;
    var y := self.y - other.y;
    var z := self.z - other.z;
    Vector4(w, x, y, z)
  }

  function ScaleAssign(self: Vector4, s: real): (r: Vector4)
    ensures r == Scale(self, s)
  {
    var w := self.w * s;
    var x := self.x * s;
    var y := self.y * s;
    var z := self.z * s;
    Vector4(w, x, y, z)
  }

  function DivAssign(self: Vector4, s: real): (r: Vector4)
    requires s != 0.0
    ensures r == Div(self, s)
  {
    var w := self.w / s;
    var x := self.x / s;
    var y := self.y / s;
    var z := self.z / s;
    Vector4(w, x, y, z)
  }

  // ---------- products and magnitude ----------

  function Dot(a: Vector4, b: Vector4): real {
    a.w * b.w + a.x * b.x + a.y * b.y + a.z * b.z
  }

  /** `square_magnitude()`: never negative, and the vector's dot product
      with itself (`SquareMagnitudeIsDot`). */
  function SquareMagnitude(v: Vector4): (r: real)
    ensures r >= 0.0
  {
    SumOfSquares4NonNeg(v.w, v.x, v.y, v.z);
    Sq(v.w) + Sq(v.x) + Sq(v.y) + Sq(v.z)
  }

  lemma SquareMagnitudeIsDot(v: Vector4)
    ensures SquareMagnitude(v) == Dot(v, v)
  {
  }

  /** Only the zero vector has a zero square magnitude. */
  lemma SquareMagnitudeZeroIff(v: Vector4)
    ensures SquareMagnitude(v) == 0.0 <==> v == Zero
  {
    Squares4Vanish(v.w, v.x, v.y, v.z);
  }

  // ---------- normalisation ----------

  /** `normalized()`, given `len` the square root that `magnitude()` computes.
      The zero vector maps to the all-zero vector (the brace initialiser
      `{0, 0}` value-initialises `y` and `z`); any other vector maps to a
      unit vector that scales back to the input. */
  function Normalized(v: Vector4, len: real): (r: Vector4)
    requires IsRoot(len, SquareMagnitude(v))
    ensures v == Zero ==> r == Zero
    ensures v != Zero ==> SquareMagnitude(r) == 1.0 && Scale(r, len) == v
  {
    RootIsZeroIff(len, SquareMagnitude(v));
    SquareMagnitudeZeroIff(v);
    if len == 0.0 then Vector4(0.0, 0.0, 0.0, 0.0)
    else
      var r := Vector4(v.w / len, v.x / len, v.y / len, v.z / len);
      UnitAfterDivision(v, len);
      r
  }

  /** `normalize()`: the receiver is left untouched when its length is zero,
      otherwise divided by its length. Each vector header repeats this
      definition, so it mirrors `Vec2.Normalize`. */
  function Normalize(self: Vector4, len: real): (r: Vector4)
    requires IsRoot(len, SquareMagnitude(self))
    ensures self == Zero ==> r == self
    ensures self != Zero ==> SquareMagnitude(r) == 1.0 && Scale(r, len) == self
  {
    RootIsZeroIff(len, SquareMagnitude(self));
    SquareMagnitudeZeroIff(self);
    if len == 0.0 then self
    else
      UnitAfterDivision(self, len);
      Div(self, len)
  }

  /** Dividing a vector by its length gives a unit vector that scales back. */
  lemma UnitAfterDivision(v: Vector4, len: real)
    requires IsRoot(len, SquareMagnitude(v)) && len != 0.0
    ensures SquareMagnitude(Div(v, len)) == 1.0
    ensures Scale(Div(v, len), len) == v
  {
    QuotientTimes(v.w, len);
    QuotientTimes(v.x, len);
    QuotientTimes(v.y, len);
    QuotientTimes(v.z, len);
    UnitQuotient4(v.w, v.x, v.y, v.z, len);
  }

  // ---------- algebraic laws ----------

  /** The in-place and the value-returning normalisations agree. */
  lemma NormalizeAgreesWithNormalized(v: Vector4, len: real)
    requires IsRoot(len, SquareMagnitude(v))
    ensures Normalize(v, len) == Normalized(v, len)
  {
    RootIsZeroIff(len, SquareMagnitude(v));
    SquareMagnitudeZeroIff(v);
  }

  /** A concrete witness that `-=` as written disagrees with binary `-`:
      (0,0,0,0) -= (1,0,0,0) leaves w == 1, where `-` gives w == -1. */
  lemma SubAssignDisagreesWithSub(o: Vector4)
    requires o == Vector4(1.0, 0.0, 0.0, 0.0)
    ensures SubAssign(Zero, o).w == 1.0
    ensures Sub(Zero, o).w == -1.0
    ensures SubAssign(Zero, o) != Sub(Zero, o)
  {
  }

  /** Adding back what was subtracted restores the vector. */
  lemma SubThenAdd(a: Vector4, b: Vector4)
    ensures Add(Sub(a, b), b) == a
    ensures Sub(a, b) == Add(a, Negate(b))
  {
  }

  /** Scaling by a non-zero divisor undoes the division. */
  lemma DivThenScale(v: Vector4, s: real)
    requires s != 0.0
    ensures Scale(Div(v, s), s) == v
  {
    QuotientTimes(v.w, s);
    QuotientTimes(v.x, s);
    QuotientTimes(v.y, s);
    QuotientTimes(v.z, s);
  }

  lemma AddNegateIsZero(v: Vector4)
    ensures Add(v, Negate(v)) == Zero
  {
  }

  lemma DotSymmetric(a: Vector4, b: Vector4)
    ensures Dot(a, b) == Dot(b, a)
  {
  }

  lemma EqualsIsEquivalence(a: Vector4, b: Vector4)
    ensures Equals(a, a)
    ensures Equals(a, b) == Equals(b, a)
    ensures NotEquals(a, b) == !Equals(a, b)
  {
  }
}
