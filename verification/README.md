# A verified model of a header-only maths toolkit

This project models, in Dafny, the core of a small C++ header-only maths
library:

- the `Quaternion` class: default construction, `identity`, `conjugate`,
  the Hamilton product `operator*`, `enforceSign`, `normalize`/`normalise`,
  `rotate` about a centre, `fromVectors`, `fromAxisAngle` and
  `fromEulerAngles`;
- the value types `Vector2<T>`, `Vector3<T>` and `Vector4<T>`: equality,
  componentwise arithmetic and its compound-assignment forms, `dot`,
  `cross`, `square_magnitude`, `normalized` and `normalize`;
- the `Matrix<T, ROWS, COLS>` template: `identity`, `zero`, `diagonal`,
  `operator()`, the entrywise and scalar operators with their compound
  forms, the product and `transpose`;
- the shape predicates `Line::operator==`, `Triangle::isInside` and
  `Triangle::isInsideCircumcircle`;
- the tolerance table `epsilon<T>()`.

Everything is computed over Dafny's `real`, so the model states the
algebra the code relies on, without the rounding of `float` and `double`.
Square roots, sines and cosines are not computed. Each becomes a parameter
constrained by what it must satisfy:

- a root `s` of `m` satisfies `IsRoot(s, m)`, that is `s >= 0` and `s * s == m`;
- a cosine/sine pair satisfies `c^2 + s^2 == 1`.

Operations that mutate their receiver (`normalize`, `enforceSign`, `+=`, …)
are modelled as functions or methods that return the receiver's state
afterwards.

Modules:

| module | file | models |
|---|---|---|
| `Scalars` | scalars.dfy | squares, roots and absolute values shared by the rest |
| `Constants` | constants.dfy | `Epsilon<T>` / `epsilon<T>()` |
| `Vec2`, `Vec3`, `Vec4` | vec2.dfy, vec3.dfy, vec4.dfy | `Vector2`, `Vector3`, `Vector4` |
| `Quaternions` | quaternions.dfy | the quaternion algebra, `enforceSign`, `normalize`/`normalise` |
| `QuaternionRotation` | quaternion_rotation.dfy | `rotate` |
| `QuaternionConstructors` | quaternion_constructors.dfy | `fromVectors`, `fromAxisAngle`, `fromEulerAngles` |
| `Matrices` | matrices.dfy | `Matrix<T, ROWS, COLS>` |
| `Shapes` | shapes.dfy | `Line`, `Triangle::isInside`, `Triangle::isInsideCircumcircle` |

## Model

| member | source | states |
|---|---|---|
| Constants.Epsilon | includes/constants.hpp:17-28 | every floating tolerance is positive and at most 1e-5 and equals its table entry; the integral tolerance is zero |
| Constants.IntegralEpsilonIsConversion | includes/constants.hpp:17-20 | the integral tolerance is the `1e-5f` table entry truncated to an integer |
| Constants.EpsilonOrdering | includes/constants.hpp:22-24 | the tolerances strictly decrease from float to double to long double to an integral type, and the integral one is 0 |
| Constants.TruncateToIntegral | includes/constants.hpp:27-28 | converting a non-negative value to an integral type gives the largest integer not above it |
| Vec2.Equals | includes/Vector2.hpp:18 | `==` holds exactly when the two vectors are equal |
| Vec2.NotEquals | includes/Vector2.hpp:21 | `!=` holds exactly when the vectors differ |
| Vec2.EqualsIsEquivalence | includes/Vector2.hpp:18-21 | `==` is reflexive and symmetric, and `!=` is its negation |
| Vec2.AddAssign | includes/Vector2.hpp:38 | `+=` leaves the receiver equal to the binary `+` |
| Vec2.SubAssign | includes/Vector2.hpp:41 | `-=` leaves the receiver equal to the binary `-` |
| Vec2.ScaleAssign | includes/Vector2.hpp:44 | `*=` leaves the receiver equal to the binary scalar `*` |
| Vec2.DivAssign | includes/Vector2.hpp:47 | `/=` by a non-zero scalar leaves the receiver equal to the binary `/` |
| Vec2.SubThenAdd | includes/Vector2.hpp:28 | adding `b` back to `a - b` gives `a`, and `a - b` is `a + (-b)` |
| Vec2.DivThenScale | includes/Vector2.hpp:34 | for a non-zero scalar, multiplying `v / s` by `s` gives `v` back |
| Vec2.AddNegateIsZero | includes/Vector2.hpp:25-51 | `v + (-v)` is the zero vector |
| Vec2.DotSymmetric | includes/Vector2.hpp:55 | `dot` is symmetric |
| Vec2.CrossAntiCommutative | includes/Vector2.hpp:58 | the scalar cross product is anti-commutative, vanishes on `(a, a)` and on `(a, a * s)` |
| Vec2.CrossLagrange | includes/Vector2.hpp:55-58 | the squared cross product plus the squared dot product is the product of the two square magnitudes |
| Vec2.SquareMagnitude | includes/Vector2.hpp:61 | the square magnitude is never negative |
| Vec2.SquareMagnitudeIsDot | includes/Vector2.hpp:55-61 | the square magnitude is the vector's dot product with itself |
| Vec2.SquareMagnitudeZeroIff | includes/Vector2.hpp:61 | the square magnitude is zero exactly for the zero vector |
| Vec2.Normalized | includes/Vector2.hpp:80-84 | the zero vector maps to zero; any other vector maps to a unit vector that scales back to the input |
| Vec2.Normalize | includes/Vector2.hpp:87-93 | the zero vector is left unchanged; any other vector becomes a unit vector that scales back to the input |
| Vec2.NormalizeAgreesWithNormalized | includes/Vector2.hpp:80-93 | the in-place and the value-returning normalisations agree |
| Vec3.Equals | includes/Vector3.hpp:18 | `==` holds exactly when the two vectors are equal |
| Vec3.NotEquals | includes/Vector3.hpp:21 | `!=` holds exactly when the vectors differ |
| Vec3.EqualsIsEquivalence | includes/Vector3.hpp:18-21 | `==` is reflexive and symmetric, and `!=` is its negation |
| Vec3.AddAssign | includes/Vector3.hpp:38 | `+=` leaves the receiver equal to the binary `+` |
| Vec3.SubAssign | includes/Vector3.hpp:41 | `-=` leaves the receiver equal to the binary `-` |
| Vec3.ScaleAssign | includes/Vector3.hpp:44 | `*=` leaves the receiver equal to the binary scalar `*` |
| Vec3.DivAssign | includes/Vector3.hpp:47 | `/=` by a non-zero scalar leaves the receiver equal to the binary `/` |
| Vec3.SubThenAdd | includes/Vector3.hpp:28 | adding `b` back to `a - b` gives `a`, and `a - b` is `a + (-b)` |
| Vec3.DivThenScale | includes/Vector3.hpp:34 | for a non-zero scalar, multiplying `v / s` by `s` gives `v` back |
| Vec3.AddNegateIsZero | includes/Vector3.hpp:25-51 | `v + (-v)` is the zero vector |
| Vec3.DotSymmetric | includes/Vector3.hpp:55 | `dot` is symmetric |
| Vec3.CrossAntiCommutative | includes/Vector3.hpp:58-64 | `a x b == -(b x a)` and `a x a` is the zero vector |
| Vec3.CrossOrthogonal | includes/Vector3.hpp:55-64 | the cross product is orthogonal to both operands |
| Vec3.CrossLagrange | includes/Vector3.hpp:55-67 | Lagrange's identity: the square magnitude of `a x b` plus the squared dot product is the product of the two square magnitudes |
| Vec3.DotWithZero | includes/Vector3.hpp:55 | a dot product with the zero vector is zero |
| Vec3.CrossWithZero | includes/Vector3.hpp:58-64 | a cross product with the zero vector is the zero vector |
| Vec3.SquareMagnitude | includes/Vector3.hpp:67 | the square magnitude is never negative |
| Vec3.SquareMagnitudeIsDot | includes/Vector3.hpp:55-67 | the square magnitude is the vector's dot product with itself |
| Vec3.SquareMagnitudeZeroIff | includes/Vector3.hpp:67 | the square magnitude is zero exactly for the zero vector |
| Vec3.Normalized | includes/Vector3.hpp:86-91 | the zero vector maps to zero; any other vector maps to a unit vector that scales back to the input |
| Vec3.Normalize | includes/Vector3.hpp:94-101 | the zero vector is left unchanged; any other vector becomes a unit vector that scales back to the input |
| Vec3.NormalizeAgreesWithNormalized | includes/Vector3.hpp:86-101 | the in-place and the value-returning normalisations agree |
| Vec4.Equals | includes/Vector4.hpp:18 | `==` holds exactly when the two vectors are equal |
| Vec4.NotEquals | includes/Vector4.hpp:21 | `!=` holds exactly when the vectors differ |
| Vec4.EqualsIsEquivalence | includes/Vector4.hpp:18-21 | `==` is reflexive and symmetric, and `!=` is its negation |
| Vec4.AddAssign | includes/Vector4.hpp:38 | `+=` leaves the receiver equal to the binary `+` |
| Vec4.SubAssign | includes/Vector4.hpp:41 | `-=` as written agrees with the binary `-` exactly when `other.w` is zero: x, y and z match, and `w` exceeds the difference by `2 * other.w` |
| Vec4.SubAssignCorrected | includes/Vector4.hpp:28-41 | the corrected `-=` leaves the receiver equal to the binary `-` |
| Vec4.SubAssignDisagreesWithSub | includes/Vector4.hpp:41 | for `other == (1,0,0,0)` and a zero receiver, `-=` gives `w == 1` where `-` gives `w == -1` |
| Vec4.ScaleAssign | includes/Vector4.hpp:44 | `*=` leaves the receiver equal to the binary scalar `*` |
| Vec4.DivAssign | includes/Vector4.hpp:47 | `/=` by a non-zero scalar leaves the receiver equal to the binary `/` |
| Vec4.SubThenAdd | includes/Vector4.hpp:28 | adding `b` back to `a - b` gives `a`, and `a - b` is `a + (-b)` |
| Vec4.DivThenScale | includes/Vector4.hpp:34 | for a non-zero scalar, multiplying `v / s` by `s` gives `v` back |
| Vec4.AddNegateIsZero | includes/Vector4.hpp:25-51 | `v + (-v)` is the zero vector |
| Vec4.DotSymmetric | includes/Vector4.hpp:55 | `dot` is symmetric |
| Vec4.SquareMagnitude | includes/Vector4.hpp:58 | the square magnitude is never negative |
| Vec4.SquareMagnitudeIsDot | includes/Vector4.hpp:55-58 | the square magnitude is the vector's dot product with itself |
| Vec4.SquareMagnitudeZeroIff | includes/Vector4.hpp:58 | the square magnitude is zero exactly for the zero vector |
| Vec4.Normalized | includes/Vector4.hpp:69-74 | the zero vector maps to all-zero components; any other vector maps to a unit vector that scales back to the input |
| Vec4.Normalize | includes/Vector4.hpp:77-85 | the zero vector is left unchanged; any other vector becomes a unit vector that scales back to the input |
| Vec4.NormalizeAgreesWithNormalized | includes/Vector4.hpp:69-85 | the in-place and the value-returning normalisations agree |
| Quaternions.Default | includes/Quaternion.hpp:14-21 | the default-constructed quaternion is `identity()` |
| Quaternions.SquareNormZeroIff | includes/Quaternion.hpp:92 | the squared norm is never negative and is zero exactly for the zero quaternion |
| Quaternions.ConjugateInvolution | includes/Quaternion.hpp:87-89 | conjugating twice gives the quaternion back |
| Quaternions.MulConjugate | includes/Quaternion.hpp:87-144 | `q * conj(q)` and `conj(q) * q` are the real quaternion of the squared norm |
| Quaternions.IdentityIsUnit | includes/Quaternion.hpp:136-144 | `identity()` is a left and a right unit of `operator*` |
| Quaternions.IdentityNorm | includes/Quaternion.hpp:19-21 | `identity()` has squared norm 1 and is its own conjugate under `conjugate()` (lines 87-89) |
| Quaternions.MulAssociative | includes/Quaternion.hpp:136-144 | the Hamilton product is associative, so the grouping inside `rotate` does not matter |
| Quaternions.ConjugateOfProduct | includes/Quaternion.hpp:87-144 | `conj(a * b) == conj(b) * conj(a)` |
| Quaternions.MulReal | includes/Quaternion.hpp:136-144 | multiplying by a real quaternion on either side scales |
| Quaternions.MulScaleLeft | includes/Quaternion.hpp:136-144 | a scalar factor on the left operand comes out of the product |
| Quaternions.MulScaleRight | includes/Quaternion.hpp:136-144 | a scalar factor on the right operand comes out of the product |
| Quaternions.SquareNormMultiplicative | includes/Quaternion.hpp:136-144 | the squared norm of a product is the product of the squared norms |
| Quaternions.SquareNormConjugate | includes/Quaternion.hpp:87-89 | conjugation keeps the squared norm |
| Quaternions.MulExample | tests/quaternion.cpp:64-74 | `(1,0,1,0) * (1,0.5,0.5,0.75) == (0.5,1.25,1.5,0.25)` exactly |
| Quaternions.EnforceSign | includes/Quaternion.hpp:121-128 | afterwards `w >= 0`; a quaternion with negative `w` is negated in all four components, and any other one (including `w == 0`) is returned unchanged |
| Quaternions.EnforceSignIdempotent | includes/Quaternion.hpp:121-128 | applying `enforceSign` twice is applying it once |
| Quaternions.EnforceSignKeepsNorm | includes/Quaternion.hpp:121-128 | `enforceSign` keeps the squared norm |
| Quaternions.Normalize | includes/Quaternion.hpp:91-104 | the zero quaternion becomes the identity; any other becomes a unit quaternion that scales back to the input |
| Quaternions.Normalise | includes/Quaternion.hpp:106-119 | the same contract as `normalize` |
| Quaternions.NormalizeIsUnit | includes/Quaternion.hpp:91-104 | the result of `normalize` always has squared norm 1 |
| Quaternions.NormalizeNormaliseAgree | includes/Quaternion.hpp:91-119 | `normalize` and `normalise` are the same transformation |
| Quaternions.NormalizeExample | tests/quaternion.cpp:43-52 | `(0,3,0,4)` with magnitude 5 becomes `(0,0.6,0,0.8)` |
| QuaternionRotation.SandwichIsPure | includes/Quaternion.hpp:130-134 | `q * p * conj(q)` of a pure quaternion `p` is pure, so `rotate` loses nothing by dropping `w` |
| QuaternionRotation.RotateByIdentity | includes/Quaternion.hpp:130-134 | rotating by the identity returns the point |
| QuaternionRotation.RotateFixesCenter | includes/Quaternion.hpp:130-134 | rotating the centre about itself returns the centre, for every quaternion |
| QuaternionRotation.RotatePreservesDistance | includes/Quaternion.hpp:130-134 | a unit quaternion keeps every point's distance to the centre |
| QuaternionRotation.RotateComposition | includes/Quaternion.hpp:130-144 | rotating by `a * b` about any centre is rotating by `b`, then by `a`, about the same centre |
| QuaternionRotation.RotateRoundTrip | includes/Quaternion.hpp:130-134 | for a unit quaternion `q`, rotating by `q` and then by `conjugate()` of `q`, about the same centre, returns the original point: the conjugate is the inverse rotation |
| QuaternionRotation.RotateQuarterTurnExample | tests/quaternion.cpp:76-84 | with `s^2 == 1/2`, `(s,0,0,s)` takes `(1,0,0)` to `(0,1,0)` |
| QuaternionRotation.EnforceSignKeepsRotation | includes/Quaternion.hpp:121-134 | `enforceSign` does not change the rotation a quaternion performs |
| QuaternionRotation.RotateNegate | includes/Quaternion.hpp:130-134 | `q` and `-q` perform the same rotation |
| QuaternionConstructors.FromVectorsParallel | includes/Quaternion.hpp:68-69 | when `dot > 0.999999` the result is the identity |
| QuaternionConstructors.FromVectorsOpposite | includes/Quaternion.hpp:70-76 | when `dot < -0.999999` the result has `w == 0` and an axis orthogonal to `u1`, non-zero whenever `u1` is |
| QuaternionConstructors.FromVectorsOppositeValue | includes/Quaternion.hpp:70-76 | the antiparallel branch returns `(0, axis)` with the chosen half-turn axis |
| QuaternionConstructors.HalfTurnAxis | includes/Quaternion.hpp:71-74 | the chosen axis is non-zero whenever `u1` is |
| QuaternionConstructors.HalfTurnAxisIsCross | includes/Quaternion.hpp:71-74 | the axis is `(1,0,0) x u1`, or `(0,1,0) x u1` when the first is zero |
| QuaternionConstructors.HalfTurnAxisOrthogonal | includes/Quaternion.hpp:71-74 | the axis is orthogonal to `u1` |
| QuaternionConstructors.FromVectorsGeneral | includes/Quaternion.hpp:78-84 | in the general branch the vector part is orthogonal to both inputs, `w >= 0`, and the squared norm is `2n(n + dot)` |
| QuaternionConstructors.FromVectorsGeneralValue | includes/Quaternion.hpp:78-84 | the general branch returns `(n + dot, u1 x u2)` |
| QuaternionConstructors.FromVectorsZeroInput | includes/Quaternion.hpp:59-84 | a zero input vector yields the zero quaternion, not a rotation |
| QuaternionConstructors.FromVectorsParallelExample | tests/quaternion.cpp:86-95 | two copies of `(1,0,0)` give the identity |
| QuaternionConstructors.FromVectorsOppositeExample | tests/quaternion.cpp:97-104 | `(1,0,0)` and `(-1,0,0)` give `(0,0,0,-1)` |
| QuaternionConstructors.HalfTurnAxisOnXAxisLength | tests/quaternion.cpp:97-104 | for an input on the x axis the half-turn axis has the input's length, so a unit input gives a unit axis |
| QuaternionConstructors.FromAxisAngle | includes/Quaternion.hpp:41-50 | the squared norm is `c^2` plus `s^2` times the axis's square magnitude, so a unit axis gives a unit quaternion |
| QuaternionConstructors.FromEulerAngles | includes/Quaternion.hpp:23-32 | the result is the product of the turns about z, y and x, and is a unit quaternion |
| QuaternionConstructors.EulerIsProduct | includes/Quaternion.hpp:27-30 | the four written-out components are that product, with squared norm 1 |
| Matrices.WriteThroughAccess | includes/matrix.hpp:46-47 | a write through `operator()` changes exactly the addressed entry |
| Matrices.IdentityLoop | includes/matrix.hpp:24-31 | writing ones along the diagonal of a zero matrix gives the identity |
| Matrices.DiagonalLoop | includes/matrix.hpp:37-43 | writing `values` along the diagonal of a zero matrix gives `Diagonal(values)` |
| Matrices.EntrywiseLoop | includes/matrix.hpp:59-65 | writing each entry of a zero-initialised result once, in row-major order, gives the entrywise result |
| Matrices.EntrywiseInPlace | includes/matrix.hpp:87-92 | updating each entry of the receiver once, in row-major order, gives the entrywise result |
| Matrices.OperatorNegate | includes/matrix.hpp:50-56 | unary `-` negates every entry |
| Matrices.OperatorAdd | includes/matrix.hpp:59-65 | `+` adds entry by entry |
| Matrices.OperatorSub | includes/matrix.hpp:67-73 | `-` subtracts entry by entry |
| Matrices.OperatorDiv | includes/matrix.hpp:94-100 | `/` divides every entry by a non-zero scalar |
| Matrices.OperatorScale | includes/matrix.hpp:123-129 | scalar `*` multiplies every entry |
| Matrices.AddAssign | includes/matrix.hpp:87-92 | `+=` leaves the receiver equal to `+` |
| Matrices.ScaleAssign | includes/matrix.hpp:102-107 | `*=` leaves the receiver equal to scalar `*` |
| Matrices.DivAssign | includes/matrix.hpp:109-114 | `/=` leaves the receiver equal to scalar `/` |
| Matrices.SubAssign | includes/matrix.hpp:116-121 | `-=` leaves the receiver equal to `-` |
| Matrices.ProductLoop | includes/matrix.hpp:76-84 | the triple loop's accumulator for (i, j) is the sum over k of `A(i,k) * B(k,j)`, so the result is the matrix product |
| Matrices.RowColIdentityLeft | includes/matrix.hpp:76-84 | with the identity on the left, the partial sum picks out `M(i,j)` once k has passed i |
| Matrices.ProductIdentity | includes/matrix.hpp:24-31 | `identity() * M == M == M * identity()` |
| Matrices.ProductZero | includes/matrix.hpp:76-84 | a product with a zero matrix, on the left or on the right, is a zero matrix of the product's shape |
| Matrices.AddZero | includes/matrix.hpp:33-35 | `A + zero() == A` |
| Matrices.AddCommutative | includes/matrix.hpp:59-65 | `+` is commutative |
| Matrices.SubSelf | includes/matrix.hpp:67-73 | `A - A == zero()` |
| Matrices.NegateInvolution | includes/matrix.hpp:50-56 | `-(-A) == A` |
| Matrices.SubIsAddNegate | includes/matrix.hpp:50-73 | `A - B == A + (-B)` |
| Matrices.DivUndoesScale | includes/matrix.hpp:94-129 | dividing by a non-zero scalar undoes multiplying by it |
| Matrices.DiagonalOfOnes | includes/matrix.hpp:24-43 | a diagonal of ones is the identity |
| Matrices.DiagonalSymmetric | includes/matrix.hpp:37-43 | a diagonal matrix is its own transpose |
| Matrices.TransposeLoop | includes/matrix.hpp:131-137 | writing `A(i,j)` at (j, i) of a zero-initialised `COLS x ROWS` result gives the transpose |
| Matrices.TransposeInvolution | includes/matrix.hpp:131-137 | transposing twice gives the matrix back |
| Matrices.TransposeSquare | includes/matrix.hpp:131-137 | for a square matrix the transpose has the input's shape and holds `A(i,j)` at (j, i) |
| Matrices.AsWrittenTransposeInRangeIffSquare | includes/matrix.hpp:131-137 | every write of `transpose()` into its `ROWS x COLS` result is in range exactly when `ROWS == COLS` |
| Matrices.AsWrittenTransposeOverrunExample | includes/matrix.hpp:131-137 | for a 1 x 2 matrix, `transpose()` writes row 1 of a one-row result |
| Shapes.LineEquals | includes/shape.hpp:23-27 | two lines are equal exactly when they have the same end points in either order |
| Shapes.LineEqualsUndirected | includes/shape.hpp:23-27 | line equality is reflexive, symmetric and transitive, and ignores direction |
| Shapes.IsInside | includes/shape.hpp:55-64 | the point is accepted exactly when the three sub-areas exceed the triangle's area by less than `epsilon<double>()` |
| Shapes.SignedSubAreasSum | includes/shape.hpp:56-60 | the signed sub-areas sum to the signed area of the triangle |
| Shapes.SubAreasCover | includes/shape.hpp:56-60 | `abp + bcp + cap >= abc` always |
| Shapes.AffineSubAreas | includes/shape.hpp:58-60 | a point with affine weights (1-s-u, s, u) has signed sub-areas in those proportions |
| Shapes.InsideWhenInTriangle | includes/shape.hpp:55-64 | every point of the closed triangle is accepted |
| Shapes.InsideAtVertex | includes/shape.hpp:55-64 | each corner is accepted |
| Shapes.OutsideBeyondEdge | includes/shape.hpp:55-64 | a point on the far side of an edge from the third corner is rejected when its doubled signed area against that edge (edge length times distance from the edge line) is at least `epsilon<double>()` in size; this is not a bound on the distance alone |
| Shapes.InsidePermutationInvariant | includes/shape.hpp:56-63 | relabelling the corners, in either winding, does not change `isInside` |
| Shapes.FlatAreaSwap | includes/shape.hpp:56 | the unsigned area does not depend on the winding |
| Shapes.PredicatesTranslationInvariant | includes/shape.hpp:37-60 | moving the corners and the point by one offset changes neither predicate |
| Shapes.PredicatesIgnoreZ | includes/shape.hpp:37-60 | the corners' z coordinates change neither predicate |
| Shapes.CircumcircleAtVertex | includes/shape.hpp:35-51 | at a corner the determinant is 0, so the answer is "inside" for a floating type and "outside" for an integral type |
| Shapes.OriginDetExpansion | includes/shape.hpp:46-49 | the source's three terms are the cofactor expansion of the lifted 3 x 3 incircle determinant |
| Shapes.OriginDetRotation | includes/shape.hpp:46-49 | cycling the corners keeps the determinant |
| Shapes.CircumcircleWinding | includes/shape.hpp:46-51 | swapping two corners negates the determinant; cycling them keeps it |
| Shapes.CircumcircleDetMeaning | includes/shape.hpp:37-49 | for corners on a circle, the determinant is `r^2` minus the squared distance from `p` to the centre, times the signed doubled area |
| Shapes.CircumcircleByWinding | includes/shape.hpp:35-51 | the test accepts points strictly inside the circle of a clockwise triangle and points strictly outside the circle of a counter-clockwise one |
| Shapes.CircumcircleWindingExample | includes/shape.hpp:35-51 | `(0.25, 0.25)` lies inside the circle through (0,0), (1,0), (0,1), yet the test rejects it for that counter-clockwise order and accepts it for the clockwise one |
| Shapes.CircumcircleBandExample | includes/shape.hpp:35-51 | for the counter-clockwise corners (0,0), (1,0), (0,1), the point `(1 - 1e-10, 0)` lies strictly inside the circle and has determinant `h (1 - h)` below `epsilon<double>()`, so the test accepts it despite the winding |

## Left out

- Floating-point rounding and the mix of `float` and `double`: the model is exact over `real`. The tests' `EXPECT_NEAR` tolerances become exact equalities. The `float` literal `1e-5f` is taken as exactly 1e-5.
- `std::sqrt`, `std::sin` and `std::cos` are parameters constrained by their defining equations (a root squares back; a cosine/sine pair lies on the unit circle). The model makes no numeric claims about particular angles.
- Division by a zero scalar (`operator/`, `/=` on vectors and matrices) has no real-valued result, so the model requires a non-zero divisor. The floating-point infinities and NaNs are left out.
- Unsigned and signed integer instantiations (`Vector3u`, `Vector2i`, …): wrap-around, integer division and the `T(x / len)` truncation in `normalized()` are left out. For the tolerance table, an integral `T` is modelled by its converted value 0.
- `magnitude()`, `distance()` and `angle()` of the vector types: they only wrap `std::sqrt` and `std::atan2`. `Vector3::angle` would not compile if instantiated, because it converts a `Vector3` to `double`.
- The unqualified `abs` in `Triangle::isInside` is modelled as the real absolute value. Some toolchains resolve it to the integer `abs`, which would truncate the areas; the model does not cover that.
- `fromVectors` is modelled from the point after normalisation: `u1` and `u2` are parameters, and `n` is the root the general branch takes of `|u1|^2 |u2|^2`. `normalized()` itself is modelled in `Vec3.Normalized`. The general branch's result is not normalised by the source, and the model keeps it that way (`FromVectorsGeneral` gives its squared norm).
- QuaternionConstructors.HalfTurnAxis: written with the two cross products `(1,0,0) x u` and `(0,1,0) x u` spelled out; `HalfTurnAxisIsCross` states that they are the source's cross products.
- The `referenceUp` parameter of `fromVectors` is never read by the source, and it is not modelled.
- The quaternion's four-argument constructor is plain field initialisation (the datatype constructor); the default constructor is `Quaternions.Default`; the destructor does nothing.
- `Matrix` dimensions are data (`rows`, `cols` with `Valid`) rather than template parameters. An out-of-range `operator()` index is undefined behaviour in the source, so `At` requires indices in range.
- `Rect`, `Color`, the plain structs and macros of `type.hpp`, `includes/type.hpp` and `includes/Type.hpp`, and the gtest test scaffolding have no behaviour to model.

## Findings

| source | as written | input that shows it | evidently intended | confidence | as-written member | corrected member |
|---|---|---|---|---|---|---|
| includes/Vector4.hpp:41 | `operator-=` does `w += other.w` | receiver (0,0,0,0), other (1,0,0,0): `-=` gives w == 1, `-` gives w == -1 | `w -= other.w`, like x, y and z and like the binary `-` | high; not executed | Vec4.SubAssignDisagreesWithSub | Vec4.SubAssignCorrected |
| includes/matrix.hpp:131-137 | `transpose()` writes `result.data[j][i]` into a `ROWS x COLS` result | any 1 x 2 matrix: the write for entry (0, 1) goes to row 1 of a one-row result | a `COLS x ROWS` result, so that every shape can be transposed | high; not executed | Matrices.AsWrittenTransposeInRangeIffSquare | Matrices.TransposeLoop |

The circumcircle test compares the determinant with `epsilon<T>()` without
looking at the triangle's winding. For clockwise corners it accepts every
point strictly inside the circle; for counter-clockwise corners it accepts
every point strictly outside it. Points whose determinant lies within
`epsilon<T>()` of zero are also accepted under either winding: for a
floating `T` this is a thin band along the circle that includes the corners
themselves
(`Shapes.CircumcircleAtVertex`), so a point just inside the circle of
counter-clockwise corners can still be accepted
(`Shapes.CircumcircleBandExample`). `Shapes.CircumcircleByWinding` and
`Shapes.CircumcircleWindingExample` state this behaviour as written.
Callers that want the other meaning must order the corners themselves.
