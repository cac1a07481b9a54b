/** The shape predicates of includes/shape.hpp: undirected `Line` equality,
    the area test `Triangle::isInside`, and the incircle determinant test
    `Triangle::isInsideCircumcircle`. Triangles keep `Vector3` corners, but
    both predicates read only their x and y coordinates. */
module Shapes {
  import opened Scalars
  import opened Constants
  import Vec2
  import Vec3

  // ---------- lines ----------

  datatype Line = Line(p1: Vec2.Vector2, p2: Vec2.Vector2)

  /** `Line::operator==`: edges are undirected, so two lines are equal
      exactly when they have the same pair of end points in either order. */
  function LineEquals(a: Line, b: Line): (r: bool)
    ensures r <==> multiset{a.p1, a.p2} == multiset{b.p1, b.p2}
  {
    PairsAsMultisets(a.p1, a.p2, b.p1, b.p2);
    (Vec2.Equals(a.p1, b.p1) && Vec2.Equals(a.p2, b.p2)) ||
    (Vec2.Equals(a.p1, b.p2) && Vec2.Equals(a.p2, b.p1))
  }

  /** Two unordered pairs agree exactly when they agree in one of the two
      orders. */
  lemma PairsAsMultisets<T>(x: T, y: T, u: T, v: T)
    ensures multiset{x, y} == multiset{u, v} <==> (x == u && y == v) || (x == v && y == u)
  {
    if multiset{x, y} == multiset{u, v} {
      assert x in multiset{u, v};
      if x == u {
        assert multiset{x, y} - multiset{x} == multiset{u, v} - multiset{u};
        assert y in multiset{v};
      } else {
        assert multiset{x, y} - multiset{x} == multiset{u, v} - multiset{v};
        assert y in multiset{u};
      }
    }
  }

  /** Line equality is an equivalence that ignores the direction of an edge. */
  lemma LineEqualsUndirected(a: Line, b: Line, c: Line)
    ensures LineEquals(a, a)
    ensures LineEquals(a, b) == LineEquals(b, a)
    ensures LineEquals(a, Line(a.p2, a.p1))
    ensures LineEquals(a, b) && LineEquals(b, c) ==> LineEquals(a, c)
  {
  }

  // ---------- triangles ----------

  datatype Triangle = Triangle(p1: Vec3.Vector3, p2: Vec3.Vector3, p3: Vec3.Vector3)

  /** The (x, y) part of a corner. */
  function Flat(v: Vec3.Vector3): Vec2.Vector2 {
    Vec2.Vector2(v.x, v.y)
  }

  /** Twice the signed area of the triangle (a, b, c), in the shoelace form
      the source writes out; positive when the corners run counter-clockwise. */
  function Shoelace(a: Vec2.Vector2, b: Vec2.Vector2, c: Vec2.Vector2): real {
    a.x * (b.y - c.y) + b.x * (c.y - a.y) + c.x * (a.y - b.y)
  }

  /** The area `abc` of the triangle itself. */
  function Area(t: Triangle): real {
    FlatArea(Flat(t.p1), Flat(t.p2), Flat(t.p3))
  }

  function FlatArea(a: Vec2.Vector2, b: Vec2.Vector2, c: Vec2.Vector2): real {
    0.5 * Abs(Shoelace(a, b, c))
  }

  /** `abp + bcp + cap`: the areas of the three triangles the point forms
      with the edges. */
  function SubAreas(t: Triangle, p: Vec2.Vector2): real {
    FlatSubAreas(Flat(t.p1), Flat(t.p2), Flat(t.p3), p)
  }

  function FlatSubAreas(a: Vec2.Vector2, b: Vec2.Vector2, c: Vec2.Vector2, p: Vec2.Vector2): real {
    FlatArea(a, b, p) + FlatArea(b, c, p) + FlatArea(c, a, p)
  }

  /** `Triangle::isInside`: the point is accepted when the three sub-areas
      add up to the triangle's area within the `double` tolerance. Since
      they never add up to less, this is the same as an excess below it. */
  function IsInside(t: Triangle, p: Vec2.Vector2): (r: bool)
    ensures r <==> SubAreas(t, p) - Area(t) < Epsilon(Double)
  {
    SubAreasCover(t, p);
    Abs(Area(t) - SubAreas(t, p)) < Epsilon(Double)
  }

  /** The signed sub-areas sum to the signed area of the triangle. */
  lemma SignedSubAreasSum(a: Vec2.Vector2, b: Vec2.Vector2, c: Vec2.Vector2, p: Vec2.Vector2)
    ensures Shoelace(a, b, p) + Shoelace(b, c, p) + Shoelace(c, a, p) == Shoelace(a, b, c)
  {
  }

  /** Hence the sub-areas always cover at least the triangle's area. */
  lemma SubAreasCover(t: Triangle, p: Vec2.Vector2)
    ensures SubAreas(t, p) >= Area(t)
  {
    var a, b, c := Flat(t.p1), Flat(t.p2), Flat(t.p3);
    SignedSubAreasSum(a, b, c, p);
    AbsSum3(Shoelace(a, b, p), Shoelace(b, c, p), Shoelace(c, a, p));
  }

  /** The point `a + s (b - a) + u (c - a)`. */
  function Affine(a: Vec2.Vector2, b: Vec2.Vector2, c: Vec2.Vector2, s: real, u: real): Vec2.Vector2 {
    Vec2.Vector2(a.x + s * (b.x - a.x) + u * (c.x - a.x), a.y + s * (b.y - a.y) + u * (c.y - a.y))
  }

  /** Each signed sub-area of a point given in affine coordinates is the
      matching coordinate times the signed area of the triangle. */
  lemma AffineSubAreas(a: Vec2.Vector2, b: Vec2.Vector2, c: Vec2.Vector2, s: real, u: real)
    ensures Shoelace(a, b, Affine(a, b, c, s, u)) == u * Shoelace(a, b, c)
    ensures Shoelace(b, c, Affine(a, b, c, s, u)) == (1.0 - s - u) * Shoelace(a, b, c)
    ensures Shoelace(c, a, Affine(a, b, c, s, u)) == s * Shoelace(a, b, c)
  {
  }

  /** Every point of the closed triangle (non-negative affine coordinates
      summing to at most one) is inside, whatever the winding. */
  lemma InsideWhenInTriangle(t: Triangle, s: real, u: real)
    requires s >= 0.0 && u >= 0.0 && s + u <= 1.0
    ensures IsInside(t, Affine(Flat(t.p1), Flat(t.p2), Flat(t.p3), s, u))
  {
    var a, b, c := Flat(t.p1), Flat(t.p2), Flat(t.p3);
    var p := Affine(a, b, c, s, u);
    var d := Shoelace(a, b, c);
    var v := 1.0 - s - u;
    AffineSubAreas(a, b, c, s, u);
    AbsScale(u, d);
    AbsScale(v, d);
    AbsScale(s, d);
    var m := Abs(d);
    assert FlatArea(a, b, p) == 0.5 * (u * m);
    assert FlatArea(b, c, p) == 0.5 * (v * m);
    assert FlatArea(c, a, p) == 0.5 * (s * m);
    calc {
      SubAreas(t, p);
    ==
      0.5 * (u * m) + 0.5 * (v * m) + 0.5 * (s * m);
    ==
      0.5 * ((u + v + s) * m);
    ==
      0.5 * m;
    ==
      Area(t);
    }
  }

  /** Each corner is inside its own triangle. */
  lemma InsideAtVertex(t: Triangle, p: Vec2.Vector2)
    requires p == Flat(t.p1) || p == Flat(t.p2) || p == Flat(t.p3)
    ensures IsInside(t, p)
  {
    var a, b, c := Flat(t.p1), Flat(t.p2), Flat(t.p3);
    if p == a {
      assert Affine(a, b, c, 0.0, 0.0) == p;
      InsideWhenInTriangle(t, 0.0, 0.0);
    } else if p == b {
      assert Affine(a, b, c, 1.0, 0.0) == p;
      InsideWhenInTriangle(t, 1.0, 0.0);
    } else {
      assert Affine(a, b, c, 0.0, 1.0) == p;
      InsideWhenInTriangle(t, 0.0, 1.0);
    }
  }

  /** A point on the far side of the edge p1 p2 from p3 is rejected when its
      doubled signed area against that edge is at least the tolerance in size.
      That area is the edge length times the point's distance from the edge
      line, so the bound is not a bound on the distance alone. */
  lemma OutsideBeyondEdge(t: Triangle, p: Vec2.Vector2)
    requires var d := Shoelace(Flat(t.p1), Flat(t.p2), Flat(t.p3));
             var e := Shoelace(Flat(t.p1), Flat(t.p2), p);
             (d >= 0.0 && e <= -Epsilon(Double)) || (d <= 0.0 && e >= Epsilon(Double))
    ensures !IsInside(t, p)
  {
    var a, b, c := Flat(t.p1), Flat(t.p2), Flat(t.p3);
    SignedSubAreasSum(a, b, c, p);
    AbsSum3Opposed(Shoelace(a, b, p), Shoelace(b, c, p), Shoelace(c, a, p));
  }

  /** Relabelling the corners, in either winding, does not change the answer. */
  lemma InsidePermutationInvariant(t: Triangle, p: Vec2.Vector2)
    ensures IsInside(Triangle(t.p2, t.p3, t.p1), p) == IsInside(t, p)
    ensures IsInside(Triangle(t.p2, t.p1, t.p3), p) == IsInside(t, p)
  {
    var a, b, c := Flat(t.p1), Flat(t.p2), Flat(t.p3);
    FlatAreaRotate(a, b, c);
    FlatAreaSwap(a, b, c);
    FlatAreaSwap(a, b, p);
    FlatAreaSwap(c, a, p);
    FlatAreaSwap(b, c, p);
  }

  /** Cycling the corners keeps the area. */
  lemma FlatAreaRotate(a: Vec2.Vector2, b: Vec2.Vector2, c: Vec2.Vector2)
    ensures FlatArea(b, c, a) == FlatArea(a, b, c)
  {
    ShoelaceRotate(a, b, c);
  }

  /** Reversing the winding keeps the area. */
  lemma FlatAreaSwap(a: Vec2.Vector2, b: Vec2.Vector2, c: Vec2.Vector2)
    ensures FlatArea(b, a, c) == FlatArea(a, b, c)
  {
    ShoelaceSwap(a, b, c);
    AbsNeg(Shoelace(a, b, c));
  }

  lemma ShoelaceRotate(a: Vec2.Vector2, b: Vec2.Vector2, c: Vec2.Vector2)
    ensures Shoelace(b, c, a) == Shoelace(a, b, c)
  {
  }

  lemma ShoelaceSwap(a: Vec2.Vector2, b: Vec2.Vector2, c: Vec2.Vector2)
    ensures Shoelace(b, a, c) == -Shoelace(a, b, c)
  {
  }

  // ---------- translation and the ignored z coordinate ----------

  function Shift(v: Vec3.Vector3, d: Vec2.Vector2): Vec3.Vector3 {
    Vec3.Vector3(v.x + d.x, v.y + d.y, v.z)
  }

  function ShiftTriangle(t: Triangle, d: Vec2.Vector2): Triangle {
    Triangle(Shift(t.p1, d), Shift(t.p2, d), Shift(t.p3, d))
  }

  lemma ShoelaceTranslation(a: Vec2.Vector2, b: Vec2.Vector2, c: Vec2.Vector2, d: Vec2.Vector2)
    ensures Shoelace(Vec2.Add(a, d), Vec2.Add(b, d), Vec2.Add(c, d)) == Shoelace(a, b, c)
  {
  }

  /** Moving the triangle and the point by the same offset changes neither
      predicate. */
  lemma PredicatesTranslationInvariant(t: Triangle, p: Vec2.Vector2, d: Vec2.Vector2, k: ScalarKind)
    ensures IsInside(ShiftTriangle(t, d), Vec2.Add(p, d)) == IsInside(t, p)
    ensures IsInsideCircumcircle(ShiftTriangle(t, d), Vec2.Add(p, d), k) == IsInsideCircumcircle(t, p, k)
  {
    var a, b, c := Flat(t.p1), Flat(t.p2), Flat(t.p3);
    var q := Vec2.Add(p, d);
    assert Flat(Shift(t.p1, d)) == Vec2.Add(a, d);
    assert Flat(Shift(t.p2, d)) == Vec2.Add(b, d);
    assert Flat(Shift(t.p3, d)) == Vec2.Add(c, d);
    ShoelaceTranslation(a, b, c, d);
    ShoelaceTranslation(a, b, p, d);
    ShoelaceTranslation(b, c, p, d);
    ShoelaceTranslation(c, a, p, d);
    assert Offset(Shift(t.p1, d), q) == Offset(t.p1, p);
    assert Offset(Shift(t.p2, d), q) == Offset(t.p2, p);
    assert Offset(Shift(t.p3, d), q) == Offset(t.p3, p);
  }

  /** Only x and y are read: replacing every z leaves both predicates alone. */
  lemma PredicatesIgnoreZ(t: Triangle, p: Vec2.Vector2, z1: real, z2: real, z3: real, k: ScalarKind)
    ensures var t' := Triangle(Vec3.Vector3(t.p1.x, t.p1.y, z1), Vec3.Vector3(t.p2.x, t.p2.y, z2),
                               Vec3.Vector3(t.p3.x, t.p3.y, z3));
            IsInside(t', p) == IsInside(t, p) &&
            IsInsideCircumcircle(t', p, k) == IsInsideCircumcircle(t, p, k)
  {
  }

  // ---------- circumcircle ----------

  /** A corner relative to the query point, which becomes the origin. */
  function Offset(v: Vec3.Vector3, p: Vec2.Vector2): Vec2.Vector2 {
    Vec2.Vector2(v.x - p.x, v.y - p.y)
  }

  /** The incircle determinant
        | a.x  a.y  |a|^2 |
        | b.x  b.y  |b|^2 |
        | c.x  c.y  |c|^2 |
      of the corners translated so that `p` is the origin, expanded along
      the first column as the source writes it. */
  function IncircleDet(t: Triangle, p: Vec2.Vector2): real {
    OriginDet(Offset(t.p1, p), Offset(t.p2, p), Offset(t.p3, p))
  }

  /** The same determinant for corners already relative to the origin. */
  function OriginDet(a: Vec2.Vector2, b: Vec2.Vector2, c: Vec2.Vector2): real {
    var a2 := Vec2.SquareMagnitude(a);
    var b2 := Vec2.SquareMagnitude(b);
    var c2 := Vec2.SquareMagnitude(c);
    var term1 := a.x * (b.y * c2 - c.y * b2);
    var term2 := - a.y * (b.x * c2 - c.x * b2);
    var term3 := a2 * Vec2.Cross(b, c);
    term1 + term2 + term3
  }

  /** `Triangle::isInsideCircumcircle`: the determinant is below the
      tolerance of the scalar kind. */
  function IsInsideCircumcircle(t: Triangle, p: Vec2.Vector2, k: ScalarKind): bool {
    IncircleDet(t, p) < Epsilon(k)
  }

  /** At a corner the determinant vanishes, so the answer is "inside" for a
      floating kind and "outside" for an integral kind, whose tolerance is 0. */
  lemma CircumcircleAtVertex(t: Triangle, p: Vec2.Vector2, k: ScalarKind)
    requires p == Flat(t.p1) || p == Flat(t.p2) || p == Flat(t.p3)
    ensures IncircleDet(t, p) == 0.0
    ensures IsInsideCircumcircle(t, p, k) <==> IsFloating(k)
  {
    var a, b, c := Offset(t.p1, p), Offset(t.p2, p), Offset(t.p3, p);
    assert IncircleDet(t, p) == OriginDet(a, b, c);
    if p == Flat(t.p1) {
      assert a == Vec2.Zero;
      OriginDetVanishes(a, b, c);
    } else if p == Flat(t.p2) {
      assert b == Vec2.Zero;
      OriginDetVanishes(b, c, a);
      OriginDetRotation(a, b, c);
    } else {
      assert c == Vec2.Zero;
      OriginDetVanishes(c, a, b);
      OriginDetRotation(c, a, b);
    }
  }


  /** A corner at the origin makes the determinant vanish. */
  lemma OriginDetVanishes(a: Vec2.Vector2, b: Vec2.Vector2, c: Vec2.Vector2)
    requires a == Vec2.Zero
    ensures OriginDet(a, b, c) == 0.0
  {
    OriginDetExpansion(a, b, c);
    assert Vec2.SquareMagnitude(a) == 0.0;
    Det3ZeroRow(b.x, b.y, Vec2.SquareMagnitude(b), c.x, c.y, Vec2.SquareMagnitude(c));
  }

  /** A 3x3 determinant, given by its rows. */
  function Det3(a1: real, a2: real, a3: real, b1: real, b2: real, b3: real, c1: real, c2: real, c3: real): real {
    a1 * (b2 * c3 - c2 * b3) - a2 * (b1 * c3 - c1 * b3) + a3 * (b1 * c2 - b2 * c1)
  }

  lemma Det3ZeroRow(b1: real, b2: real, b3: real, c1: real, c2: real, c3: real)
    ensures Det3(0.0, 0.0, 0.0, b1, b2, b3, c1, c2, c3) == 0.0
  {
  }

  /** The source's three terms are the cofactor expansion of the determinant. */
  lemma OriginDetExpansion(a: Vec2.Vector2, b: Vec2.Vector2, c: Vec2.Vector2)
    ensures OriginDet(a, b, c) == Det3(a.x, a.y, Vec2.SquareMagnitude(a), b.x, b.y, Vec2.SquareMagnitude(b),
                                       c.x, c.y, Vec2.SquareMagnitude(c))
  {
  }

  /** Rotating the rows keeps the determinant. */
  lemma OriginDetRotation(a: Vec2.Vector2, b: Vec2.Vector2, c: Vec2.Vector2)
    ensures OriginDet(b, c, a) == OriginDet(a, b, c)
  {
  }

  /** Swapping two corners negates the determinant; rotating them keeps it. */
  lemma CircumcircleWinding(t: Triangle, p: Vec2.Vector2)
    ensures IncircleDet(Triangle(t.p2, t.p1, t.p3), p) == -IncircleDet(t, p)
    ensures IncircleDet(Triangle(t.p2, t.p3, t.p1), p) == IncircleDet(t, p)
  {
  }

  /** Squared distance between two points of the plane. */
  function DistSq(a: Vec2.Vector2, b: Vec2.Vector2): real {
    Sq(a.x - b.x) + Sq(a.y - b.y)
  }

  /** Given a centre `o` at squared distance `r2` from all three corners, the
      determinant is (r2 - |p - o|^2) times twice the signed area: its sign is
      the side of the circle `p` lies on, times the winding. */
  lemma CircumcircleDetMeaning(t: Triangle, p: Vec2.Vector2, o: Vec2.Vector2, r2: real)
    requires DistSq(Flat(t.p1), o) == r2
    requires DistSq(Flat(t.p2), o) == r2
    requires DistSq(Flat(t.p3), o) == r2
    ensures IncircleDet(t, p) == (r2 - DistSq(p, o)) * Shoelace(Flat(t.p1), Flat(t.p2), Flat(t.p3))
  {
    var a, b, c := Offset(t.p1, p), Offset(t.p2, p), Offset(t.p3, p);
    var e1 := DistSq(Flat(t.p1), o) - r2;
    var e2 := DistSq(Flat(t.p2), o) - r2;
    var e3 := DistSq(Flat(t.p3), o) - r2;
    var c1 := b.x * c.y - b.y * c.x;
    var c2 := a.y * c.x - a.x * c.y;
    var c3 := a.x * b.y - a.y * b.x;
    assert IncircleDet(t, p) == OriginDet(a, b, c);
    assert IncircleDet(t, p) - (r2 - DistSq(p, o)) * Shoelace(Flat(t.p1), Flat(t.p2), Flat(t.p3))
        == e1 * c1 + e2 * c2 + e3 * c3;
    MulZero(e1, c1);
    MulZero(e2, c2);
    MulZero(e3, c3);
  }

  /** The predicate's answer depends on the winding: it says "inside" for a
      point strictly inside the circle of a clockwise triangle, and for a
      point strictly outside the circle of a counter-clockwise one. */
  lemma CircumcircleByWinding(t: Triangle, p: Vec2.Vector2, o: Vec2.Vector2, r2: real, k: ScalarKind)
    requires DistSq(Flat(t.p1), o) == r2
    requires DistSq(Flat(t.p2), o) == r2
    requires DistSq(Flat(t.p3), o) == r2
    ensures Shoelace(Flat(t.p1), Flat(t.p2), Flat(t.p3)) < 0.0 && DistSq(p, o) < r2 ==> IsInsideCircumcircle(t, p, k)
    ensures Shoelace(Flat(t.p1), Flat(t.p2), Flat(t.p3)) > 0.0 && DistSq(p, o) > r2 ==> IsInsideCircumcircle(t, p, k)
  {
    CircumcircleDetMeaning(t, p, o, r2);
    OppositeSignsBelow(IncircleDet(t, p), r2 - DistSq(p, o), Shoelace(Flat(t.p1), Flat(t.p2), Flat(t.p3)), Epsilon(k));
  }

  /** A product of factors with opposite signs is below any non-negative
      tolerance. */
  lemma OppositeSignsBelow(det: real, e: real, d: real, eps: real)
    requires det == e * d && eps >= 0.0
    ensures (d < 0.0 && e > 0.0) || (d > 0.0 && e < 0.0) ==> det < eps
  {
    if d < 0.0 && e > 0.0 {
      MulPosNeg(e, d);
    }
    if d > 0.0 && e < 0.0 {
      MulPosNeg(d, e);
      assert d * e == e * d;
    }
  }

  /** The counter-clockwise triangle (0,0), (1,0), (0,1) has (0.25, 0.25)
      inside its circle, yet the predicate says "outside" for every scalar
      kind; listing the same corners clockwise flips the answer. */
  lemma CircumcircleWindingExample(ccw: Triangle, p: Vec2.Vector2, k: ScalarKind)
    requires ccw == Triangle(Vec3.Vector3(0.0, 0.0, 0.0), Vec3.Vector3(1.0, 0.0, 0.0), Vec3.Vector3(0.0, 1.0, 0.0))
    requires p == Vec2.Vector2(0.25, 0.25)
    ensures DistSq(p, Vec2.Vector2(0.5, 0.5)) < 0.5
    ensures !IsInsideCircumcircle(ccw, p, k)
    ensures IsInsideCircumcircle(Triangle(ccw.p2, ccw.p1, ccw.p3), p, k)
  {
    WindingExampleValues(ccw, p);
  }

  /** The determinant values behind the winding example. */
  lemma WindingExampleValues(ccw: Triangle, p: Vec2.Vector2)
    requires ccw == Triangle(Vec3.Vector3(0.0, 0.0, 0.0), Vec3.Vector3(1.0, 0.0, 0.0), Vec3.Vector3(0.0, 1.0, 0.0))
    requires p == Vec2.Vector2(0.25, 0.25)
    ensures DistSq(p, Vec2.Vector2(0.5, 0.5)) == 0.125
    ensures IncircleDet(ccw, p) == 0.375
    ensures IncircleDet(Triangle(ccw.p2, ccw.p1, ccw.p3), p) == -0.375
  {
    var a, b, c := Offset(ccw.p1, p), Offset(ccw.p2, p), Offset(ccw.p3, p);
    assert a == Vec2.Vector2(-0.25, -0.25);
    assert b == Vec2.Vector2(0.75, -0.25);
    assert c == Vec2.Vector2(-0.25, 0.75);
    assert Vec2.SquareMagnitude(a) == Sq(-0.25) + Sq(-0.25) == 0.125;
    assert Vec2.SquareMagnitude(b) == Sq(0.75) + Sq(-0.25) == 0.625;
    assert Vec2.SquareMagnitude(c) == Sq(-0.25) + Sq(0.75) == 0.625;
    OriginDetExpansion(a, b, c);
    assert Det3(-0.25, -0.25, 0.125, 0.75, -0.25, 0.625, -0.25, 0.75, 0.625) == 0.375;
    CircumcircleWinding(ccw, p);
    assert DistSq(p, Vec2.Vector2(0.5, 0.5)) == Sq(-0.25) + Sq(-0.25);
  }


  /** The tolerance band: for the same counter-clockwise corners, the point
      (1 - h, 0) with h = 1e-10 lies strictly inside the circle, and its
      determinant h (1 - h) is below `epsilon<double>()`, so the test
      accepts it although the winding would otherwise reject inside points. */
  lemma CircumcircleBandExample(ccw: Triangle, p: Vec2.Vector2, h: real)
    requires ccw == Triangle(Vec3.Vector3(0.0, 0.0, 0.0), Vec3.Vector3(1.0, 0.0, 0.0), Vec3.Vector3(0.0, 1.0, 0.0))
    requires h == 0.0000000001 && p == Vec2.Vector2(1.0 - h, 0.0)
    ensures DistSq(p, Vec2.Vector2(0.5, 0.5)) < 0.5
    ensures Shoelace(Flat(ccw.p1), Flat(ccw.p2), Flat(ccw.p3)) > 0.0
    ensures IncircleDet(ccw, p) == h * (1.0 - h)
    ensures IsInsideCircumcircle(ccw, p, Double)
  {
    var a, b, c := Offset(ccw.p1, p), Offset(ccw.p2, p), Offset(ccw.p3, p);
    assert a == Vec2.Vector2(h - 1.0, 0.0);
    assert b == Vec2.Vector2(h, 0.0);
    assert c == Vec2.Vector2(h - 1.0, 1.0);
    assert Vec2.SquareMagnitude(a) == Sq(1.0 - h);
    assert Vec2.SquareMagnitude(b) == Sq(h);
    assert OriginDet(a, b, c) == (h - 1.0) * (0.0 - Sq(h)) + Sq(1.0 - h) * h;
    assert DistSq(p, Vec2.Vector2(0.5, 0.5)) == Sq(0.5 - h) + Sq(-0.5);
  }

}
