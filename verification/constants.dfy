/** The tolerance table `epsilon<T>()` (includes/constants.hpp).

    C++ selects the tolerance by the scalar type `T`; the model names the
    family of `T` by a `ScalarKind`. For a non-floating `T` the table holds
    the `float` literal `1e-5f`, and `epsilon<T>()` converts it to `T`. An
    integral `T` truncates that literal toward zero. */
module Constants {

  datatype ScalarKind = Float | Double | LongDouble | Integral

  predicate IsFloating(k: ScalarKind) {
    k != Integral
  }

  /** The value stored in `Epsilon<T>::value()`, before the conversion that
      `epsilon<T>()` applies. */
  function TableValue(k: ScalarKind): real {
    match k
    case Float => 0.00001
    case Double => 0.000000001
    case LongDouble => 0.000000000001
    case Integral => 0.00001
  }

  /** `epsilon<T>()`: a positive tolerance of at most 1e-5 for every
      floating kind, and zero for an integral kind, so that a strict
      `< epsilon` test then means `< 0`. */
  function Epsilon(k: ScalarKind): (r: real)
    ensures IsFloating(k) ==> 0.0 < r <= 0.00001
    ensures IsFloating(k) ==> r == TableValue(k)
    ensures k == Integral ==> r == 0.0
  {
    match k
    case Integral => 0.0
    case _ => TableValue(k)
  }

  /** Conversion of a non-negative floating value to an integral type:
      truncation toward zero. */
  function TruncateToIntegral(a: real): (r: int)
    requires a >= 0.0
    ensures r as real <= a < r as real + 1.0
  {
    a.Floor
  }

  /** The integral tolerance is the table's `1e-5f` converted to the
      integral type. */
  lemma IntegralEpsilonIsConversion()
    ensures Epsilon(Integral) == TruncateToIntegral(TableValue(Integral)) as real
  {
  }

  /** The tolerances are strictly positive and shrink as the precision
      grows: float > double > long double > 0 == integral. */
  lemma EpsilonOrdering()
    ensures Epsilon(Float) > Epsilon(Double) > Epsilon(LongDouble) > Epsilon(Integral)
    ensures Epsilon(Integral) == 0.0
  {
  }
}
