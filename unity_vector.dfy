/**
 * Unity's Vector2 equality, on single-precision values that may be infinite
 * or NaN. `a == b` holds when the squared length of `a - b` is below
 * kEpsilon squared (kEpsilon = 1e-5); `!=` is its negation. Finite values
 * are modelled as reals without rounding: the property below concerns only
 * the infinities and NaN.
 */
module UnityVector {

  /** A float as IEEE 754 arithmetic treats it: finite, an infinity, or NaN. */
  datatype Float = Finite(r: real) | PosInf | NegInf | NaN

  datatype Vector2 = Vector2(x: Float, y: Float)

  /** Vector2.kEpsilon. */
  const Epsilon: real := 0.00001

  /** Vector2.negativeInfinity. */
  const NegativeInfinity: Vector2 := Vector2(NegInf, NegInf)

  function Sub(a: Float, b: Float): Float
  {
    match (a, b)
    case (Finite(x), Finite(y)) => Finite(x - y)
    case (NaN, _) => NaN
    case (_, NaN) => NaN
    case (PosInf, PosInf) => NaN
    case (NegInf, NegInf) => NaN
    case (PosInf, _) => PosInf
    case (NegInf, _) => NegInf
    case (Finite(_), PosInf) => NegInf
    case (Finite(_), NegInf) => PosInf
  }

  function Add(a: Float, b: Float): Float
  {
    match (a, b)
    case (Finite(x), Finite(y)) => Finite(x + y)
    case (NaN, _) => NaN
    case (_, NaN) => NaN
    case (PosInf, NegInf) => NaN
    case (NegInf, PosInf) => NaN
    case (PosInf, _) => PosInf
    case (_, PosInf) => PosInf
    case (NegInf, _) => NegInf
    case (_, NegInf) => NegInf
  }

  function Square(a: Float): Float
  {
    match a
    case Finite(x) => Finite(x * x)
    case NaN => NaN
    case _ => PosInf
  }

  /** `<` on floats: false whenever either side is NaN. */
  predicate Less(a: Float, b: Float)
  {
    match (a, b)
    case (NaN, _) => false
    case (_, NaN) => false
    case (Finite(x), Finite(y)) => x < y
    case (NegInf, NegInf) => false
    case (NegInf, _) => true
    case (PosInf, _) => false
    case (Finite(_), PosInf) => true
    case (Finite(_), NegInf) => false
  }

  /** Vector2's `==` operator. */
  predicate VectorEquals(a: Vector2, b: Vector2)
  {
    Less(Add(Square(Sub(a.x, b.x)), Square(Sub(a.y, b.y))), Finite(Epsilon * Epsilon))
  }

  /** negativeInfinity is not `==` to itself: its difference with itself is NaN. */
  lemma SentinelUnequalToItself()
    ensures Sub(NegInf, NegInf) == NaN
    ensures !VectorEquals(NegativeInfinity, NegativeInfinity)
  {
  }

  /** A finite vector is `==` to itself and never `==` to negativeInfinity. */
  lemma FiniteComparisons(x: real, y: real)
    ensures VectorEquals(Vector2(Finite(x), Finite(y)), Vector2(Finite(x), Finite(y)))
    ensures !VectorEquals(Vector2(Finite(x), Finite(y)), NegativeInfinity)
  {
  }
}
