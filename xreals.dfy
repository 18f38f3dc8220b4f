/**
 * Java `double` values as exact reals extended with the IEEE 754 infinities and NaN.
 * Rounding is not modelled: a finite value is an exact real number.
 */
module XReals {

  datatype XReal = NegInf | Fin(r: real) | PosInf | NaN

  /** IEEE 754 addition: opposite infinities give NaN, NaN is absorbing. */
  function Add(a: XReal, b: XReal): (c: XReal)
    ensures a.Fin? && b.Fin? ==> c == Fin(a.r + b.r)
    ensures c.NaN? <==> (a.NaN? || b.NaN? || (a.PosInf? && b.NegInf?) || (a.NegInf? && b.PosInf?))
  {
    match (a, b)
    case (NaN, _) => NaN
    case (_, NaN) => NaN
    case (PosInf, NegInf) => NaN
    case (NegInf, PosInf) => NaN
    case (PosInf, _) => PosInf
    case (_, PosInf) => PosInf
    case (NegInf, _) => NegInf
    case (_, NegInf) => NegInf
    case (Fin(x), Fin(y)) => Fin(x + y)
  }

  lemma AddCommutes(a: XReal, b: XReal)
    ensures Add(a, b) == Add(b, a)
  {
  }

  function Neg(a: XReal): XReal {
    match a
    case NegInf => PosInf
    case PosInf => NegInf
    case Fin(x) => Fin(-x)
    case NaN => NaN
  }

  function Sub(a: XReal, b: XReal): XReal {
    Add(a, Neg(b))
  }

  /** IEEE 754 multiplication by a finite factor: zero times an infinity is NaN. */
  function Scale(a: XReal, k: real): (c: XReal)
    ensures a.Fin? ==> c == Fin(a.r * k)
    ensures k > 0.0 ==> c.Fin? == a.Fin? && c.PosInf? == a.PosInf? && c.NegInf? == a.NegInf?
  {
    if a.Fin? then Fin(a.r * k)
    else if a.NaN? || k == 0.0 then NaN
    else if (k > 0.0) == a.PosInf? then PosInf
    else NegInf
  }

  /**
   * IEEE 754 division of two finite values: a non-zero value divided by (positive) zero is
   * an infinity of its sign and 0/0 is NaN. Signed zero is not modelled.
   */
  function Div(x: real, y: real): (c: XReal)
    ensures y != 0.0 ==> c == Fin(x / y)
    ensures y == 0.0 ==> (c.NaN? <==> x == 0.0)
  {
    if y != 0.0 then Fin(x / y)
    else if x > 0.0 then PosInf
    else if x < 0.0 then NegInf
    else NaN
  }

  /** Java's `<` on doubles: false whenever an operand is NaN. */
  predicate Lt(a: XReal, b: XReal) {
    match (a, b)
    case (NaN, _) => false
    case (_, NaN) => false
    case (Fin(x), Fin(y)) => x < y
    case (NegInf, NegInf) => false
    case (NegInf, _) => true
    case (PosInf, _) => false
    case (Fin(_), PosInf) => true
    case (Fin(_), NegInf) => false
  }

  /** Java's `<=` on doubles: false whenever an operand is NaN. */
  predicate Le(a: XReal, b: XReal) {
    Lt(a, b) || (a == b && !a.NaN?)
  }

  /** `<` and `<=` are the extended real order away from NaN. */
  lemma LtIsStrictOrder(a: XReal, b: XReal, c: XReal)
    ensures !Lt(a, a)
    ensures Lt(a, b) && Lt(b, c) ==> Lt(a, c)
    ensures Le(a, b) && Le(b, c) ==> Le(a, c)
    ensures !a.NaN? && !b.NaN? ==> (Lt(a, b) || a == b || Lt(b, a))
  {
  }
}
