/** JavaScript numbers as the list pages use them after `Number(text)`: a finite value, the two
    infinities, or NaN. Finite values are reals: double rounding is not modelled. */
module JsNumbers {

  datatype JsNumber = Finite(value: real) | PosInf | NegInf | NaN

  function FromInt(n: int): JsNumber { Finite(n as real) }

  /** `Number.isFinite`. */
  predicate IsFinite(x: JsNumber) { x.Finite? }

  /** `Number.isInteger`: finite and without a fractional part. */
  predicate IsInteger(x: JsNumber) { x.Finite? && x.value.Floor as real == x.value }

  /** JavaScript truthiness of a number: 0 and NaN are falsy. */
  predicate Truthy(x: JsNumber) { x != Finite(0.0) && !x.NaN? }

  /** `a < b`; every comparison with NaN is false. */
  predicate Less(a: JsNumber, b: JsNumber)
  {
    match (a, b)
    case (NaN, _) => false
    case (_, NaN) => false
    case (PosInf, _) => false
    case (NegInf, _) => b != NegInf
    case (Finite(_), PosInf) => true
    case (Finite(_), NegInf) => false
    case (Finite(x), Finite(y)) => x < y
  }

  /** `a > b`. */
  predicate Greater(a: JsNumber, b: JsNumber) { Less(b, a) }

  /** `a <= b`: false when either side is NaN. */
  predicate LessOrEqual(a: JsNumber, b: JsNumber) { !a.NaN? && !b.NaN? && !Less(b, a) }

  /** `a + b`. */
  function Add(a: JsNumber, b: JsNumber): JsNumber
  {
    match (a, b)
    case (NaN, _) => NaN
    case (_, NaN) => NaN
    case (PosInf, NegInf) => NaN
    case (NegInf, PosInf) => NaN
    case (PosInf, _) => PosInf
    case (NegInf, _) => NegInf
    case (Finite(_), PosInf) => PosInf
    case (Finite(_), NegInf) => NegInf
    case (Finite(x), Finite(y)) => Finite(x + y)
  }

  function Negate(a: JsNumber): JsNumber
  {
    match a
    case Finite(x) => Finite(-x)
    case PosInf => NegInf
    case NegInf => PosInf
    case NaN => NaN
  }

  /** `a - b`. */
  function Sub(a: JsNumber, b: JsNumber): JsNumber { Add(a, Negate(b)) }

  /** `Math.max(0, x)`: NaN stays NaN. */
  function MaxZero(x: JsNumber): JsNumber
  {
    match x
    case NaN => NaN
    case NegInf => Finite(0.0)
    case PosInf => PosInf
    case Finite(v) => if v < 0.0 then Finite(0.0) else x
  }

  /** `Math.max(0, x)` is never below zero, and is exactly x when x is not below zero. */
  lemma MaxZeroNeverNegative(x: JsNumber)
    ensures !Less(MaxZero(x), Finite(0.0))
    ensures MaxZero(x).NaN? <==> x.NaN?
    ensures !x.NaN? && !Less(x, Finite(0.0)) ==> MaxZero(x) == x
  {
  }

  /** On integers, the JavaScript operations agree with integer arithmetic. */
  lemma IntegerArithmetic(a: int, b: int)
    ensures Add(FromInt(a), FromInt(b)) == FromInt(a + b)
    ensures Sub(FromInt(a), FromInt(b)) == FromInt(a - b)
    ensures MaxZero(FromInt(a)) == FromInt(if a < 0 then 0 else a)
    ensures Less(FromInt(a), FromInt(b)) <==> a < b
    ensures IsInteger(FromInt(a))
  {
  }
}
