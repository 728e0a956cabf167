/**
 * JavaScript numbers, without rounding: a finite value is an exact real.
 * The sign of zero is not represented (every zero is +0), so a division by
 * zero yields the infinity whose sign is that of the dividend.
 */
module JsNumber {

  datatype Num = NaN | Finite(value: real) | Infinity(negative: bool)

  /** `Number.isFinite`. */
  predicate IsFinite(n: Num) {
    n.Finite?
  }

  /** `Number.isNaN`. */
  predicate IsNaN(n: Num) {
    n.NaN?
  }

  /** `a * b`. */
  function Mul(a: Num, b: Num): Num {
    match (a, b)
    case (NaN, _) => NaN
    case (_, NaN) => NaN
    case (Finite(x), Finite(y)) => Finite(x * y)
    case (Infinity(n), Finite(y)) => if y == 0.0 then NaN else Infinity(n != (y < 0.0))
    case (Finite(x), Infinity(n)) => if x == 0.0 then NaN else Infinity(n != (x < 0.0))
    case (Infinity(n), Infinity(m)) => Infinity(n != m)
  }

  /** `a / b`. */
  function Div(a: Num, b: Num): Num {
    match (a, b)
    case (NaN, _) => NaN
    case (_, NaN) => NaN
    case (Finite(x), Finite(y)) =>
      if y != 0.0 then Finite(x / y)
      else if x == 0.0 then NaN
      else Infinity(x < 0.0)
    case (Finite(_), Infinity(_)) => Finite(0.0)
    case (Infinity(n), Finite(y)) => Infinity(n != (y < 0.0))
    case (Infinity(_), Infinity(_)) => NaN
  }
}
