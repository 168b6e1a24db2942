/**
 * The dynamically typed value of the language (`Literal` in src/literal.rs),
 * with the internal `ArithmeticError` sentinel that the evaluator uses to
 * signal an operand/operator combination it does not define.
 */
module Literals {

  /** `Num` is an `f64` in the source; here it is an exact real number. */
  datatype Literal =
    | Num(n: real)
    | Str(s: string)
    | Bool(b: bool)
    | Nil
    | ArithmeticError

  /**
   * The parts of Rust's `f64` that the model does not define: what a division
   * by zero yields (an infinity or NaN), and the decimal text `format!`
   * produces for a number. Callers supply them.
   */
  datatype F64 = F64(quotientByZero: real -> real, display: real -> string)

  /** `a / b` on numbers; a zero divisor is left to the platform. */
  function Divide(f: F64, a: real, b: real): (q: real)
    ensures b != 0.0 ==> q * b == a
  {
    if b != 0.0 then a / b else f.quotientByZero(a)
  }

}
