/**
 * The tree-walking evaluator of src/interpreter.rs. The `Interpreter`
 * struct has no fields, so each visitor method is a function; dispatch
 * through `accept` is a `match` in `Evaluate`.
 */
module Interpreter {

  import opened Wrappers
  import opened Literals
  import opened Tokens
  import opened Errors
  import opened Exprs

  const IllegalExpression: string := "Illegal expression"
  const UnreachableUnary: string := "Unreachable in struct Interpreter's method visit_unary_expr()"

  /** `false` and `nil` are falsey; every other value is truthy. */
  function IsTruthy(l: Literal): (truthy: bool)
    ensures l.Bool? ==> (truthy <==> l.b)
    ensures l.Nil? ==> !truthy
    ensures !l.Bool? && !l.Nil? ==> truthy
  {
    !(l == Bool(false) || l == Literal.Nil)
  }

  /**
   * The case table over the operand pair and the operator. A combination it
   * does not list gives the `ArithmeticError` sentinel. The arms are tried in
   * order, so `Nil` on the left of anything is handled, while `Nil` on the
   * right of a non-`Nil` value falls into the last arm.
   */
  function Operate(left: Literal, op: TokenType, right: Literal, f: F64): (r: Literal)
    ensures !r.Nil?
    ensures r.Num? ==> left.Num? && right.Num? && op in {Plus, Minus, Star, Slash}
    ensures r.Str? ==> op == Plus && ((left.Str? && (right.Str? || right.Num?)) || (left.Num? && right.Str?))
    ensures r.Bool? ==> op in {Greater, GreaterEqual, Less, LessEqual, BangEqual, EqualEqual}
    ensures r.Bool? && op in {Greater, GreaterEqual, Less, LessEqual} ==> left.Num? && right.Num?
  {
    match (left, right)
    case (Num(a), Num(b)) =>
      (match op
       case Plus => Num(a + b)
       case Minus => Num(a - b)
       case Star => Num(a * b)
       case Slash => Num(Divide(f, a, b))
       case Greater => Bool(a > b)
       case GreaterEqual => Bool(a >= b)
       case Less => Bool(a < b)
       case LessEqual => Bool(a <= b)
       case BangEqual => Bool(a != b)
       case EqualEqual => Bool(a == b)
       case _ => ArithmeticError)
    case (Str(a), Str(b)) =>
      (match op
       case Plus => Str(a + b)
       case EqualEqual => Bool(a == b)
       case BangEqual => Bool(a != b)
       case _ => ArithmeticError)
    case (Num(a), Str(b)) =>
      (match op
       case Plus => Str(f.display(a) + b)
       case EqualEqual => Bool(false)
       case BangEqual => Bool(true)
       case _ => ArithmeticError)
    case (Str(a), Num(b)) =>
      (match op
       case Plus => Str(a + f.display(b))
       case EqualEqual => Bool(false)
       case BangEqual => Bool(true)
       case _ => ArithmeticError)
    case (Bool(a), Bool(b)) =>
      (match op
       case EqualEqual => Bool(a == b)
       case BangEqual => Bool(a != b)
       case _ => ArithmeticError)
    case (Nil, Nil) =>
      (match op
       case EqualEqual => Bool(true)
       case BangEqual => Bool(false)
       case _ => ArithmeticError)
    case (Nil, _) =>
      (match op
       case EqualEqual => Bool(false)
       case BangEqual => Bool(true)
       case _ => ArithmeticError)
    case _ => ArithmeticError
  }

  /** The combination step of `visit_binary_expr`: the sentinel becomes an error at the operator's line. */
  function CombineBinary(left: Literal, operator: Token, right: Literal, f: F64): (r: Result<Literal>)
    ensures r.Ok? ==> r.value != ArithmeticError
    ensures r.Err? ==> r.error == Error(operator.line, IllegalExpression)
  {
    var result := Operate(left, operator.ttype, right, f);
    if result == ArithmeticError then Err(Error(operator.line, IllegalExpression)) else Ok(result)
  }

  /** The combination step of `visit_unary_expr`. */
  function CombineUnary(operator: Token, right: Literal): (r: Result<Literal>)
    ensures r.Ok? ==> r.value != ArithmeticError
    ensures r.Err? <==> operator.ttype !in {Minus, Bang}
  {
    match operator.ttype
    case Minus => (match right
                   case Num(v) => Ok(Num(-v))
                   case _ => Ok(Literal.Nil))
    case Bang => Ok(Bool(!IsTruthy(right)))
    case _ => Err(Error(0, UnreachableUnary))
  }

  /** The evaluator's failures: an illegal operation at some binary operator's line, or the unreachable unary case. */
  predicate Diagnosed(e: Expr, err: JialoxError)
  {
    err == Error(0, UnreachableUnary)
    || (err.message == IllegalExpression && err.token == None && err.line in BinaryOperatorLines(e))
  }

  /**
   * `evaluate`: dispatch on the node. A literal node must carry a value:
   * the source unwraps it.
   */
  function Evaluate(e: Expr, f: F64): (r: Result<Literal>)
    requires HasValues(e)
    ensures r.Err? ==> Diagnosed(e, r.error)
    ensures r.Ok? && NoSentinel(e) ==> r.value != ArithmeticError
    decreases e, 1
  {
    match e
    case Binary(_, _, _) => VisitBinary(e, f)
    case Grouping(_) => VisitGrouping(e, f)
    case Literal(_) => VisitLiteral(e)
    case Unary(_, _) => VisitUnary(e, f)
  }

  /** `visit_binary_expr`: the left operand first, then the right, then the case table. */
  function VisitBinary(e: Expr, f: F64): (r: Result<Literal>)
    requires e.Binary? && HasValues(e)
    ensures r.Err? ==> Diagnosed(e, r.error)
    ensures r.Ok? && NoSentinel(e) ==> r.value != ArithmeticError
    decreases e, 0
  {
    var left :- Evaluate(e.left, f);
    var right :- Evaluate(e.right, f);
    CombineBinary(left, e.operator, right, f)
  }

  /** `visit_grouping_expr`: parentheses evaluate to their contents. */
  function VisitGrouping(e: Expr, f: F64): (r: Result<Literal>)
    requires e.Grouping? && HasValues(e)
    ensures r.Err? ==> Diagnosed(e, r.error)
    ensures r.Ok? && NoSentinel(e) ==> r.value != ArithmeticError
    decreases e, 0
  {
    Evaluate(e.expression, f)
  }

  /** `visit_literal_expr`: the stored value. */
  function VisitLiteral(e: Expr): (r: Result<Literal>)
    requires e.Literal? && HasValues(e)
    ensures r == Ok(e.value.value)
  {
    Ok(e.value.value)
  }

  /** `visit_unary_expr`: the operand, then the operator. */
  function VisitUnary(e: Expr, f: F64): (r: Result<Literal>)
    requires e.Unary? && HasValues(e)
    ensures r.Err? ==> Diagnosed(e, r.error)
    ensures r.Ok? ==> r.value != ArithmeticError
    decreases e, 0
  {
    var right :- Evaluate(e.right, f);
    CombineUnary(e.operator, right)
  }

}
