/**
 * The expression tree. The source's generated `Expr` wraps each node in an
 * `Rc` and compares nodes by reference; here a node is a value and the
 * visitor's `accept` is a `match`.
 */
module Exprs {

  import opened Wrappers
  import opened Literals
  import opened Tokens

  datatype Expr =
    | Binary(left: Expr, operator: Token, right: Expr)
    | Grouping(expression: Expr)
    | Literal(value: Option<Literal>)
    | Unary(operator: Token, right: Expr)

  /** Every literal node carries a value (the evaluator unwraps it). */
  predicate HasValues(e: Expr)
  {
    match e
    case Binary(l, _, r) => HasValues(l) && HasValues(r)
    case Grouping(x) => HasValues(x)
    case Literal(v) => v.Some?
    case Unary(_, x) => HasValues(x)
  }

  /** No literal node holds the evaluator's internal sentinel. */
  predicate NoSentinel(e: Expr)
  {
    match e
    case Binary(l, _, r) => NoSentinel(l) && NoSentinel(r)
    case Grouping(x) => NoSentinel(x)
    case Literal(v) => v != Some(ArithmeticError)
    case Unary(_, x) => NoSentinel(x)
  }

  /** The lines of the binary operators in the tree. */
  function BinaryOperatorLines(e: Expr): set<nat>
  {
    match e
    case Binary(l, op, r) => BinaryOperatorLines(l) + {op.line} + BinaryOperatorLines(r)
    case Grouping(x) => BinaryOperatorLines(x)
    case Literal(_) => {}
    case Unary(_, x) => BinaryOperatorLines(x)
  }

}
