/** What the evaluator's case table and its recursion promise, stated over all inputs. */
module InterpreterProperties {

  import opened Wrappers
  import opened Literals
  import opened Tokens
  import opened Errors
  import opened Exprs
  import opened Interpreter

  const ArithmeticOperators: set<TokenType> := {Plus, Minus, Star, Slash}
  const ComparisonOperators: set<TokenType> := {Greater, GreaterEqual, Less, LessEqual}
  const EqualityOperators: set<TokenType> := {EqualEqual, BangEqual}

  /**
   * Which operand pairs each operator is defined on, written as a list of
   * cases rather than as the evaluator's ordered match.
   */
  predicate Defined(left: Literal, op: TokenType, right: Literal)
  {
    || (left.Num? && right.Num? && op in ArithmeticOperators + ComparisonOperators + EqualityOperators)
    || (left.Str? && right.Str? && op in {Plus} + EqualityOperators)
    || (left.Num? && right.Str? && op in {Plus} + EqualityOperators)
    || (left.Str? && right.Num? && op in {Plus} + EqualityOperators)
    || (left.Bool? && right.Bool? && op in EqualityOperators)
    || (left.Nil? && op in EqualityOperators)
  }

  /** A binary operation fails exactly on the combinations the table leaves out, always with "Illegal expression" at the operator's line. */
  lemma IllegalExactlyWhenUndefined(left: Literal, operator: Token, right: Literal, f: F64)
    ensures CombineBinary(left, operator, right, f).Err? <==> !Defined(left, operator.ttype, right)
    ensures !Defined(left, operator.ttype, right) ==>
              CombineBinary(left, operator, right, f) == Err(Error(operator.line, IllegalExpression))
  {
  }

  /** Two numbers: arithmetic gives a number, comparison a boolean. */
  lemma NumberOperands(a: real, operator: Token, b: real, f: F64)
    ensures var r := CombineBinary(Num(a), operator, Num(b), f);
      && (operator.ttype == Plus ==> r == Ok(Num(a + b)))
      && (operator.ttype == Minus ==> r == Ok(Num(a - b)))
      && (operator.ttype == Star ==> r == Ok(Num(a * b)))
      && (operator.ttype == Slash && b != 0.0 ==> r == Ok(Num(a / b)))
      && (operator.ttype == Greater ==> r == Ok(Bool(a > b)))
      && (operator.ttype == GreaterEqual ==> r == Ok(Bool(a >= b)))
      && (operator.ttype == Less ==> r == Ok(Bool(a < b)))
      && (operator.ttype == LessEqual ==> r == Ok(Bool(a <= b)))
      && (operator.ttype == EqualEqual ==> r == Ok(Bool(a == b)))
      && (operator.ttype == BangEqual ==> r == Ok(Bool(a != b)))
      && (operator.ttype !in ArithmeticOperators + ComparisonOperators + EqualityOperators ==>
            r == Err(Error(operator.line, IllegalExpression)))
  {
    if operator.ttype == Star {
      assert Operate(Num(a), Star, Num(b), f) == Num(a * b);
    }
  }

  /** Two strings: `+` concatenates, `==`/`!=` compare, anything else fails. */
  lemma StringOperands(a: string, operator: Token, b: string, f: F64)
    ensures var r := CombineBinary(Str(a), operator, Str(b), f);
      && (operator.ttype == Plus ==> r == Ok(Str(a + b)))
      && (operator.ttype == EqualEqual ==> r == Ok(Bool(a == b)))
      && (operator.ttype == BangEqual ==> r == Ok(Bool(a != b)))
      && (operator.ttype !in {Plus, EqualEqual, BangEqual} ==> r == Err(Error(operator.line, IllegalExpression)))
  {
  }

  /** A number and a string, in either order: `+` joins their texts, they are never equal, anything else fails. */
  lemma MixedOperands(n: real, operator: Token, s: string, f: F64)
    ensures var r := CombineBinary(Num(n), operator, Str(s), f);
      && (operator.ttype == Plus ==> r == Ok(Str(f.display(n) + s)))
      && (operator.ttype == EqualEqual ==> r == Ok(Bool(false)))
      && (operator.ttype == BangEqual ==> r == Ok(Bool(true)))
      && (operator.ttype !in {Plus, EqualEqual, BangEqual} ==> r == Err(Error(operator.line, IllegalExpression)))
    ensures var r := CombineBinary(Str(s), operator, Num(n), f);
      && (operator.ttype == Plus ==> r == Ok(Str(s + f.display(n))))
      && (operator.ttype == EqualEqual ==> r == Ok(Bool(false)))
      && (operator.ttype == BangEqual ==> r == Ok(Bool(true)))
      && (operator.ttype !in {Plus, EqualEqual, BangEqual} ==> r == Err(Error(operator.line, IllegalExpression)))
  {
  }

  /** Two booleans support only `==` and `!=`; two `nil`s are equal. */
  lemma BoolAndNilOperands(a: bool, operator: Token, b: bool, f: F64)
    ensures var r := CombineBinary(Bool(a), operator, Bool(b), f);
      && (operator.ttype == EqualEqual ==> r == Ok(Bool(a == b)))
      && (operator.ttype == BangEqual ==> r == Ok(Bool(a != b)))
      && (operator.ttype !in EqualityOperators ==> r == Err(Error(operator.line, IllegalExpression)))
    ensures var r := CombineBinary(Literal.Nil, operator, Literal.Nil, f);
      && (operator.ttype == EqualEqual ==> r == Ok(Bool(true)))
      && (operator.ttype == BangEqual ==> r == Ok(Bool(false)))
      && (operator.ttype !in EqualityOperators ==> r == Err(Error(operator.line, IllegalExpression)))
  {
  }

  /**
   * `nil` on the left of any other value compares unequal, but a non-`nil`
   * value on the left of `nil` is an illegal expression for every operator.
   */
  lemma NilAsymmetry(v: Literal, operator: Token, f: F64)
    requires v != Literal.Nil
    ensures operator.ttype == EqualEqual ==> CombineBinary(Literal.Nil, operator, v, f) == Ok(Bool(false))
    ensures operator.ttype == BangEqual ==> CombineBinary(Literal.Nil, operator, v, f) == Ok(Bool(true))
    ensures operator.ttype !in EqualityOperators ==>
              CombineBinary(Literal.Nil, operator, v, f) == Err(Error(operator.line, IllegalExpression))
    ensures CombineBinary(v, operator, Literal.Nil, f) == Err(Error(operator.line, IllegalExpression))
  {
  }

  /** Where `==` is defined it is structural equality of the two values. */
  lemma EqualityIsStructural(left: Literal, operator: Token, right: Literal, f: F64)
    requires operator.ttype == EqualEqual
    requires CombineBinary(left, operator, right, f).Ok?
    ensures CombineBinary(left, operator, right, f) == Ok(Bool(left == right))
  {
  }

  /** `!=` is defined on exactly the pairs `==` is, and gives the opposite answer. */
  lemma InequalityNegatesEquality(left: Literal, eq: Token, ne: Token, right: Literal, f: F64)
    requires eq.ttype == EqualEqual && ne.ttype == BangEqual
    ensures CombineBinary(left, eq, right, f).Ok? <==> CombineBinary(left, ne, right, f).Ok?
    ensures CombineBinary(left, eq, right, f).Ok? ==>
              exists b: bool :: CombineBinary(left, eq, right, f) == Ok(Bool(b))
                                && CombineBinary(left, ne, right, f) == Ok(Bool(!b))
  {
    if CombineBinary(left, eq, right, f).Ok? {
      var b := left == right;
      assert CombineBinary(left, eq, right, f) == Ok(Bool(b));
    }
  }

  /** Unary `-` negates a number and turns anything else into `nil`; `!` is the negated truthiness; other operators fail at line 0. */
  lemma UnaryOperators(operator: Token, v: Literal)
    ensures operator.ttype == Minus ==> CombineUnary(operator, v) == (if v.Num? then Ok(Num(-v.n)) else Ok(Literal.Nil))
    ensures operator.ttype == Bang ==> CombineUnary(operator, v) == Ok(Bool(!IsTruthy(v)))
    ensures operator.ttype !in {Minus, Bang} ==> CombineUnary(operator, v) == Err(Error(0, UnreachableUnary))
  {
  }

  /** Only `false` and `nil` are falsey: `0` and the empty string are truthy. */
  lemma Truthiness(v: Literal)
    ensures !IsTruthy(v) <==> v == Bool(false) || v == Literal.Nil
    ensures IsTruthy(Num(0.0)) && IsTruthy(Str(""))
  {
  }

  /** A binary node evaluates its left operand first; its failure wins, then the right's, then the case table. */
  lemma BinaryEvaluationOrder(l: Expr, operator: Token, r: Expr, f: F64)
    requires HasValues(l) && HasValues(r)
    ensures Evaluate(l, f).Err? ==> Evaluate(Binary(l, operator, r), f) == Evaluate(l, f)
    ensures Evaluate(l, f).Ok? && Evaluate(r, f).Err? ==> Evaluate(Binary(l, operator, r), f) == Evaluate(r, f)
    ensures Evaluate(l, f).Ok? && Evaluate(r, f).Ok? ==>
              Evaluate(Binary(l, operator, r), f) == CombineBinary(Evaluate(l, f).value, operator, Evaluate(r, f).value, f)
  {
  }

  /** Grouping is transparent, a literal gives its value, a unary node applies its operator to its operand's value. */
  lemma NodeEvaluation(x: Expr, operator: Token, v: Literal, f: F64)
    requires HasValues(x)
    ensures Evaluate(Grouping(x), f) == Evaluate(x, f)
    ensures Evaluate(Literal(Some(v)), f) == Ok(v)
    ensures Evaluate(Unary(operator, x), f) ==
              if Evaluate(x, f).Err? then Evaluate(x, f) else CombineUnary(operator, Evaluate(x, f).value)
  {
  }

  /** The tree with every grouping node removed. */
  function StripGroupings(e: Expr): (s: Expr)
    ensures HasValues(e) ==> HasValues(s)
  {
    match e
    case Binary(l, op, r) => Binary(StripGroupings(l), op, StripGroupings(r))
    case Grouping(x) => StripGroupings(x)
    case Literal(v) => Literal(v)
    case Unary(op, x) => Unary(op, StripGroupings(x))
  }

  /** Parentheses have no meaning beyond the shape of the tree: removing them changes no result. */
  lemma {:induction false} GroupingsDoNotMatter(e: Expr, f: F64)
    requires HasValues(e)
    ensures Evaluate(StripGroupings(e), f) == Evaluate(e, f)
  {
    match e
    case Binary(l, op, r) =>
      GroupingsDoNotMatter(l, f);
      GroupingsDoNotMatter(r, f);
    case Grouping(x) =>
      GroupingsDoNotMatter(x, f);
    case Literal(_) =>
    case Unary(op, x) =>
      GroupingsDoNotMatter(x, f);
  }

}
