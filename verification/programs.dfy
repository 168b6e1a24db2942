/**
 * Worked examples of the parser class, the evaluator and the printer on small
 * programs, each proved from the general results rather than computed.
 */
module Programs {

  import opened Wrappers
  import opened Literals
  import opened Tokens
  import opened Errors
  import opened Exprs
  import opened Parser
  import opened ParserProperties
  import opened ParserSoundness
  import opened Interpreter
  import opened AstPrinter

  function NumberToken(n: real, lexeme: string): Token
  {
    Token(Number, lexeme, Some(Num(n)), 1)
  }

  function NumberNode(n: real): Expr
  {
    Literal(Some(Num(n)))
  }

  const PlusToken: Token := Token(Plus, "+", None, 1)
  const MinusToken: Token := Token(Minus, "-", None, 1)
  const StarToken: Token := Token(Star, "*", None, 1)
  const BangToken: Token := Token(Bang, "!", None, 1)

  /** `1 + 2 * 3`. */
  const SumOfProductTokens: seq<Token> :=
    [NumberToken(1.0, "1"), PlusToken, NumberToken(2.0, "2"), StarToken, NumberToken(3.0, "3"), EofToken(1)]

  /** The product binds tighter than the sum. */
  function SumOfProductTree(): Expr
  {
    Binary(NumberNode(1.0), PlusToken, Binary(NumberNode(2.0), StarToken, NumberNode(3.0)))
  }

  lemma SumOfProductParses()
    ensures WellFormed(SumOfProductTokens)
    ensures ParseExpression(SumOfProductTokens, 0) == Step(Ok(SumOfProductTree()), 5)
  {
    ParseExpressionCharacterised(SumOfProductTokens, 0, SumOfProductTree(), 5);
  }

  method ParseSumOfProduct() returns (r: Result<Expr>)
    ensures r == Ok(SumOfProductTree())
  {
    SumOfProductParses();
    var parser := new Parser(SumOfProductTokens);
    r := parser.Expression();
  }

  /** `1 - 2 - 3`. */
  const DifferencesTokens: seq<Token> :=
    [NumberToken(1.0, "1"), MinusToken, NumberToken(2.0, "2"), MinusToken, NumberToken(3.0, "3"), EofToken(1)]

  /** Operators of one level fold to the left. */
  function DifferencesTree(): Expr
  {
    Binary(Binary(NumberNode(1.0), MinusToken, NumberNode(2.0)), MinusToken, NumberNode(3.0))
  }

  lemma DifferencesParse()
    ensures WellFormed(DifferencesTokens)
    ensures ParseExpression(DifferencesTokens, 0) == Step(Ok(DifferencesTree()), 5)
  {
    ParseExpressionCharacterised(DifferencesTokens, 0, DifferencesTree(), 5);
  }

  method ParseDifferences() returns (r: Result<Expr>)
    ensures r == Ok(DifferencesTree())
  {
    DifferencesParse();
    var parser := new Parser(DifferencesTokens);
    r := parser.Expression();
  }

  /** `- ! true`. */
  const PrefixesTokens: seq<Token> := [MinusToken, BangToken, Token(True, "true", Some(Bool(true)), 1), EofToken(1)]

  /** Prefix operators nest to the right. */
  function PrefixesTree(): Expr
  {
    Unary(MinusToken, Unary(BangToken, Literal(Some(Bool(true)))))
  }

  lemma PrefixesParse()
    ensures WellFormed(PrefixesTokens)
    ensures ParseExpression(PrefixesTokens, 0) == Step(Ok(PrefixesTree()), 3)
  {
    ParseExpressionCharacterised(PrefixesTokens, 0, PrefixesTree(), 3);
  }

  method ParsePrefixes() returns (r: Result<Expr>)
    ensures r == Ok(PrefixesTree())
  {
    PrefixesParse();
    var parser := new Parser(PrefixesTokens);
    r := parser.Expression();
  }

  /** `(1 + 2) * 3`. */
  const GroupedSumTokens: seq<Token> :=
    [Token(LeftParen, "(", None, 1), NumberToken(1.0, "1"), PlusToken, NumberToken(2.0, "2"),
     Token(RightParen, ")", None, 1), StarToken, NumberToken(3.0, "3"), EofToken(1)]

  /** Parentheses override precedence and stay in the tree. */
  function GroupedSumTree(): Expr
  {
    Binary(Grouping(Binary(NumberNode(1.0), PlusToken, NumberNode(2.0))), StarToken, NumberNode(3.0))
  }

  lemma GroupedSumSpelling()
    ensures Spells(GroupedSumTokens, 0, GroupedSumTree())
  {
    var sum := Binary(NumberNode(1.0), PlusToken, NumberNode(2.0));
    assert Spells(GroupedSumTokens, 1, sum);
    assert Spells(GroupedSumTokens, 0, Grouping(sum));
  }

  lemma GroupedSumParses()
    ensures WellFormed(GroupedSumTokens)
    ensures ParseExpression(GroupedSumTokens, 0) == Step(Ok(GroupedSumTree()), 7)
  {
    GroupedSumSpelling();
    ParseExpressionCharacterised(GroupedSumTokens, 0, GroupedSumTree(), 7);
  }

  method ParseGroupedSum() returns (r: Result<Expr>)
    ensures r == Ok(GroupedSumTree())
  {
    GroupedSumParses();
    var parser := new Parser(GroupedSumTokens);
    r := parser.Expression();
  }

  /** `(1` on line 1, then the end of input on line 2. */
  const Unclosed: seq<Token> := [Token(LeftParen, "(", None, 1), NumberToken(1.0, "1"), EofToken(2)]

  lemma UnclosedPrimary()
    ensures WellFormed(Unclosed)
    ensures ParsePrimary(Unclosed, 0) == Step(Err(Error(2, MissingParen)), 2)
  {
    ParseExpressionCharacterised(Unclosed, 1, NumberNode(1.0), 2);
  }

  /** The error of `primary` passes unchanged through every level above it. */
  lemma UnclosedExpression()
    ensures WellFormed(Unclosed)
    ensures ParseExpression(Unclosed, 0) == Step(Err(Error(2, MissingParen)), 2)
  {
    UnclosedPrimary();
    FactorOperands(Unclosed, 0);
    LevelStarts(FactorLevel, Unclosed, 0);
    TighterOperands(TermLevel, Unclosed, 0);
    LevelStarts(TermLevel, Unclosed, 0);
    TighterOperands(ComparisonLevel, Unclosed, 0);
    LevelStarts(ComparisonLevel, Unclosed, 0);
    TighterOperands(EqualityLevel, Unclosed, 0);
    LevelStarts(EqualityLevel, Unclosed, 0);
  }

  /** The missing `)` is reported at the line of the token found in its place, here the end of input. */
  method ParseUnclosed() returns (r: Result<Expr>)
    ensures r == Err(Error(2, MissingParen))
  {
    UnclosedExpression();
    var parser := new Parser(Unclosed);
    r := parser.Expression();
  }

  lemma ProductText(show: Literal -> string)
    requires show(Num(2.0)) == "2" && show(Num(3.0)) == "3"
    ensures Printed(show, Binary(NumberNode(2.0), StarToken, NumberNode(3.0))) == "(* 2 3)"
  {
    BinaryText(show, NumberNode(2.0), StarToken, NumberNode(3.0));
    assert "(" + "*" + " " + "2" + " " + "3" + ")" == "(* 2 3)";
  }

  lemma SumOfProductText(show: Literal -> string)
    requires show(Num(1.0)) == "1" && show(Num(2.0)) == "2" && show(Num(3.0)) == "3"
    ensures Printed(show, SumOfProductTree()) == "(+ 1 (* 2 3))"
  {
    ProductText(show);
    BinaryText(show, NumberNode(1.0), PlusToken, Binary(NumberNode(2.0), StarToken, NumberNode(3.0)));
    assert "(" + "+" + " " + "1" + " " + "(* 2 3)" + ")" == "(+ 1 (* 2 3))";
  }

  /** An empty program, only the end of input: nothing to parse. */
  method ParseNothing(line: nat) returns (r: Result<Expr>)
    ensures r == Err(Error(0, ExpectedExpression))
  {
    NothingToParse([EofToken(line)], 0);
    var parser := new Parser([EofToken(line)]);
    r := parser.Expression();
  }

  /** `1 + 2 * 3` evaluates to 7 and prints as `(+ 1 (* 2 3))`. */
  method SumOfProduct(f: F64, show: Literal -> string) returns (value: Result<Literal>, text: Result<string>)
    requires show(Num(1.0)) == "1" && show(Num(2.0)) == "2" && show(Num(3.0)) == "3"
    ensures value == Ok(Num(7.0))
    ensures text == Ok("(+ 1 (* 2 3))")
  {
    var e := ParseSumOfProduct();
    SumOfProductText(show);
    value := Evaluate(e.value, f);
    text := AstPrinter.Print(show, e.value);
  }

}
