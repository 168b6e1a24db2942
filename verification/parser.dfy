/**
 * The recursive-descent parser of src/parser.rs.
 *
 * The functions below are the grammar read as functions of the token list
 * and a cursor position: each returns the parse result together with the
 * cursor position the parser is left at, also when it fails. The class
 * `Parser` is the source's parser, with its mutable cursor `current`; each
 * of its methods is proved to compute exactly what the function of the
 * same rule computes.
 */
module Parser {

  import opened Tokens
  import opened Errors
  import opened Exprs

  const MissingParen: string := "Expected ')' after expression."
  const ExpectedExpression: string := "Expected expression"

  /** What the scanner produces: at least one token, the last being `Eof`. */
  predicate WellFormed(tokens: seq<Token>)
  {
    |tokens| > 0 && tokens[|tokens| - 1].ttype == Eof
  }

  /** The four left-associative binary levels, loosest first. */
  datatype Level = EqualityLevel | ComparisonLevel | TermLevel | FactorLevel

  /** The operators each level folds. */
  function Operators(level: Level): seq<TokenType>
  {
    match level
    case EqualityLevel => [BangEqual, EqualEqual]
    case ComparisonLevel => [Greater, GreaterEqual, Less, LessEqual]
    case TermLevel => [Minus, Plus]
    case FactorLevel => [Slash, Star]
  }

  /** The level that parses a level's operands (the factor level's operands are unary expressions). */
  function Tighter(level: Level): Level
    requires !level.FactorLevel?
  {
    match level
    case EqualityLevel => ComparisonLevel
    case ComparisonLevel => TermLevel
    case TermLevel => FactorLevel
  }

  /** How loosely a level binds: 5 for equality down to 2 for factors (unary expressions are 1, primaries 0). */
  function Height(level: Level): nat
  {
    match level
    case EqualityLevel => 5
    case ComparisonLevel => 4
    case TermLevel => 3
    case FactorLevel => 2
  }

  const UnaryOperators: seq<TokenType> := [Bang, Minus]
  const LiteralTypes: seq<TokenType> := [True, False, TokenType.Nil, Number, String]

  /** `is_at_end`. */
  function AtEnd(tokens: seq<Token>, pos: nat): (b: bool)
    requires pos < |tokens|
    ensures WellFormed(tokens) && pos == |tokens| - 1 ==> b
  {
    Is(tokens[pos], Eof)
  }

  /** `check`: the current token has the given kind and is not the end of input. */
  function Check(tokens: seq<Token>, pos: nat, ttype: TokenType): (b: bool)
    requires pos < |tokens|
    ensures ttype == Eof ==> !b
    ensures b <==> ttype != Eof && tokens[pos].ttype == ttype
  {
    if AtEnd(tokens, pos) then false else Is(tokens[pos], ttype)
  }

  /** What `is_match` decides: the current token is not the end and its kind is listed. */
  function MatchesAny(tokens: seq<Token>, pos: nat, types: seq<TokenType>): (b: bool)
    requires pos < |tokens|
    ensures b ==> Check(tokens, pos, tokens[pos].ttype)
  {
    !AtEnd(tokens, pos) && tokens[pos].ttype in types
  }

  /** `is_match` tries `check` on each listed kind in turn: it matches exactly when one of those checks passes. */
  lemma MatchesAnySomeCheck(tokens: seq<Token>, pos: nat, types: seq<TokenType>)
    requires pos < |tokens|
    ensures MatchesAny(tokens, pos, types) <==> exists i :: 0 <= i < |types| && Check(tokens, pos, types[i])
  {
    if MatchesAny(tokens, pos, types) {
      var i :| 0 <= i < |types| && types[i] == tokens[pos].ttype;
      assert Check(tokens, pos, types[i]);
    }
  }

  /** A parse result and the cursor position after it. */
  datatype Step = Step(result: Result<Expr>, pos: nat)

  /**
   * The cursor never moves backward, stays on a token, and a successful
   * parse consumes at least one token.
   */
  predicate Progress(tokens: seq<Token>, pos: nat, s: Step)
  {
    pos <= s.pos < |tokens| && (s.result.Ok? ==> pos < s.pos)
  }

  /** Before the end of input there is always a next token. */
  lemma NotAtEndHasNext(tokens: seq<Token>, pos: nat)
    requires WellFormed(tokens) && pos < |tokens| && !AtEnd(tokens, pos)
    ensures pos + 1 < |tokens|
  {
  }

  /** `expression`. */
  function ParseExpression(tokens: seq<Token>, pos: nat): (s: Step)
    requires WellFormed(tokens) && pos < |tokens|
    ensures Progress(tokens, pos, s)
    decreases |tokens| - pos, 12
  {
    ParseLevel(EqualityLevel, tokens, pos)
  }

  /** `equality`, `comparison`, `term`, `factor`: one operand, then the folding loop. */
  function ParseLevel(level: Level, tokens: seq<Token>, pos: nat): (s: Step)
    requires WellFormed(tokens) && pos < |tokens|
    ensures Progress(tokens, pos, s)
    decreases |tokens| - pos, 2 * Height(level) + 1
  {
    var first := ParseOperand(level, tokens, pos);
    if first.result.Err? then first
    else ParseLoop(level, tokens, first.pos, first.result.value)
  }

  /** An operand of a binary level: the next tighter level, or a unary expression under factors. */
  function ParseOperand(level: Level, tokens: seq<Token>, pos: nat): (s: Step)
    requires WellFormed(tokens) && pos < |tokens|
    ensures Progress(tokens, pos, s)
    decreases |tokens| - pos, 2 * Height(level)
  {
    if level.FactorLevel? then ParseUnary(tokens, pos)
    else ParseLevel(Tighter(level), tokens, pos)
  }

  /**
   * The `while` loop of a binary level, with the tree built so far in `acc`:
   * as long as an operator of the level follows, parse one more operand and
   * fold it in on the right.
   */
  function ParseLoop(level: Level, tokens: seq<Token>, pos: nat, acc: Expr): (s: Step)
    requires WellFormed(tokens) && pos < |tokens|
    ensures pos <= s.pos < |tokens|
    decreases |tokens| - pos, 0
  {
    if MatchesAny(tokens, pos, Operators(level)) then
      var operator := Mirror(tokens[pos]);
      var right := ParseOperand(level, tokens, pos + 1);
      if right.result.Err? then right
      else ParseLoop(level, tokens, right.pos, Binary(acc, operator, right.result.value))
    else
      Step(Ok(acc), pos)
  }

  /** `unary`: a prefix operator applies to a whole unary expression; otherwise a primary. */
  function ParseUnary(tokens: seq<Token>, pos: nat): (s: Step)
    requires WellFormed(tokens) && pos < |tokens|
    ensures Progress(tokens, pos, s)
    decreases |tokens| - pos, 1
  {
    if MatchesAny(tokens, pos, UnaryOperators) then
      var operator := Mirror(tokens[pos]);
      var right := ParseUnary(tokens, pos + 1);
      if right.result.Err? then right
      else Step(Ok(Expr.Unary(operator, right.result.value)), right.pos)
    else
      ParsePrimary(tokens, pos)
  }

  /** `primary`: a literal token, or a parenthesised expression; anything else is an error at line 0. */
  function ParsePrimary(tokens: seq<Token>, pos: nat): (s: Step)
    requires WellFormed(tokens) && pos < |tokens|
    ensures Progress(tokens, pos, s)
    decreases |tokens| - pos, 0
  {
    if MatchesAny(tokens, pos, LiteralTypes) then
      Step(Ok(Literal(tokens[pos].literal)), pos + 1)
    else if MatchesAny(tokens, pos, [LeftParen]) then
      var inner := ParseExpression(tokens, pos + 1);
      if inner.result.Err? then inner
      else if Check(tokens, inner.pos, RightParen) then
        Step(Ok(Grouping(inner.result.value)), inner.pos + 1)
      else
        Step(Err(Error(tokens[inner.pos].line, MissingParen)), inner.pos)
    else
      Step(Err(Error(0, ExpectedExpression)), pos)
  }

  /** A level's parse begins with one operand; an error there is the level's result. */
  lemma LevelStarts(level: Level, tokens: seq<Token>, pos: nat)
    requires WellFormed(tokens) && pos < |tokens|
    ensures var first := ParseOperand(level, tokens, pos);
      ParseLevel(level, tokens, pos) == if first.result.Err? then first else ParseLoop(level, tokens, first.pos, first.result.value)
  {
  }

  /** A turn of a level's loop on a matching operator: one operand, then the rest of the loop. */
  lemma LoopTurns(level: Level, tokens: seq<Token>, pos: nat, acc: Expr)
    requires WellFormed(tokens) && pos < |tokens| && MatchesAny(tokens, pos, Operators(level))
    ensures pos + 1 < |tokens|
    ensures var right := ParseOperand(level, tokens, pos + 1);
      ParseLoop(level, tokens, pos, acc) ==
        if right.result.Err? then right else ParseLoop(level, tokens, right.pos, Binary(acc, Mirror(tokens[pos]), right.result.value))
  {
  }

  /** A level's loop stops, with the tree built so far, where no operator of the level follows. */
  lemma LoopStops(level: Level, tokens: seq<Token>, pos: nat, acc: Expr)
    requires WellFormed(tokens) && pos < |tokens| && !MatchesAny(tokens, pos, Operators(level))
    ensures ParseLoop(level, tokens, pos, acc) == Step(Ok(acc), pos)
  {
  }

  /** The factor level's operands are unary expressions. */
  lemma FactorOperands(tokens: seq<Token>, pos: nat)
    requires WellFormed(tokens) && pos < |tokens|
    ensures ParseOperand(FactorLevel, tokens, pos) == ParseUnary(tokens, pos)
  {
  }

  /** Above the factor level, a level's operands are parsed by the next tighter level. */
  lemma TighterOperands(level: Level, tokens: seq<Token>, pos: nat)
    requires WellFormed(tokens) && pos < |tokens| && !level.FactorLevel?
    ensures ParseOperand(level, tokens, pos) == ParseLevel(Tighter(level), tokens, pos)
  {
  }

  class Parser {

    /** The token list; it is never modified. */
    const tokens: seq<Token>
    /** The cursor: the index of the next token to examine. */
    var current: nat

    ghost predicate Valid()
      reads this
    {
      WellFormed(tokens) && current < |tokens|
    }

    /** `Parser::new`: the cursor starts at the first token. */
    constructor (tokens: seq<Token>)
      ensures this.tokens == tokens && current == 0
    {
      this.tokens := tokens;
      current := 0;
    }

    /** `currentt`: the token under the cursor. */
    function Currentt(): (t: Token)
      reads this
      requires current < |tokens|
      ensures t == tokens[current]
    {
      tokens[current]
    }

    /** `previous`: the token just consumed; there is none before the first. */
    function Previous(): (t: Token)
      reads this
      requires 1 <= current <= |tokens|
      ensures t == tokens[current - 1]
    {
      tokens[current - 1]
    }

    /** `is_at_end`: the cursor is on an `Eof` token. */
    function IsAtEnd(): (b: bool)
      reads this
      requires current < |tokens|
      ensures b <==> tokens[current].ttype == Eof
    {
      Currentt().ttype == Eof
    }

    /** `check`: false at the end of input for every kind, `Eof` included. */
    function CheckType(ttype: TokenType): (b: bool)
      reads this
      requires current < |tokens|
      ensures b <==> tokens[current].ttype != Eof && tokens[current].ttype == ttype
      ensures b == Check(tokens, current, ttype)
    {
      if IsAtEnd() then false else Is(Currentt(), ttype)
    }

    /**
     * `advance`: moves one token forward unless the cursor is on `Eof`, and
     * returns the previous token (which must exist).
     */
    method Advance() returns (t: Token)
      requires Valid()
      requires !AtEnd(tokens, current) || 1 <= current
      modifies this
      ensures Valid()
      ensures current == if AtEnd(tokens, old(current)) then old(current) else old(current) + 1
      ensures t == tokens[current - 1]
    {
      if !IsAtEnd() {
        current := current + 1;
      }
      t := Previous();
    }

    /** `is_match`: consume the current token exactly when its kind is listed. */
    method IsMatch(types: seq<TokenType>) returns (matched: bool)
      requires Valid()
      modifies this
      ensures Valid()
      ensures matched == MatchesAny(tokens, old(current), types)
      ensures current == if matched then old(current) + 1 else old(current)
    {
      for i := 0 to |types|
        invariant current == old(current)
        invariant forall j :: 0 <= j < i ==> !Check(tokens, current, types[j])
      {
        if CheckType(types[i]) {
          var _ := Advance();
          return true;
        }
      }
      return false;
    }

    /** `consume`: take a token of the expected kind, or fail at the current token's line. */
    method Consume(ttype: TokenType, message: string) returns (r: Result<Token>)
      requires Valid()
      modifies this
      ensures Valid()
      ensures Check(tokens, old(current), ttype) ==> r == Ok(tokens[old(current)]) && current == old(current) + 1
      ensures !Check(tokens, old(current), ttype) ==>
                r == Err(Error(tokens[old(current)].line, message)) && current == old(current)
    {
      if CheckType(ttype) {
        var t := Advance();
        return Ok(Mirror(t));
      } else {
        var tok := Currentt();
        return Err(Error(tok.line, message));
      }
    }

    /** `expression`. */
    method Expression() returns (r: Result<Expr>)
      requires Valid()
      modifies this
      decreases |tokens| - current, 10
      ensures Valid()
      ensures r == ParseExpression(tokens, old(current)).result
      ensures current == ParseExpression(tokens, old(current)).pos
    {
      r := Equality();
    }

    /** `equality`: comparisons folded left over `!=` and `==`. */
    method Equality() returns (r: Result<Expr>)
      requires Valid()
      modifies this
      decreases |tokens| - current, 9
      ensures Valid()
      ensures r == ParseLevel(EqualityLevel, tokens, old(current)).result
      ensures current == ParseLevel(EqualityLevel, tokens, old(current)).pos
    {
      TighterOperands(EqualityLevel, tokens, current);
      LevelStarts(EqualityLevel, tokens, current);
      var expr :- Comparison();
      ghost var p := current;
      var matched := IsMatch([BangEqual, EqualEqual]);
      while matched
        invariant Valid() && old(current) < p < |tokens|
        invariant ParseLevel(EqualityLevel, tokens, old(current)) == ParseLoop(EqualityLevel, tokens, p, expr)
        invariant matched == MatchesAny(tokens, p, Operators(EqualityLevel))
        invariant current == if matched then p + 1 else p
        decreases |tokens| - current
      {
        var operator := Previous();
        LoopTurns(EqualityLevel, tokens, p, expr);
        TighterOperands(EqualityLevel, tokens, current);
        var right :- Comparison();
        expr := Binary(expr, Mirror(operator), right);
        p := current;
        matched := IsMatch([BangEqual, EqualEqual]);
      }
      LoopStops(EqualityLevel, tokens, p, expr);
      r := Ok(expr);
    }

    /** `comparison`: terms folded left over `>`, `>=`, `<`, `<=`. */
    method Comparison() returns (r: Result<Expr>)
      requires Valid()
      modifies this
      decreases |tokens| - current, 7
      ensures Valid()
      ensures r == ParseLevel(ComparisonLevel, tokens, old(current)).result
      ensures current == ParseLevel(ComparisonLevel, tokens, old(current)).pos
    {
      TighterOperands(ComparisonLevel, tokens, current);
      LevelStarts(ComparisonLevel, tokens, current);
      var comp :- Term();
      ghost var p := current;
      var matched := IsMatch([Greater, GreaterEqual, Less, LessEqual]);
      while matched
        invariant Valid() && old(current) < p < |tokens|
        invariant ParseLevel(ComparisonLevel, tokens, old(current)) == ParseLoop(ComparisonLevel, tokens, p, comp)
        invariant matched == MatchesAny(tokens, p, Operators(ComparisonLevel))
        invariant current == if matched then p + 1 else p
        decreases |tokens| - current
      {
        var operator := Previous();
        LoopTurns(ComparisonLevel, tokens, p, comp);
        TighterOperands(ComparisonLevel, tokens, current);
        var right :- Term();
        comp := Binary(comp, Mirror(operator), right);
        p := current;
        matched := IsMatch([Greater, GreaterEqual, Less, LessEqual]);
      }
      LoopStops(ComparisonLevel, tokens, p, comp);
      r := Ok(comp);
    }

    /** `term`: factors folded left over `-` and `+`. */
    method Term() returns (r: Result<Expr>)
      requires Valid()
      modifies this
      decreases |tokens| - current, 5
      ensures Valid()
      ensures r == ParseLevel(TermLevel, tokens, old(current)).result
      ensures current == ParseLevel(TermLevel, tokens, old(current)).pos
    {
      TighterOperands(TermLevel, tokens, current);
      LevelStarts(TermLevel, tokens, current);
      var te :- Factor();
      ghost var p := current;
      var matched := IsMatch([Minus, Plus]);
      while matched
        invariant Valid() && old(current) < p < |tokens|
        invariant ParseLevel(TermLevel, tokens, old(current)) == ParseLoop(TermLevel, tokens, p, te)
        invariant matched == MatchesAny(tokens, p, Operators(TermLevel))
        invariant current == if matched then p + 1 else p
        decreases |tokens| - current
      {
        var operator := Previous();
        LoopTurns(TermLevel, tokens, p, te);
        TighterOperands(TermLevel, tokens, current);
        var right :- Factor();
        te := Binary(te, Mirror(operator), right);
        p := current;
        matched := IsMatch([Minus, Plus]);
      }
      LoopStops(TermLevel, tokens, p, te);
      r := Ok(te);
    }

    /** `factor`: unary expressions folded left over `/` and `*`. */
    method Factor() returns (r: Result<Expr>)
      requires Valid()
      modifies this
      decreases |tokens| - current, 3
      ensures Valid()
      ensures r == ParseLevel(FactorLevel, tokens, old(current)).result
      ensures current == ParseLevel(FactorLevel, tokens, old(current)).pos
    {
      FactorOperands(tokens, current);
      LevelStarts(FactorLevel, tokens, current);
      var fac :- Unary();
      ghost var p := current;
      var matched := IsMatch([Slash, Star]);
      while matched
        invariant Valid() && old(current) < p < |tokens|
        invariant ParseLevel(FactorLevel, tokens, old(current)) == ParseLoop(FactorLevel, tokens, p, fac)
        invariant matched == MatchesAny(tokens, p, Operators(FactorLevel))
        invariant current == if matched then p + 1 else p
        decreases |tokens| - current
      {
        var operator := Previous();
        LoopTurns(FactorLevel, tokens, p, fac);
        FactorOperands(tokens, current);
        var right :- Unary();
        fac := Binary(fac, Mirror(operator), right);
        p := current;
        matched := IsMatch([Slash, Star]);
      }
      LoopStops(FactorLevel, tokens, p, fac);
      r := Ok(fac);
    }

    /** `unary`: `!` or `-` applied to a unary expression, else a primary. */
    method Unary() returns (r: Result<Expr>)
      requires Valid()
      modifies this
      decreases |tokens| - current, 1
      ensures Valid()
      ensures r == ParseUnary(tokens, old(current)).result
      ensures current == ParseUnary(tokens, old(current)).pos
    {
      var matched := IsMatch([Bang, Minus]);
      if matched {
        var operator := Previous();
        var right :- Unary();
        return Ok(Expr.Unary(Mirror(operator), right));
      }
      r := Primary();
    }

    /** `primary`: a literal, a parenthesised expression, or "Expected expression". */
    method Primary() returns (r: Result<Expr>)
      requires Valid()
      modifies this
      decreases |tokens| - current, 0
      ensures Valid()
      ensures r == ParsePrimary(tokens, old(current)).result
      ensures current == ParsePrimary(tokens, old(current)).pos
    {
      var matched := IsMatch([True, False, TokenType.Nil, Number, String]);
      if matched {
        return Ok(Literal(Previous().literal));
      }
      matched := IsMatch([LeftParen]);
      if matched {
        var expr :- Expression();
        var _ :- Consume(RightParen, MissingParen);
        return Ok(Grouping(expr));
      }
      r := Err(Error(0, ExpectedExpression));
    }
  }

}
