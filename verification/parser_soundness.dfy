/**
 * The converse of the round trip: whatever the parser accepts is a
 * canonical tree spelled by exactly the tokens it consumed, and the
 * parser stops on a token that is not an operator of any level it has
 * finished. Together with `ParserProperties.ExpressionExact` this
 * characterises the successful parses completely. The failures are
 * characterised as well: there are exactly two error messages, and each
 * says where the parser stopped.
 */
module ParserSoundness {

  import opened Tokens
  import opened Errors
  import opened Exprs
  import opened Parser
  import opened ParserProperties

  /** What a successful parse from `pos` at a grammar level of height `h` establishes about its result. */
  predicate Accepted(tokens: seq<Token>, pos: nat, s: Step, h: nat)
  {
    s.result.Ok?
    && Canonical(s.result.value) && Binding(s.result.value) <= h
    && Spells(tokens, pos, s.result.value) && s.pos == pos + Width(s.result.value)
    && StopsAt(tokens, s.pos, h)
  }

  /** `expression` accepts only canonical trees, spelled by the tokens it consumed. */
  lemma {:induction false} ExpressionSound(tokens: seq<Token>, pos: nat)
    requires WellFormed(tokens) && pos < |tokens| && ParseExpression(tokens, pos).result.Ok?
    ensures Accepted(tokens, pos, ParseExpression(tokens, pos), 5)
    decreases |tokens| - pos, 12
  {
    LevelSound(EqualityLevel, tokens, pos);
  }

  /** A binary level accepts a tree binding at most as loosely as itself and stops on no operator of its own or a tighter level. */
  lemma {:induction false} LevelSound(level: Level, tokens: seq<Token>, pos: nat)
    requires WellFormed(tokens) && pos < |tokens| && ParseLevel(level, tokens, pos).result.Ok?
    ensures Accepted(tokens, pos, ParseLevel(level, tokens, pos), Height(level))
    decreases |tokens| - pos, 2 * Height(level) + 1
  {
    var first := ParseOperand(level, tokens, pos);
    OperandSound(level, tokens, pos);
    LoopSound(level, tokens, pos, first.pos, first.result.value);
  }

  /** An operand of a level binds strictly tighter than the level. */
  lemma {:induction false} OperandSound(level: Level, tokens: seq<Token>, pos: nat)
    requires WellFormed(tokens) && pos < |tokens| && ParseOperand(level, tokens, pos).result.Ok?
    ensures Accepted(tokens, pos, ParseOperand(level, tokens, pos), Height(level) - 1)
    decreases |tokens| - pos, 2 * Height(level)
  {
    if level.FactorLevel? {
      UnarySound(tokens, pos);
    } else {
      LevelSound(Tighter(level), tokens, pos);
    }
  }

  /** Folding an operator of the level and a tighter operand onto a tree that binds at most at the level keeps it canonical. */
  lemma FoldCanonical(level: Level, acc: Expr, op: Token, r: Expr)
    requires Canonical(acc) && Binding(acc) <= Height(level) && op.ttype in Operators(level)
    requires Canonical(r) && Binding(r) < Height(level)
    ensures Canonical(Binary(acc, op, r)) && Binding(Binary(acc, op, r)) == Height(level)
  {
    OperatorLevelInverts(op.ttype, level);
  }

  /** A tree spelled from `start` to `pos`, the operator at `pos` and a tree spelled after it to `end` spell their binary node. */
  lemma FoldSpells(tokens: seq<Token>, start: nat, pos: nat, acc: Expr, op: Token, r: Expr, end: nat)
    requires Spells(tokens, start, acc) && pos == start + Width(acc) && pos < |tokens| && tokens[pos] == op
    requires Spells(tokens, pos + 1, r) && end == pos + 1 + Width(r)
    ensures Spells(tokens, start, Binary(acc, op, r)) && end == start + Width(Binary(acc, op, r))
  {
  }

  /**
   * A level's loop, entered with the tree `acc` spelled from `start` to
   * `pos`, keeps the tree canonical and its spelling exact as it folds in
   * more operands, and leaves off on a token that is not one of the
   * level's operators.
   */
  lemma {:induction false} LoopSound(level: Level, tokens: seq<Token>, start: nat, pos: nat, acc: Expr)
    requires WellFormed(tokens) && pos < |tokens|
    requires Canonical(acc) && Binding(acc) <= Height(level)
    requires Spells(tokens, start, acc) && pos == start + Width(acc) && StopsAt(tokens, pos, Height(level) - 1)
    requires ParseLoop(level, tokens, pos, acc).result.Ok?
    ensures Accepted(tokens, start, ParseLoop(level, tokens, pos, acc), Height(level))
    decreases |tokens| - pos, 1
  {
    if MatchesAny(tokens, pos, Operators(level)) {
      LoopTurns(level, tokens, pos, acc);
      var right := ParseOperand(level, tokens, pos + 1);
      var e := Binary(acc, Mirror(tokens[pos]), right.result.value);
      TurnSound(level, tokens, start, pos, acc);
      LoopSound(level, tokens, start, right.pos, e);
    } else {
      LoopStops(level, tokens, pos, acc);
      OperatorLevelInverts(tokens[pos].ttype, level);
    }
  }

  /** One turn of a level's loop that succeeds leaves a canonical tree spelled up to the new cursor. */
  lemma TurnSound(level: Level, tokens: seq<Token>, start: nat, pos: nat, acc: Expr)
    requires WellFormed(tokens) && pos < |tokens| && MatchesAny(tokens, pos, Operators(level))
    requires Canonical(acc) && Binding(acc) <= Height(level) && Spells(tokens, start, acc) && pos == start + Width(acc)
    requires pos + 1 < |tokens| && ParseOperand(level, tokens, pos + 1).result.Ok?
    ensures var right := ParseOperand(level, tokens, pos + 1);
      var e := Binary(acc, Mirror(tokens[pos]), right.result.value);
      Canonical(e) && Binding(e) <= Height(level)
      && Spells(tokens, start, e) && right.pos == start + Width(e) && StopsAt(tokens, right.pos, Height(level) - 1)
    decreases |tokens| - pos, 0
  {
    var right := ParseOperand(level, tokens, pos + 1);
    OperandSound(level, tokens, pos + 1);
    FoldCanonical(level, acc, Mirror(tokens[pos]), right.result.value);
    FoldSpells(tokens, start, pos, acc, Mirror(tokens[pos]), right.result.value, right.pos);
  }

  /** `unary` accepts a unary or primary tree. */
  lemma {:induction false} UnarySound(tokens: seq<Token>, pos: nat)
    requires WellFormed(tokens) && pos < |tokens| && ParseUnary(tokens, pos).result.Ok?
    ensures Accepted(tokens, pos, ParseUnary(tokens, pos), 1)
    decreases |tokens| - pos, 1
  {
    if MatchesAny(tokens, pos, UnaryOperators) {
      NotAtEndHasNext(tokens, pos);
      UnarySound(tokens, pos + 1);
    } else {
      PrimarySound(tokens, pos);
    }
  }

  /** `primary` accepts a literal carrying the token's value, or a parenthesised expression. */
  lemma {:induction false} PrimarySound(tokens: seq<Token>, pos: nat)
    requires WellFormed(tokens) && pos < |tokens| && ParsePrimary(tokens, pos).result.Ok?
    ensures Accepted(tokens, pos, ParsePrimary(tokens, pos), 0)
    decreases |tokens| - pos, 0
  {
    if !MatchesAny(tokens, pos, LiteralTypes) {
      NotAtEndHasNext(tokens, pos);
      ExpressionSound(tokens, pos + 1);
    }
  }

  /**
   * The parser's main theorem: `expression` from `pos` yields the tree `e`
   * and stops at `end` exactly when the tokens from `pos` to `end` spell
   * `e`, `e` is canonical, and the token at `end` is not a binary operator.
   */
  lemma ParseExpressionCharacterised(tokens: seq<Token>, pos: nat, e: Expr, end: nat)
    requires WellFormed(tokens) && pos < |tokens|
    ensures ParseExpression(tokens, pos) == Step(Ok(e), end)
        <==> Canonical(e) && Spells(tokens, pos, e) && end == pos + Width(e) && StopsAt(tokens, end, 5)
  {
    if ParseExpression(tokens, pos) == Step(Ok(e), end) {
      ExpressionSound(tokens, pos);
    }
    if Canonical(e) && Spells(tokens, pos, e) && end == pos + Width(e) && StopsAt(tokens, end, 5) {
      ExpressionExact(e, tokens, pos, end);
    }
  }

  // ---------------------------------------------------------------------
  // Failures.

  /**
   * The only two ways a parse fails, and where it stops: "Expected
   * expression" at line 0 on a token that can begin no primary, or
   * "Expected ')' after expression." at the line of the token found where
   * the `)` should be.
   */
  predicate Rejected(tokens: seq<Token>, s: Step)
  {
    s.result.Err? && s.pos < |tokens|
    && ((s.result.error == Error(0, ExpectedExpression)
         && !MatchesAny(tokens, s.pos, LiteralTypes) && !MatchesAny(tokens, s.pos, [LeftParen])
         && !MatchesAny(tokens, s.pos, UnaryOperators))
        || (s.result.error == Error(tokens[s.pos].line, MissingParen) && !Check(tokens, s.pos, RightParen)))
  }

  /** Every error of `expression` is one of the two. */
  lemma {:induction false} ExpressionErrors(tokens: seq<Token>, pos: nat)
    requires WellFormed(tokens) && pos < |tokens| && ParseExpression(tokens, pos).result.Err?
    ensures Rejected(tokens, ParseExpression(tokens, pos))
    decreases |tokens| - pos, 12
  {
    LevelErrors(EqualityLevel, tokens, pos);
  }

  /** A binary level fails only where one of its operands fails. */
  lemma {:induction false} LevelErrors(level: Level, tokens: seq<Token>, pos: nat)
    requires WellFormed(tokens) && pos < |tokens| && ParseLevel(level, tokens, pos).result.Err?
    ensures Rejected(tokens, ParseLevel(level, tokens, pos))
    decreases |tokens| - pos, 2 * Height(level) + 1
  {
    var first := ParseOperand(level, tokens, pos);
    if first.result.Err? {
      OperandErrors(level, tokens, pos);
    } else {
      LoopErrors(level, tokens, first.pos, first.result.value);
    }
  }

  lemma {:induction false} OperandErrors(level: Level, tokens: seq<Token>, pos: nat)
    requires WellFormed(tokens) && pos < |tokens| && ParseOperand(level, tokens, pos).result.Err?
    ensures Rejected(tokens, ParseOperand(level, tokens, pos))
    decreases |tokens| - pos, 2 * Height(level)
  {
    if level.FactorLevel? {
      UnaryErrors(tokens, pos);
    } else {
      LevelErrors(Tighter(level), tokens, pos);
    }
  }

  lemma {:induction false} LoopErrors(level: Level, tokens: seq<Token>, pos: nat, acc: Expr)
    requires WellFormed(tokens) && pos < |tokens| && ParseLoop(level, tokens, pos, acc).result.Err?
    ensures Rejected(tokens, ParseLoop(level, tokens, pos, acc))
    decreases |tokens| - pos, 0
  {
    NotAtEndHasNext(tokens, pos);
    var right := ParseOperand(level, tokens, pos + 1);
    if right.result.Err? {
      OperandErrors(level, tokens, pos + 1);
    } else {
      LoopErrors(level, tokens, right.pos, Binary(acc, Mirror(tokens[pos]), right.result.value));
    }
  }

  lemma {:induction false} UnaryErrors(tokens: seq<Token>, pos: nat)
    requires WellFormed(tokens) && pos < |tokens| && ParseUnary(tokens, pos).result.Err?
    ensures Rejected(tokens, ParseUnary(tokens, pos))
    decreases |tokens| - pos, 1
  {
    if MatchesAny(tokens, pos, UnaryOperators) {
      NotAtEndHasNext(tokens, pos);
      UnaryErrors(tokens, pos + 1);
    } else {
      PrimaryErrors(tokens, pos);
    }
  }

  lemma {:induction false} PrimaryErrors(tokens: seq<Token>, pos: nat)
    requires WellFormed(tokens) && pos < |tokens| && !MatchesAny(tokens, pos, UnaryOperators)
    requires ParsePrimary(tokens, pos).result.Err?
    ensures Rejected(tokens, ParsePrimary(tokens, pos))
    decreases |tokens| - pos, 0
  {
    if MatchesAny(tokens, pos, [LeftParen]) {
      NotAtEndHasNext(tokens, pos);
      var inner := ParseExpression(tokens, pos + 1);
      if inner.result.Err? {
        ExpressionErrors(tokens, pos + 1);
      }
    }
  }


  /**
   * A token that can start no expression (no literal, `(`, `!` or `-`, and
   * in particular the end of input) fails the parse at once, with the
   * line-0 error and the cursor still on that token.
   */
  lemma NothingToParse(tokens: seq<Token>, pos: nat)
    requires WellFormed(tokens) && pos < |tokens|
    requires !MatchesAny(tokens, pos, LiteralTypes) && !MatchesAny(tokens, pos, [LeftParen])
    requires !MatchesAny(tokens, pos, UnaryOperators)
    ensures ParseExpression(tokens, pos) == Step(Err(Error(0, ExpectedExpression)), pos)
  {
    assert ParseUnary(tokens, pos) == Step(Err(Error(0, ExpectedExpression)), pos);
    FactorOperands(tokens, pos);
    LevelStarts(FactorLevel, tokens, pos);
    TighterOperands(TermLevel, tokens, pos);
    LevelStarts(TermLevel, tokens, pos);
    TighterOperands(ComparisonLevel, tokens, pos);
    LevelStarts(ComparisonLevel, tokens, pos);
    TighterOperands(EqualityLevel, tokens, pos);
    LevelStarts(EqualityLevel, tokens, pos);
  }

}
