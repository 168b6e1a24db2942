/**
 * What the parser's grammar means. `Unparse` writes a tree back out as
 * tokens; `Canonical` says a tree respects the precedence ladder and
 * left associativity. The main result: the parser accepts a span of tokens
 * with a tree exactly when the span spells that canonical tree and the
 * token after it is not a binary operator.
 */
module ParserProperties {

  import opened Wrappers
  import opened Literals
  import opened Tokens
  import opened Errors
  import opened Exprs
  import opened Parser

  /** The binary level an operator kind belongs to, if any. */
  function OperatorLevel(t: TokenType): Option<Level>
  {
    match t
    case BangEqual => Some(EqualityLevel)
    case EqualEqual => Some(EqualityLevel)
    case Greater => Some(ComparisonLevel)
    case GreaterEqual => Some(ComparisonLevel)
    case Less => Some(ComparisonLevel)
    case LessEqual => Some(ComparisonLevel)
    case Minus => Some(TermLevel)
    case Plus => Some(TermLevel)
    case Slash => Some(FactorLevel)
    case Star => Some(FactorLevel)
    case _ => None
  }

  /** `OperatorLevel` inverts `Operators`. */
  lemma OperatorLevelInverts(t: TokenType, level: Level)
    ensures t in Operators(level) <==> OperatorLevel(t) == Some(level)
  {
  }

  /** How loosely the root of a tree binds: its operator's level for a binary node, 1 for unary, 0 for a primary. */
  function Binding(e: Expr): nat
  {
    match e
    case Binary(_, op, _) => if OperatorLevel(op.ttype).Some? then Height(OperatorLevel(op.ttype).value) else 6
    case Unary(_, _) => 1
    case _ => 0
  }

  /**
   * The trees the grammar can produce: a binary node's operator belongs to a
   * level, its left operand binds at most as loosely (left associativity)
   * and its right operand strictly tighter; a unary node's operator is `!`
   * or `-` and its operand is unary or primary.
   */
  predicate Canonical(e: Expr)
  {
    match e
    case Binary(l, op, r) =>
      OperatorLevel(op.ttype).Some? && Canonical(l) && Canonical(r)
      && Binding(l) <= Binding(e) && Binding(r) < Binding(e)
    case Grouping(x) => Canonical(x)
    case Literal(_) => true
    case Unary(op, x) => op.ttype in UnaryOperators && Canonical(x) && Binding(x) <= 1
  }

  /** The number of tokens a tree is written with. */
  function Width(e: Expr): nat
  {
    match e
    case Binary(l, _, r) => Width(l) + 1 + Width(r)
    case Grouping(x) => Width(x) + 2
    case Literal(_) => 1
    case Unary(_, x) => 1 + Width(x)
  }

  /**
   * The tokens from `pos` on spell the tree `e`: a literal node by any
   * literal token carrying the same value, a grouping by a pair of
   * parentheses around its operand's spelling, and an operator by the very
   * token the tree holds (the parser keeps operator tokens whole).
   */
  predicate Spells(tokens: seq<Token>, pos: nat, e: Expr)
    decreases e
  {
    pos + Width(e) <= |tokens| &&
    match e
    case Binary(l, op, r) =>
      Spells(tokens, pos, l) && tokens[pos + Width(l)] == op && Spells(tokens, pos + Width(l) + 1, r)
    case Grouping(x) =>
      tokens[pos].ttype == LeftParen && Spells(tokens, pos + 1, x) && tokens[pos + 1 + Width(x)].ttype == RightParen
    case Literal(v) =>
      tokens[pos].ttype in LiteralTypes && tokens[pos].literal == v
    case Unary(op, x) =>
      tokens[pos] == op && Spells(tokens, pos + 1, x)
  }

  /** The token at `pos` is not an operator of any level binding at most `h` (so those levels' loops stop there). */
  predicate StopsAt(tokens: seq<Token>, pos: nat, h: nat)
  {
    pos < |tokens|
    && (OperatorLevel(tokens[pos].ttype).Some? ==> Height(OperatorLevel(tokens[pos].ttype).value) > h)
  }

  /** The token the unparser writes for a literal node. */
  function LiteralToken(v: Option<Literal>): Token
  {
    Token(Number, "", v, 0)
  }

  const OpenParen: Token := Token(LeftParen, "(", None, 0)
  const CloseParen: Token := Token(RightParen, ")", None, 0)

  /** The tree written back as tokens: infix operators, prefix unary operators, explicit parentheses. */
  function Unparse(e: Expr): (ts: seq<Token>)
    ensures |ts| == Width(e)
  {
    match e
    case Binary(l, op, r) => Unparse(l) + [op] + Unparse(r)
    case Grouping(x) => [OpenParen] + Unparse(x) + [CloseParen]
    case Literal(v) => [LiteralToken(v)]
    case Unary(op, x) => [op] + Unparse(x)
  }

  /** The two ways a binary node's spelling, with what surrounds it, splits around the operator. */
  lemma Regroup(a: seq<Token>, b: seq<Token>, c: seq<Token>, d: seq<Token>, e: seq<Token>)
    ensures a + (b + c + d) + e == a + b + (c + d + e)
    ensures a + (b + c + d) + e == (a + b + c) + d + e
    ensures |c| > 0 ==> (a + (b + c + d) + e)[|a| + |b|] == c[0]
  {
  }

  /** The unparsed tokens of a tree spell that tree, whatever surrounds them. */
  lemma {:induction false} UnparseSpells(pre: seq<Token>, e: Expr, post: seq<Token>)
    ensures Spells(pre + Unparse(e) + post, |pre|, e)
    decreases e
  {
    var tokens := pre + Unparse(e) + post;
    match e
    case Binary(l, op, r) =>
      Regroup(pre, Unparse(l), [op], Unparse(r), post);
      UnparseSpells(pre, l, [op] + Unparse(r) + post);
      UnparseSpells(pre + Unparse(l) + [op], r, post);
    case Grouping(x) =>
      assert tokens == (pre + [OpenParen]) + Unparse(x) + ([CloseParen] + post);
      UnparseSpells(pre + [OpenParen], x, [CloseParen] + post);
      assert tokens[|pre|] == OpenParen;
      assert tokens[|pre| + 1 + Width(x)] == CloseParen;
    case Literal(v) =>
      assert tokens[|pre|] == LiteralToken(v);
    case Unary(op, x) =>
      assert tokens == (pre + [op]) + Unparse(x) + post;
      UnparseSpells(pre + [op], x, post);
      assert tokens[|pre|] == op;
  }

  // ---------------------------------------------------------------------
  // Completeness: a spelled canonical tree is parsed back exactly.

  /** One turn of a level's loop: the operator under the cursor, then one operand. */
  lemma LoopTurn(level: Level, tokens: seq<Token>, pos: nat, acc: Expr, op: Token, r: Expr, end: nat)
    requires WellFormed(tokens) && pos < |tokens| && tokens[pos] == op && op.ttype in Operators(level)
    requires pos + 1 < |tokens| && ParseOperand(level, tokens, pos + 1) == Step(Ok(r), end)
    ensures ParseLoop(level, tokens, pos, acc) == ParseLoop(level, tokens, end, Binary(acc, op, r))
  {
    OperatorLevelInverts(op.ttype, level);
    assert MatchesAny(tokens, pos, Operators(level));
  }

  /** A binary node whose root binds exactly at a level has an operator of that level. */
  lemma RootOperatorLevel(level: Level, e: Expr)
    requires Canonical(e) && Binding(e) == Height(level)
    ensures e.Binary? && OperatorLevel(e.operator.ttype) == Some(level) && e.operator.ttype in Operators(level)
    ensures Canonical(e.left) && Binding(e.left) <= Height(level)
    ensures Canonical(e.right) && Binding(e.right) < Height(level)
  {
    OperatorLevelInverts(e.operator.ttype, level);
  }

  /** How the spelling of a binary node at the level splits around its operator. */
  lemma BinarySpelling(level: Level, e: Expr, tokens: seq<Token>, pos: nat)
    requires Canonical(e) && Binding(e) == Height(level) && Spells(tokens, pos, e)
    ensures e.Binary? && e == Binary(e.left, e.operator, e.right)
    ensures e.operator.ttype in Operators(level) && OperatorLevel(e.operator.ttype) == Some(level)
    ensures Canonical(e.left) && Binding(e.left) <= Height(level) && Spells(tokens, pos, e.left)
    ensures pos + Width(e.left) < |tokens| && tokens[pos + Width(e.left)] == e.operator
    ensures Canonical(e.right) && Binding(e.right) < Height(level) && Spells(tokens, pos + Width(e.left) + 1, e.right)
    ensures Width(e) == Width(e.left) + 1 + Width(e.right)
  {
    RootOperatorLevel(level, e);
  }

  /*
   * The lemmas below take the position `end` just after the spelled tree
   * as a parameter of its own, so that every fact about the token there is
   * stated about the same term.
   */

  /** A tree spelled from `pos` to `end`, followed by a token that stops the level's tighter loops, parses at this level as itself with the loop still to run. */
  lemma {:induction false} LevelSpine(level: Level, e: Expr, tokens: seq<Token>, pos: nat, end: nat)
    requires WellFormed(tokens) && Canonical(e) && Binding(e) <= Height(level)
    requires Spells(tokens, pos, e) && end == pos + Width(e) && StopsAt(tokens, end, Height(level) - 1)
    ensures ParseLevel(level, tokens, pos) == ParseLoop(level, tokens, end, e)
    decreases e, 4 * Height(level) + 2
  {
    if Binding(e) < Height(level) {
      OperandExact(level, e, tokens, pos, end);
    } else {
      BinarySpelling(level, e, tokens, pos);
      SpineBinary(level, e.left, e.operator, e.right, tokens, pos, end);
    }
  }

  /**
   * The same for a binary node whose operator belongs to the level: its left
   * operand is the spine so far, then one more turn of the loop takes the
   * operator and the right operand.
   */
  lemma {:induction false} SpineBinary(level: Level, l: Expr, op: Token, r: Expr, tokens: seq<Token>, pos: nat, end: nat)
    requires WellFormed(tokens) && op.ttype in Operators(level) && OperatorLevel(op.ttype) == Some(level)
    requires Canonical(l) && Binding(l) <= Height(level) && Spells(tokens, pos, l)
    requires pos + Width(l) < |tokens| && tokens[pos + Width(l)] == op
    requires Canonical(r) && Binding(r) < Height(level) && Spells(tokens, pos + Width(l) + 1, r)
    requires end == pos + Width(l) + 1 + Width(r) && StopsAt(tokens, end, Height(level) - 1)
    ensures ParseLevel(level, tokens, pos) == ParseLoop(level, tokens, end, Binary(l, op, r))
    decreases Binary(l, op, r), 4 * Height(level) + 1
  {
    var mid := pos + Width(l);
    assert StopsAt(tokens, mid, Height(level) - 1);
    LevelSpine(level, l, tokens, pos, mid);
    SpineTail(level, l, op, r, tokens, pos, mid, end);
  }

  /** The last turn of the loop for a binary node at the level: its right operand, then the rest of the loop. */
  lemma {:induction false} SpineTail(level: Level, l: Expr, op: Token, r: Expr, tokens: seq<Token>, pos: nat, mid: nat, end: nat)
    requires WellFormed(tokens) && pos <= mid < |tokens| && tokens[mid] == op && op.ttype in Operators(level)
    requires ParseLevel(level, tokens, pos) == ParseLoop(level, tokens, mid, l)
    requires Canonical(r) && Binding(r) < Height(level)
    requires Spells(tokens, mid + 1, r) && end == mid + 1 + Width(r) && StopsAt(tokens, end, Height(level) - 1)
    ensures ParseLevel(level, tokens, pos) == ParseLoop(level, tokens, end, Binary(l, op, r))
    decreases r, 4 * Height(level) + 1
  {
    OperandExact(level, r, tokens, mid + 1, end);
    LoopTurn(level, tokens, mid, l, op, r, end);
  }

  /** A tree binding tighter than the level is parsed exactly as one of its operands. */
  lemma {:induction false} OperandExact(level: Level, e: Expr, tokens: seq<Token>, pos: nat, end: nat)
    requires WellFormed(tokens) && Canonical(e) && Binding(e) < Height(level)
    requires Spells(tokens, pos, e) && end == pos + Width(e) && StopsAt(tokens, end, Height(level) - 1)
    ensures ParseOperand(level, tokens, pos) == Step(Ok(e), end)
    decreases e, 4 * Height(level)
  {
    if level.FactorLevel? {
      UnaryExact(e, tokens, pos, end);
    } else {
      LevelExact(Tighter(level), e, tokens, pos, end);
    }
  }

  /** A tree binding at most as loosely as the level, followed by a token that stops every loop up to it, is parsed exactly. */
  lemma {:induction false} LevelExact(level: Level, e: Expr, tokens: seq<Token>, pos: nat, end: nat)
    requires WellFormed(tokens) && Canonical(e) && Binding(e) <= Height(level)
    requires Spells(tokens, pos, e) && end == pos + Width(e) && StopsAt(tokens, end, Height(level))
    ensures ParseLevel(level, tokens, pos) == Step(Ok(e), end)
    decreases e, 4 * Height(level) + 3
  {
    LevelSpine(level, e, tokens, pos, end);
    OperatorLevelInverts(tokens[end].ttype, level);
    assert !MatchesAny(tokens, end, Operators(level));
  }

  /** A unary or primary tree is parsed exactly by `unary`, whatever follows it. */
  lemma {:induction false} UnaryExact(e: Expr, tokens: seq<Token>, pos: nat, end: nat)
    requires WellFormed(tokens) && Canonical(e) && Binding(e) <= 1
    requires Spells(tokens, pos, e) && end == pos + Width(e) && end < |tokens|
    ensures ParseUnary(tokens, pos) == Step(Ok(e), end)
    decreases e, 1
  {
    match e
    case Unary(op, x) =>
      assert MatchesAny(tokens, pos, UnaryOperators);
      UnaryExact(x, tokens, pos + 1, end);
    case Grouping(_) =>
      assert !MatchesAny(tokens, pos, UnaryOperators);
      PrimaryExact(e, tokens, pos, end);
    case Literal(_) =>
      assert !MatchesAny(tokens, pos, UnaryOperators);
      PrimaryExact(e, tokens, pos, end);
  }

  /** A literal or a grouping is parsed exactly by `primary`. */
  lemma {:induction false} PrimaryExact(e: Expr, tokens: seq<Token>, pos: nat, end: nat)
    requires WellFormed(tokens) && Canonical(e) && Binding(e) == 0
    requires Spells(tokens, pos, e) && end == pos + Width(e) && end < |tokens|
    ensures ParsePrimary(tokens, pos) == Step(Ok(e), end)
    decreases e, 0
  {
    match e
    case Grouping(x) =>
      var close := pos + 1 + Width(x);
      assert StopsAt(tokens, close, 5);
      ExpressionExact(x, tokens, pos + 1, close);
    case Literal(_) =>
  }

  /** A canonical tree spelled from `pos` to `end`, followed by a token that is no binary operator, is parsed exactly by `expression`. */
  lemma {:induction false} ExpressionExact(e: Expr, tokens: seq<Token>, pos: nat, end: nat)
    requires WellFormed(tokens) && Canonical(e)
    requires Spells(tokens, pos, e) && end == pos + Width(e) && StopsAt(tokens, end, 5)
    ensures ParseExpression(tokens, pos) == Step(Ok(e), end)
    decreases e, 24
  {
    CanonicalBindsAtMostFive(e);
    LevelExact(EqualityLevel, e, tokens, pos, end);
  }

  lemma CanonicalBindsAtMostFive(e: Expr)
    requires Canonical(e)
    ensures Binding(e) <= 5
  {
  }

  /** Parsing the unparsed tokens of a canonical tree, ended by `Eof`, gives the tree back and stops on the `Eof`. */
  lemma RoundTrip(e: Expr, line: nat)
    requires Canonical(e)
    ensures ParseExpression(Unparse(e) + [EofToken(line)], 0) == Step(Ok(e), Width(e))
  {
    var tokens := Unparse(e) + [EofToken(line)];
    UnparseSpells([], e, [EofToken(line)]);
    assert [] + Unparse(e) + [EofToken(line)] == tokens;
    assert tokens[Width(e)] == EofToken(line);
    ExpressionExact(e, tokens, 0, Width(e));
  }

}
