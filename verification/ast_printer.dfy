/**
 * The Lisp-style printer of src/ast_printer.rs. Every interior node prints as
 * a parenthesised list headed by its name (the operator's lexeme, or `group`),
 * and every literal as its value's text or `nil`.
 *
 * The source turns a literal value into text with `to_string`; that text is
 * not part of this model, so callers supply it as `show`.
 */
module AstPrinter {

  import opened Wrappers
  import opened Literals
  import opened Tokens
  import opened Errors
  import opened Exprs

  /** The text `parenthesize` appends after the name: one space before each part, in order. */
  function Joined(parts: seq<string>): (r: string)
    ensures r == "" <==> |parts| == 0
    ensures |parts| > 0 ==> r[0] == ' '
    ensures |r| >= |parts|
  {
    if |parts| == 0 then "" else Joined(parts[..|parts| - 1]) + " " + parts[|parts| - 1]
  }

  lemma JoinedSmall(x: string, y: string)
    ensures Joined([x]) == " " + x
    ensures Joined([x, y]) == " " + x + " " + y
  {
    assert [x][..0] == [];
    assert [x, y][..1] == [x];
  }

  /** The list `(name part1 part2 ...)`. */
  function Parenthesized(name: string, parts: seq<string>): (r: string)
    ensures |r| >= |name| + |parts| + 2
    ensures r[0] == '(' && r[1..|name| + 1] == name && r[|r| - 1] == ')'
  {
    "(" + name + Joined(parts) + ")"
  }

  /** The text of a tree: the specification of `print`. */
  function Printed(show: Literal -> string, e: Expr): (r: string)
    ensures !e.Literal? ==> |r| >= 3 && r[0] == '(' && r[|r| - 1] == ')'
  {
    match e
    case Binary(l, op, r) => Parenthesized(op.lexeme, [Printed(show, l), Printed(show, r)])
    case Grouping(x) => Parenthesized("group", [Printed(show, x)])
    case Literal(v) => if v.Some? then show(v.value) else "nil"
    case Unary(op, x) => Parenthesized(op.lexeme, [Printed(show, x)])
  }

  /** The texts of a list of children. */
  function PrintedAll(show: Literal -> string, exprs: seq<Expr>): (parts: seq<string>)
    ensures |parts| == |exprs|
    ensures forall i :: 0 <= i < |exprs| ==> parts[i] == Printed(show, exprs[i])
  {
    seq(|exprs|, i requires 0 <= i < |exprs| => Printed(show, exprs[i]))
  }

  /** The number of nodes of a tree, which bounds the printer's recursion. */
  function Size(e: Expr): nat
  {
    match e
    case Binary(l, _, r) => 1 + Size(l) + Size(r)
    case Grouping(x) => 1 + Size(x)
    case Literal(_) => 1
    case Unary(_, x) => 1 + Size(x)
  }

  function SizeAll(exprs: seq<Expr>): nat
  {
    if |exprs| == 0 then 0 else Size(exprs[0]) + SizeAll(exprs[1..])
  }

  lemma SizeAllSmall(x: Expr, y: Expr)
    ensures SizeAll([x]) == Size(x)
    ensures SizeAll([x, y]) == Size(x) + Size(y)
  {
    assert [x][1..] == [];
    assert [x, y][1..] == [y];
    assert [y][1..] == [];
  }

  lemma {:induction false} SizeAllBounds(exprs: seq<Expr>, i: nat)
    requires i < |exprs|
    ensures Size(exprs[i]) <= SizeAll(exprs)
    decreases i
  {
    if i > 0 {
      SizeAllBounds(exprs[1..], i - 1);
      assert exprs[1..][i - 1] == exprs[i];
    }
  }

  /** `print`: the visitor's dispatch on the node kind; it never fails. */
  method Print(show: Literal -> string, e: Expr) returns (r: Result<string>)
    ensures r == Ok(Printed(show, e))
    decreases Size(e), 1
  {
    match e {
      case Binary(l, op, right) =>
        SizeAllSmall(l, right);
        assert PrintedAll(show, [l, right]) == [Printed(show, l), Printed(show, right)];
        r := Parenthesize(show, op.lexeme, [l, right]);
      case Grouping(x) =>
        SizeAllSmall(x, x);
        assert PrintedAll(show, [x]) == [Printed(show, x)];
        r := Parenthesize(show, "group", [x]);
      case Literal(v) =>
        if v.Some? {
          r := Ok(show(v.value));
        } else {
          r := Ok("nil");
        }
      case Unary(op, x) =>
        SizeAllSmall(x, x);
        assert PrintedAll(show, [x]) == [Printed(show, x)];
        r := Parenthesize(show, op.lexeme, [x]);
    }
  }

  /**
   * `parenthesize`: starts the builder with `(` and the name, appends a space
   * and each child's text in turn, propagating a child's error, and closes
   * the list.
   */
  method Parenthesize(show: Literal -> string, name: string, exprs: seq<Expr>) returns (r: Result<string>)
    ensures r == Ok(Parenthesized(name, PrintedAll(show, exprs)))
    decreases SizeAll(exprs) + 1, 0
  {
    ghost var parts := PrintedAll(show, exprs);
    var builder := "(" + name;
    var i := 0;
    while i < |exprs|
      invariant 0 <= i <= |exprs|
      invariant builder == "(" + name + Joined(parts[..i])
    {
      SizeAllBounds(exprs, i);
      // The source propagates a child's error with `?`; no child fails, so
      // the text is read directly.
      var printed := Print(show, exprs[i]);
      var text := printed.value;
      JoinedStep(parts, i);
      Extend("(" + name, Joined(parts[..i]), text);
      builder := builder + " " + text;
      i := i + 1;
    }
    assert parts[..i] == parts;
    builder := builder + ")";
    r := Ok(builder);
  }

  /** One more part adds a space and that part. */
  lemma JoinedStep(parts: seq<string>, i: nat)
    requires i < |parts|
    ensures Joined(parts[..i + 1]) == Joined(parts[..i]) + " " + parts[i]
  {
    assert parts[..i + 1][..i] == parts[..i];
  }

  lemma Extend(prefix: string, joined: string, text: string)
    ensures prefix + joined + " " + text == prefix + (joined + " " + text)
  {
  }

  /** How often a character occurs in a text. */
  function Occurrences(c: char, s: string): nat
  {
    if |s| == 0 then 0 else (if s[0] == c then 1 else 0) + Occurrences(c, s[1..])
  }

  lemma {:induction false} OccurrencesAppend(c: char, a: string, b: string)
    ensures Occurrences(c, a + b) == Occurrences(c, a) + Occurrences(c, b)
  {
    if |a| > 0 {
      assert (a + b)[1..] == a[1..] + b;
      OccurrencesAppend(c, a[1..], b);
    } else {
      assert a + b == b;
    }
  }

  /** The interior nodes of a tree: the ones printed as a list. */
  function Lists(e: Expr): nat
  {
    match e
    case Binary(l, _, r) => 1 + Lists(l) + Lists(r)
    case Grouping(x) => 1 + Lists(x)
    case Literal(_) => 0
    case Unary(_, x) => 1 + Lists(x)
  }

  /** No operator lexeme in the tree contains the character. */
  predicate LexemesAvoid(c: char, e: Expr)
  {
    match e
    case Binary(l, op, r) => Occurrences(c, op.lexeme) == 0 && LexemesAvoid(c, l) && LexemesAvoid(c, r)
    case Grouping(x) => LexemesAvoid(c, x)
    case Literal(_) => true
    case Unary(op, x) => Occurrences(c, op.lexeme) == 0 && LexemesAvoid(c, x)
  }

  /** The characters of a list's fixed parts. */
  lemma FixedCounts(c: char)
    requires c == '(' || c == ')'
    ensures Occurrences(c, "") == 0 && Occurrences(c, " ") == 0 && Occurrences(c, "group") == 0
    ensures Occurrences(c, "(") == (if c == '(' then 1 else 0)
    ensures Occurrences(c, ")") == (if c == ')' then 1 else 0)
  {
    assert " "[1..] == "" && "("[1..] == "" && ")"[1..] == "";
    assert "group"[1..] == "roup" && "roup"[1..] == "oup" && "oup"[1..] == "up" && "up"[1..] == "p" && "p"[1..] == "";
  }

  /** A list's characters are those of `(`, its name, a space and its text per part, and `)`. */
  lemma ListCounts(c: char, name: string, x: string, y: string)
    ensures Occurrences(c, Parenthesized(name, [x])) == Occurrences(c, "(") + Occurrences(c, name) + Occurrences(c, " ") + Occurrences(c, x) + Occurrences(c, ")")
    ensures Occurrences(c, Parenthesized(name, [x, y])) == Occurrences(c, "(") + Occurrences(c, name) + 2 * Occurrences(c, " ") + Occurrences(c, x) + Occurrences(c, y) + Occurrences(c, ")")
  {
    JoinedSmall(x, y);
    OccurrencesAppend(c, " ", x);
    OccurrencesAppend(c, " " + x, " ");
    OccurrencesAppend(c, " " + x + " ", y);
    OccurrencesAppend(c, "(", name);
    OccurrencesAppend(c, "(" + name, Joined([x]));
    OccurrencesAppend(c, "(" + name + Joined([x]), ")");
    OccurrencesAppend(c, "(" + name, Joined([x, y]));
    OccurrencesAppend(c, "(" + name + Joined([x, y]), ")");
  }

  /**
   * When neither the literal texts nor the operator lexemes contain a
   * parenthesis, the printed text holds exactly one `(` and one `)` per
   * interior node.
   */
  lemma {:induction false} ParenthesesCountLists(show: Literal -> string, e: Expr)
    requires forall v :: Occurrences('(', show(v)) == 0 && Occurrences(')', show(v)) == 0
    requires LexemesAvoid('(', e) && LexemesAvoid(')', e)
    ensures Occurrences('(', Printed(show, e)) == Lists(e)
    ensures Occurrences(')', Printed(show, e)) == Lists(e)
  {
    match e
    case Binary(l, op, r) =>
      ParenthesesCountLists(show, l);
      ParenthesesCountLists(show, r);
      PairCounts(op.lexeme, Printed(show, l), Printed(show, r));
    case Grouping(x) =>
      ParenthesesCountLists(show, x);
      SingleCounts("group", Printed(show, x));
    case Literal(v) =>
      assert "nil"[1..] == "il" && "il"[1..] == "l" && "l"[1..] == "";
    case Unary(op, x) =>
      ParenthesesCountLists(show, x);
      SingleCounts(op.lexeme, Printed(show, x));
  }

  /** A one-part list adds one `(` and one `)` to those of its name and part. */
  lemma SingleCounts(name: string, x: string)
    ensures Occurrences('(', Parenthesized(name, [x])) == 1 + Occurrences('(', name) + Occurrences('(', x)
    ensures Occurrences(')', Parenthesized(name, [x])) == 1 + Occurrences(')', name) + Occurrences(')', x)
  {
    FixedCounts('(');
    FixedCounts(')');
    ListCounts('(', name, x, "");
    ListCounts(')', name, x, "");
  }

  /** A two-part list adds one `(` and one `)` to those of its name and parts. */
  lemma PairCounts(name: string, x: string, y: string)
    ensures Occurrences('(', Parenthesized(name, [x, y])) == 1 + Occurrences('(', name) + Occurrences('(', x) + Occurrences('(', y)
    ensures Occurrences(')', Parenthesized(name, [x, y])) == 1 + Occurrences(')', name) + Occurrences(')', x) + Occurrences(')', y)
  {
    FixedCounts('(');
    FixedCounts(')');
    ListCounts('(', name, x, y);
    ListCounts(')', name, x, y);
  }

  lemma Associative(a: string, b: string, c: string)
    ensures (a + b) + c == a + (b + c)
  {
  }

  /** A binary node prints as its operator followed by both operands, left first. */
  lemma BinaryText(show: Literal -> string, l: Expr, op: Token, r: Expr)
    ensures Printed(show, Binary(l, op, r)) == "(" + op.lexeme + " " + Printed(show, l) + " " + Printed(show, r) + ")"
  {
    var a, b := Printed(show, l), Printed(show, r);
    JoinedSmall(a, b);
    Associative("(" + op.lexeme, " ", a);
    Associative("(" + op.lexeme, " " + a, " ");
    Associative("(" + op.lexeme, " " + a + " ", b);
  }

  /** A grouping prints as `(group ...)` around its content. */
  lemma GroupingText(show: Literal -> string, x: Expr)
    ensures Printed(show, Grouping(x)) == "(group " + Printed(show, x) + ")"
  {
    JoinedSmall(Printed(show, x), "");
    assert "(" + "group" + " " == "(group ";
    Associative("(" + "group", " ", Printed(show, x));
  }

  /** A unary node prints as its operator followed by its operand. */
  lemma UnaryText(show: Literal -> string, op: Token, x: Expr)
    ensures Printed(show, Unary(op, x)) == "(" + op.lexeme + " " + Printed(show, x) + ")"
  {
    JoinedSmall(Printed(show, x), "");
    Associative("(" + op.lexeme, " ", Printed(show, x));
  }

  /** A literal node without a value prints as `nil`; one with a value as that value's text. */
  lemma LiteralText(show: Literal -> string, v: Option<Literal>)
    ensures v == None ==> Printed(show, Literal(v)) == "nil"
    ensures v.Some? ==> Printed(show, Literal(v)) == show(v.value)
  {
  }

  /** The tree of `-123 * (45.67)`. */
  function ExampleTree(): Expr
  {
    Binary(Unary(Token(Minus, "-", None, 1), Literal(Some(Num(123.0)))), Token(Star, "*", None, 1), Grouping(Literal(Some(Num(45.67)))))
  }

  lemma ExampleOperands(show: Literal -> string)
    requires show(Num(123.0)) == "123" && show(Num(45.67)) == "45.67"
    ensures Printed(show, ExampleTree().left) == "(- 123)"
    ensures Printed(show, ExampleTree().right) == "(group 45.67)"
  {
    UnaryText(show, Token(Minus, "-", None, 1), Literal(Some(Num(123.0))));
    GroupingText(show, Literal(Some(Num(45.67))));
    assert "(" + "-" + " " + "123" + ")" == "(- 123)";
  }

  lemma ExampleText(show: Literal -> string)
    requires show(Num(123.0)) == "123" && show(Num(45.67)) == "45.67"
    ensures Printed(show, ExampleTree()) == "(* (- 123) (group 45.67))"
  {
    var e := ExampleTree();
    ExampleOperands(show);
    BinaryText(show, e.left, e.operator, e.right);
    assert "(" + "*" + " " + "(- 123)" + " " + "(group 45.67)" + ")" == "(* (- 123) (group 45.67))";
  }

  /** The tree of `-123 * (45.67)` prints as `(* (- 123) (group 45.67))`. */
  method PrintExample(show: Literal -> string) returns (r: Result<string>)
    requires show(Num(123.0)) == "123" && show(Num(45.67)) == "45.67"
    ensures r == Ok("(* (- 123) (group 45.67))")
  {
    ExampleText(show);
    r := Print(show, ExampleTree());
  }

}
