# Jialox expression pipeline in Dafny

This project models the expression core of Jialox, a Rust tree-walking interpreter for a Lox-like language. The model covers five parts:

- the token record (`src/token.rs`);
- the recursive-descent parser over a token vector that ends in `Eof` (`src/parser.rs`);
- the evaluator's case table and recursion (`src/interpreter.rs`);
- the variable table (`src/environment.rs`);
- the Lisp-style AST printer (`src/ast_printer.rs`).

Each part takes the form the Rust code has:

- The evaluator and the token record are pure, so they are datatypes and functions.
- The parser is a `class Parser` with its token list and the mutable cursor `current`. Each grammar rule is a method with the source's `while` loop. Each method is proved to compute exactly what a function of the same rule computes: `ParseExpression`, `ParseLevel`, `ParseUnary` and `ParsePrimary`, all in `parser.dfy`.
- The environment is a `class Environment` over a `map`. `Define` updates it in place and `Get` is a function that reads it.
- The printer's `parenthesize` is a method whose loop extends a builder string. It is proved against the specification function `Printed`.

The main parser results are these:

- `ParserSoundness.ParseExpressionCharacterised` is an if-and-only-if. The parser returns a tree `e` and stops at `end` exactly when three things hold:
  - the tokens from the start position spell `e`;
  - `e` is canonical, meaning it respects the precedence ladder and left associativity;
  - the token at `end` is no binary operator.
- `ParserProperties.RoundTrip` is the round trip from a tree to tokens and back.
- `ParserSoundness.ExpressionErrors` says there are exactly two error outcomes, and says where the cursor is left for each.

Files:

- `wrappers.dfy`: Option.
- `literal.dfy`: the value type, and the floating-point parameters.
- `token.dfy`: token kinds and the token record.
- `error.dfy`: the error record and `Result`.
- `expr.dfy`: the tree.
- `interpreter.dfy` and `interpreter_properties.dfy`: the evaluator and its properties.
- `parser.dfy`, `parser_properties.dfy` and `parser_soundness.dfy`: the parser and its properties.
- `environment.dfy`: the variable table.
- `ast_printer.dfy`: the printer.
- `programs.dfy`: whole programs parsed, evaluated and printed.

Some types the Rust code uses are not defined in the files modelled here, so the model defines them itself:

- `token_type.rs` is not part of this model, so `TokenType` is defined here. It has the kinds the expression code names, one-by-one. The punctuators and keywords that only statements use are grouped under two constructors, `Punctuator(..)` and `Keyword(..)`. The expression code never names them, so the grouping changes no branch.
- The generated `expr.rs` is not part of this model either. `Expr` is a datatype with the four node kinds that the visitor methods of `src/interpreter.rs` and `src/ast_printer.rs` use.
- `Literal` gets the internal `ArithmeticError` variant. The evaluator uses it at `src/interpreter.rs:28`, but `src/literal.rs` does not declare it.
- `JialoxError` gets an optional token, to model `runtime_error`, which `src/environment.rs:27` calls. `src/error.rs` does not define `runtime_error`. The model gives the error the token's line and records the token.

## Model

| member | source | states |
|---|---|---|
| Tokens.New | src/token.rs:15-22 | the new token holds exactly the given kind, lexeme, literal and line |
| Tokens.EofToken | src/token.rs:24-31 | the end-of-input token has kind `Eof`, an empty lexeme, no literal and the given line |
| Tokens.Is | src/token.rs:33-35 | `is` holds for the token's own kind and for no other kind |
| Tokens.IsOwnKindOnly | src/token.rs:33-35 | `is(t)` holds exactly when `t` is the token's own kind |
| Tokens.Mirror | src/token.rs:37-44 | the copy has the same four fields, so it equals the original |
| Errors.Error | src/error.rs:7-10 | a plain error holds the given line and message and names no token |
| Errors.RuntimeError | src/environment.rs:27-30 | a runtime error carries the token and that token's line |
| Literals.Divide | src/interpreter.rs:21 | for a non-zero divisor the quotient times the divisor is the dividend |
| Interpreter.IsTruthy | src/interpreter.rs:109-112 | a boolean is truthy exactly when it is `true`, `nil` is falsey, and every other value is truthy |
| Interpreter.Operate | src/interpreter.rs:16-64 | the case table never yields `nil`; a number comes only from two numbers and `+ - * /`; a string comes only from `+` with a string on one side and a string or number on the other; a boolean comes only from a comparison or (in)equality, and an ordering comparison only of two numbers |
| Interpreter.CombineBinary | src/interpreter.rs:14-72 | a success is never the sentinel; every failure is "Illegal expression" at the operator's line |
| Interpreter.CombineUnary | src/interpreter.rs:86-96 | a success is never the sentinel; it fails exactly for operators other than `-` and `!` |
| Interpreter.Evaluate | src/interpreter.rs:105-107 | every failure is an illegal operation at the line of some binary operator in the tree, or the unreachable-unary error; a tree without sentinel literals never evaluates to the sentinel |
| Interpreter.VisitBinary | src/interpreter.rs:11-73 | the same failure and result guarantees for a binary node |
| Interpreter.VisitGrouping | src/interpreter.rs:75-77 | the same guarantees for a grouping |
| Interpreter.VisitLiteral | src/interpreter.rs:79-81 | a literal node yields its stored value, which must be present |
| Interpreter.VisitUnary | src/interpreter.rs:83-97 | the same failure guarantees for a unary node, and a success is never the sentinel |
| InterpreterProperties.IllegalExactlyWhenUndefined | src/interpreter.rs:16-72 | a binary operation fails exactly on the operand and operator combinations the table does not list, with "Illegal expression" at the operator's line |
| InterpreterProperties.NumberOperands | src/interpreter.rs:17-29 | two numbers: `+ - * /` give the arithmetic result, the comparisons and `==`/`!=` give the boolean answer, and any other operator fails |
| InterpreterProperties.StringOperands | src/interpreter.rs:30-35 | two strings: `+` concatenates, `==`/`!=` compare, and any other operator fails |
| InterpreterProperties.MixedOperands | src/interpreter.rs:36-47 | a number and a string in either order: `+` joins the number's text and the string, `==` is false, `!=` is true, and anything else fails |
| InterpreterProperties.BoolAndNilOperands | src/interpreter.rs:48-57 | two booleans support only `==`/`!=`; two `nil`s are equal and not unequal; any other operator fails |
| InterpreterProperties.NilAsymmetry | src/interpreter.rs:58-63 | `nil` on the left of another value is unequal to it, while that value on the left of `nil` fails for every operator |
| InterpreterProperties.EqualityIsStructural | src/interpreter.rs:27-59 | where `==` is defined, it is structural equality of the two values |
| InterpreterProperties.InequalityNegatesEquality | src/interpreter.rs:26-60 | `!=` is defined on exactly the pairs `==` is, and gives the opposite boolean |
| InterpreterProperties.UnaryOperators | src/interpreter.rs:86-96 | `-` negates a number and yields `nil` for anything else; `!` is negated truthiness; other operators fail at line 0 |
| InterpreterProperties.Truthiness | src/interpreter.rs:109-112 | only `false` and `nil` are falsey, so `0` and `""` are truthy |
| InterpreterProperties.BinaryEvaluationOrder | src/interpreter.rs:11-13 | the left operand's error wins, then the right's, then the case table decides |
| InterpreterProperties.NodeEvaluation | src/interpreter.rs:75-91 | a grouping is its content, a literal is its value, and a unary node applies its operator to the operand's value after propagating its error |
| InterpreterProperties.StripGroupings | src/interpreter.rs:75-77 | removing groupings keeps every literal's value present |
| InterpreterProperties.GroupingsDoNotMatter | src/interpreter.rs:75-77 | removing every grouping node changes no evaluation result |
| Parser.AtEnd | src/parser.rs:158-160 | in a token list that ends in `Eof`, the last position is the end |
| Parser.Check | src/parser.rs:144-149 | `check` accepts exactly a kind other than `Eof` that the current token has, so it never accepts `Eof` |
| Parser.MatchesAny | src/parser.rs:134-142 | a match means `check` accepts the current token's own kind |
| Parser.MatchesAnySomeCheck | src/parser.rs:134-142 | the decision of `is_match` holds exactly when `check` passes for one of the listed kinds, as its loop tries them |
| Parser.NotAtEndHasNext | src/parser.rs:151-156 | before the `Eof` token there is always a next token |
| Parser.ParseExpression | src/parser.rs:19-21 | the cursor never moves back, stays on a token, and advances on success |
| Parser.ParseLevel | src/parser.rs:23-86 | the same cursor guarantees for each binary level |
| Parser.ParseOperand | src/parser.rs:24-28 | the same cursor guarantees for a level's operand |
| Parser.ParseLoop | src/parser.rs:26-35 | a level's loop never moves the cursor back |
| Parser.ParseUnary | src/parser.rs:88-98 | the same cursor guarantees for `unary` |
| Parser.ParsePrimary | src/parser.rs:100-123 | the same cursor guarantees for `primary` |
| Parser.LevelStarts | src/parser.rs:23-24 | a level parses one operand first; that operand's error is the level's result |
| Parser.LoopTurns | src/parser.rs:26-33 | on an operator of the level, the loop consumes it, parses one operand and folds it onto the tree built so far |
| Parser.LoopStops | src/parser.rs:26-35 | without an operator of the level the loop ends with the tree built so far and the cursor unmoved |
| Parser.FactorOperands | src/parser.rs:74-78 | the factor level's operands are unary expressions |
| Parser.TighterOperands | src/parser.rs:24-63 | the operands of equality, comparison and term are the next tighter level |
| Parser.Parser.constructor | src/parser.rs:15-17 | the cursor starts at the first token of the given list |
| Parser.Parser.Currentt | src/parser.rs:162-164 | the token under the cursor |
| Parser.Parser.Previous | src/parser.rs:166-168 | the token before the cursor, which must exist |
| Parser.Parser.IsAtEnd | src/parser.rs:158-160 | true exactly on the `Eof` token |
| Parser.Parser.CheckType | src/parser.rs:144-149 | false on `Eof` for every kind, `Eof` included; otherwise whether the current token has the kind |
| Parser.Parser.Advance | src/parser.rs:151-156 | moves one token forward unless on `Eof`, never past it, and returns the token before the new cursor |
| Parser.Parser.IsMatch | src/parser.rs:134-142 | consumes exactly one token exactly when the current token is not `Eof` and its kind is listed |
| Parser.Parser.Consume | src/parser.rs:125-132 | consumes a token of the expected kind and returns it; otherwise fails with the message at the current token's line and does not move |
| Parser.Parser.Expression | src/parser.rs:19-21 | returns and leaves the cursor exactly as `ParseExpression` does |
| Parser.Parser.Equality | src/parser.rs:23-36 | the `while` loop computes exactly the equality level's parse, and sets the cursor to where that parse stops |
| Parser.Parser.Comparison | src/parser.rs:38-56 | the same for the comparison level |
| Parser.Parser.Term | src/parser.rs:58-71 | the same for the term level |
| Parser.Parser.Factor | src/parser.rs:73-86 | the same for the factor level |
| Parser.Parser.Unary | src/parser.rs:88-98 | computes exactly `ParseUnary`'s result and cursor |
| Parser.Parser.Primary | src/parser.rs:100-123 | computes exactly `ParsePrimary`'s result and cursor, with both error messages |
| ParserProperties.OperatorLevelInverts | src/parser.rs:26-76 | each binary operator kind belongs to exactly one level's operator list |
| ParserProperties.Unparse | src/parser.rs:19-123 | writing a tree back out as tokens takes as many tokens as the tree's width |
| ParserProperties.UnparseSpells | src/parser.rs:19-123 | a tree's written-out tokens spell that tree, whatever surrounds them |
| ParserProperties.LoopTurn | src/parser.rs:26-33 | one turn of a level's loop folds the operator and the parsed operand onto the tree |
| ParserProperties.RootOperatorLevel | src/parser.rs:23-86 | a canonical tree binding exactly at a level is a binary node of that level, with a left operand binding at most as loosely and a right operand binding tighter |
| ParserProperties.BinarySpelling | src/parser.rs:23-86 | the spelling of such a node splits into left operand, operator token and right operand |
| ParserProperties.LevelSpine | src/parser.rs:23-86 | a level parses a spelled canonical tree, then continues its loop from the token after it |
| ParserProperties.SpineBinary | src/parser.rs:23-86 | the same for a binary node at the level |
| ParserProperties.SpineTail | src/parser.rs:26-33 | the loop's last turn for a binary node folds in the right operand |
| ParserProperties.OperandExact | src/parser.rs:24-78 | a tree binding tighter than the level is parsed exactly as one operand |
| ParserProperties.LevelExact | src/parser.rs:23-86 | a spelled canonical tree followed by a stopping token is parsed exactly by the level, with the cursor just after it |
| ParserProperties.UnaryExact | src/parser.rs:88-98 | prefix operators nest to the right: a unary or primary tree is parsed exactly by `unary` |
| ParserProperties.PrimaryExact | src/parser.rs:100-121 | a literal token gives a literal node with exactly that token's value; `(` expression `)` gives a grouping |
| ParserProperties.ExpressionExact | src/parser.rs:19-123 | every canonical tree is parsed back exactly from its spelling (completeness) |
| ParserProperties.CanonicalBindsAtMostFive | src/parser.rs:19-21 | no canonical tree binds looser than the equality level |
| ParserProperties.RoundTrip | src/parser.rs:19-123 | parsing a canonical tree's tokens followed by `Eof` gives the tree back and stops on the `Eof` |
| ParserSoundness.ExpressionSound | src/parser.rs:19-123 | whatever `expression` accepts is canonical, spelled by exactly the consumed tokens, and followed by no binary operator (soundness) |
| ParserSoundness.LevelSound | src/parser.rs:23-86 | a level accepts only trees binding at most as loosely as itself and stops on none of its own or tighter operators |
| ParserSoundness.OperandSound | src/parser.rs:24-78 | a level's operand binds strictly tighter than the level |
| ParserSoundness.FoldCanonical | src/parser.rs:29-33 | folding an operator of the level and a tighter operand onto the tree keeps it canonical, binding at the level (left associativity) |
| ParserSoundness.FoldSpells | src/parser.rs:27-33 | the folded node is spelled by the tokens consumed so far |
| ParserSoundness.LoopSound | src/parser.rs:26-35 | a level's loop keeps its tree canonical and exactly spelled, and stops on no operator of the level |
| ParserSoundness.TurnSound | src/parser.rs:26-33 | one successful turn of the loop keeps the tree canonical and exactly spelled up to the new cursor |
| ParserSoundness.UnarySound | src/parser.rs:88-98 | `unary` accepts only a canonical unary or primary tree spelled by the consumed tokens |
| ParserSoundness.PrimarySound | src/parser.rs:100-121 | `primary` accepts only a literal carrying the token's value, or a parenthesised canonical expression |
| ParserSoundness.ParseExpressionCharacterised | src/parser.rs:19-123 | `expression` yields `e` and stops at `end` if and only if the tokens spell the canonical tree `e` up to `end` and the token at `end` is no binary operator |
| ParserSoundness.ExpressionErrors | src/parser.rs:100-132 | every parse error is one of two: "Expected expression" at line 0, where the cursor stops on a token that can start no operand; or the missing `)` message at the line of the token found in the `)`'s place, which is not consumed |
| ParserSoundness.LevelErrors | src/parser.rs:23-86 | a level fails only with one of the two errors |
| ParserSoundness.OperandErrors | src/parser.rs:24-78 | an operand fails only with one of the two errors |
| ParserSoundness.LoopErrors | src/parser.rs:26-35 | a loop fails only with one of the two errors |
| ParserSoundness.UnaryErrors | src/parser.rs:88-98 | `unary` fails only with one of the two errors |
| ParserSoundness.PrimaryErrors | src/parser.rs:100-132 | `primary` fails only with one of the two errors |
| ParserSoundness.NothingToParse | src/parser.rs:122 | a token that can start no expression, `Eof` included, fails with "Expected expression" at line 0 and consumes nothing |
| Environments.Lookup | src/environment.rs:23-32 | finds a value exactly when the lexeme is bound, and returns that value; otherwise returns "var NAME is not defined." attributed to the token |
| Environments.Environment.constructor | src/environment.rs:13-17 | a fresh table binds no name |
| Environments.Environment.Define | src/environment.rs:19-21 | binds the name to the value, replacing an earlier binding, and leaves every other name as it was |
| Environments.Environment.Get | src/environment.rs:23-32 | reads the table without changing it; succeeds exactly for a bound lexeme with its value; otherwise fails at the token's line, naming the token |
| Environments.DefinedNameReadsBack | src/environment.rs:19-25 | after defining `n`, a lookup of a token spelled `n` returns the defined value |
| Environments.RedefinitionReplaces | src/environment.rs:19-21 | defining a name twice keeps only the second value |
| Environments.OtherNamesUnchanged | src/environment.rs:19-21 | defining one name leaves every other name's lookup unchanged |
| Environments.FreshTableHasNoBindings | src/environment.rs:13-31 | every lookup in a fresh table fails with the not-defined message at the token's line |
| Environments.DefineAndLookUp | src/environment.rs:57-65 | on the class: define then get returns the value |
| Environments.RedefineAndLookUp | src/environment.rs:48-55 | on the class: define twice then get returns the second value |
| Environments.LookUpUndefined | src/environment.rs:67-72 | on the class: get in a fresh environment fails, at the token's line, with the not-defined message |
| AstPrinter.Joined | src/ast_printer.rs:16-18 | the text appended after the name is empty exactly when there are no parts, and otherwise starts with a space and holds at least one character per part |
| AstPrinter.Parenthesized | src/ast_printer.rs:14-20 | the list opens with `(` and the name, closes with `)`, and is at least two characters longer than the name plus one per part |
| AstPrinter.Printed | src/ast_printer.rs:24-43 | every interior node prints as a text of at least three characters that opens with `(` and closes with `)` |
| AstPrinter.PrintedAll | src/ast_printer.rs:16-18 | the children's texts, in order |
| AstPrinter.Print | src/ast_printer.rs:9-11 | never fails, and returns exactly the printed text of the tree |
| AstPrinter.Parenthesize | src/ast_printer.rs:13-21 | never fails; returns `(`, the name, one space before each child's text in order, then `)` |
| AstPrinter.ParenthesesCountLists | src/ast_printer.rs:13-43 | when literal texts and operator lexemes contain no parentheses, the text has exactly one `(` and one `)` per binary, grouping or unary node |
| AstPrinter.BinaryText | src/ast_printer.rs:25-27 | a binary node prints as `(` + lexeme + ` ` + left + ` ` + right + `)` |
| AstPrinter.GroupingText | src/ast_printer.rs:29-31 | a grouping prints as `(group ` + content + `)` |
| AstPrinter.UnaryText | src/ast_printer.rs:41-43 | a unary node prints as `(` + lexeme + ` ` + operand + `)` |
| AstPrinter.LiteralText | src/ast_printer.rs:33-39 | a literal prints as its value's text, or `nil` when it has none |
| AstPrinter.ExampleText | src/ast_printer.rs:25-43 | `-123 * (45.67)` prints as `(* (- 123) (group 45.67))` |
| AstPrinter.PrintExample | src/ast_printer.rs:9-43 | the same through the printing methods |
| Programs.SumOfProductParses | src/parser.rs:58-86 | the tokens of `1 + 2 * 3` parse as `Binary(1, +, Binary(2, *, 3))` |
| Programs.ParseSumOfProduct | src/parser.rs:19-98 | the same through the parser class |
| Programs.DifferencesParse | src/parser.rs:58-71 | `1 - 2 - 3` folds to the left |
| Programs.ParseDifferences | src/parser.rs:58-71 | the same through the parser class |
| Programs.PrefixesParse | src/parser.rs:88-98 | `- ! true` nests as `Unary(-, Unary(!, true))` |
| Programs.ParsePrefixes | src/parser.rs:88-98 | the same through the parser class |
| Programs.GroupedSumParses | src/parser.rs:112-121 | `(1 + 2) * 3` keeps the grouping as the left operand of `*` |
| Programs.ParseGroupedSum | src/parser.rs:112-121 | the same through the parser class |
| Programs.UnclosedExpression | src/parser.rs:112-132 | `(1` followed by `Eof` on line 2 fails with the missing-`)` message at line 2 |
| Programs.ParseUnclosed | src/parser.rs:112-132 | the same through the parser class |
| Programs.ParseNothing | src/parser.rs:122 | a program with only `Eof` fails with "Expected expression" |
| Programs.SumOfProductText | src/ast_printer.rs:25-27 | the tree of `1 + 2 * 3` prints as `(+ 1 (* 2 3))` |
| Programs.SumOfProduct | src/interpreter.rs:11-29 | `1 + 2 * 3` parses, evaluates to 7, and prints as `(+ 1 (* 2 3))` |

## Left out

- Floating point. A number is an exact `real`, so IEEE rounding, NaN and infinities are not modelled. What `/` yields for a zero divisor is a caller-supplied function (`F64.quotientByZero`). So is the decimal text `format!` gives a number in string concatenation (`F64.display`).
- Literal display. `src/literal.rs` derives only `Debug`, so the text the printer uses for a value is not defined in the files modelled here. The printer takes it as a parameter, `show`.
- Interpreter.VisitLiteral: the source's `unwrap` panics on a literal node without a value. The model requires `HasValues` instead of modelling the panic.
- Interpreter.Evaluate: it, and `VisitBinary`, `VisitGrouping` and `VisitUnary`, require `HasValues` of the whole tree. So any tree that holds a literal node without a value is excluded, including a tree where an earlier error means the source never reaches that literal: `Binary(Binary(1, -, true), +, Literal(None))` fails in the source with "Illegal expression" from the left operand, but lies outside the model's domain.
- AstPrinter.Parenthesize: the source propagates a child's error with `?`. No child can fail, so the model reads the child's text directly and omits the dead error branch.
- `Rc` sharing, and the reference identity that the generated tree code compares nodes by. The tree is a value here.
- The visitor `accept` dispatch. It is a `match` here.
- The accessors `literal`, `line`, `ttype` and `lexeme`. They are the datatype's fields.
- Token display, `fmt::Display` for `Token`. It relies on `Debug` formatting of a `TokenType` defined outside these files.
- Diagnostic output: `JialoxError::report` and `Interpreter::interpret`. Both only print.
- The scanner. `scan_token` is an empty stub.
- The command line and the prompt in `src/main.rs`. Both are I/O.
- The build-time AST generator in `generate_ast/mod.rs`.
- Statements, variables as expressions, a public `parse` entry point, and error recovery. The parser modelled here has none of them.
