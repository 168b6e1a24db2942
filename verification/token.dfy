/** Token kinds and the immutable token record of src/token.rs. */
module Tokens {

  import opened Wrappers
  import opened Literals

  /** The token kinds of the language: punctuators, operators, literals, keywords and end of input. */
  datatype TokenType =
    // single-character tokens of expressions
    | LeftParen | RightParen | Minus | Plus | Slash | Star
    // one- or two-character operators
    | Bang | BangEqual | EqualEqual
    | Greater | GreaterEqual | Less | LessEqual
    // literals
    | Identifier | String | Number
    // keywords that carry a literal value
    | False | True | Nil
    // the punctuators and keywords of statements and declarations, which
    // expressions never contain
    | Punctuator(punctuator: Punctuator)
    | Keyword(keyword: Keyword)
    | Eof

  /** `{`, `}`, `,`, `.`, `;` and `=`. */
  datatype Punctuator = LeftBrace | RightBrace | Comma | Dot | Semicolon | Equal

  /** The reserved words other than `true`, `false` and `nil`. */
  datatype Keyword = And | Class | Else | Func | For | If | Or | Print | Return | Super | This | Var | While

  /**
   * A token never changes after construction: no operation of the source
   * takes it mutably, so it is a value here. Its four fields are its
   * accessors `ttype`, `lexeme`, `literal` and `line`.
   */
  datatype Token = Token(ttype: TokenType, lexeme: string, literal: Option<Literal>, line: nat)

  /** `Token::new`. */
  function New(ttype: TokenType, lexeme: string, literal: Option<Literal>, line: nat): (t: Token)
    ensures t.ttype == ttype && t.lexeme == lexeme && t.literal == literal && t.line == line
  {
    Token(ttype, lexeme, literal, line)
  }

  /** `Token::eof`: the end-of-input token the scanner appends. */
  function EofToken(line: nat): (t: Token)
    ensures t.ttype == Eof && t.lexeme == "" && t.literal == None && t.line == line
  {
    Token(Eof, "", None, line)
  }

  /** `Token::is`: holds for the token's own kind and for no other. */
  function Is(t: Token, ttype: TokenType): (b: bool)
    ensures b <==> ttype == t.ttype
  {
    t.ttype == ttype
  }

  /** `Token::mirror`: a copy with the same four fields, hence a token equal to the original. */
  function Mirror(t: Token): (m: Token)
    ensures m.ttype == t.ttype && m.lexeme == t.lexeme && m.literal == t.literal && m.line == t.line
    ensures m == t
  {
    Token(t.ttype, t.lexeme, t.literal, t.line)
  }

  /** `is` holds exactly for the token's own kind. */
  lemma IsOwnKindOnly(t: Token, ttype: TokenType)
    ensures Is(t, ttype) <==> ttype == t.ttype
  {
  }

}
