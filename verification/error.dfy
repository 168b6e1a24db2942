/** The diagnostic record shared by the parser, the evaluator and the environment. */
module Errors {

  import opened Wrappers
  import opened Tokens

  /**
   * `JialoxError` holds a line and a message. A runtime error also names the
   * token it is about; a plain error does not.
   */
  datatype JialoxError = JialoxError(line: nat, message: string, token: Option<Token>)

  /** `JialoxError::error`. */
  function Error(line: nat, message: string): (e: JialoxError)
    ensures e.line == line && e.message == message && e.token == None
  {
    JialoxError(line, message, None)
  }

  /** A runtime error attributed to a token: it carries the token and that token's line. */
  function RuntimeError(token: Token, message: string): (e: JialoxError)
    ensures e.line == token.line && e.message == message && e.token == Some(token)
  {
    JialoxError(token.line, message, Some(token))
  }

  /** Rust's `Result<T, JialoxError>`, usable with `:-` as `?` is used in the source. */
  datatype Result<+T> = Ok(value: T) | Err(error: JialoxError) {

    predicate IsFailure() {
      Err?
    }

    function PropagateFailure<U>(): Result<U>
      requires Err?
    {
      Err(error)
    }

    function Extract(): T
      requires Ok?
    {
      value
    }
  }

}
