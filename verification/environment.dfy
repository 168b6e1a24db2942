/**
 * The variable table of src/environment.rs: a map from names to values,
 * updated in place by `define` and read by `get`.
 */
module Environments {

  import opened Wrappers
  import opened Literals
  import opened Tokens
  import opened Errors

  /** The message `get` reports for a name that has no binding. */
  function NotDefined(name: string): string
  {
    "var " + name + " is not defined."
  }

  /** What looking a token's lexeme up in a table yields: its value, or a runtime error about that token. */
  function Lookup(values: map<string, Literal>, name: Token): (r: Result<Literal>)
    ensures r.Ok? <==> name.lexeme in values
    ensures r.Ok? ==> r.value == values[name.lexeme]
    ensures r.Err? ==> r.error == RuntimeError(name, NotDefined(name.lexeme))
  {
    if name.lexeme in values then Ok(values[name.lexeme])
    else Err(RuntimeError(name, NotDefined(name.lexeme)))
  }

  class Environment {

    var values: map<string, Literal>

    /** `Environment::new`: no name is bound. */
    constructor ()
      ensures values == map[]
    {
      values := map[];
    }

    /** `define`: binds the name, replacing any earlier value, and touches no other name. */
    method Define(name: string, value: Literal)
      modifies this
      ensures values == old(values)[name := value]
      ensures name in values && values[name] == value
      ensures forall n :: n != name ==> (n in values <==> n in old(values))
      ensures forall n :: n != name && n in values ==> values[n] == old(values)[n]
    {
      values := values[name := value];
    }

    /** `get`: reads the table only; an unbound name is a runtime error attributed to the token. */
    function Get(name: Token): (r: Result<Literal>)
      reads this
      ensures r.Ok? <==> name.lexeme in values
      ensures r.Ok? ==> r.value == values[name.lexeme]
      ensures r.Err? ==> r.error.line == name.line && r.error.token == Some(name)
      ensures r.Err? ==> r.error.message == NotDefined(name.lexeme)
    {
      Lookup(values, name)
    }
  }

  /** After `define(n, v)`, every token spelled `n` reads `v`. */
  lemma DefinedNameReadsBack(values: map<string, Literal>, name: Token, value: Literal)
    ensures Lookup(values[name.lexeme := value], name) == Ok(value)
  {
  }

  /** Redefining a name keeps only the last value, without error. */
  lemma RedefinitionReplaces(values: map<string, Literal>, n: string, first: Literal, second: Literal)
    ensures values[n := first][n := second] == values[n := second]
  {
  }

  /** `define` leaves the lookup of every other name as it was. */
  lemma OtherNamesUnchanged(values: map<string, Literal>, n: string, value: Literal, name: Token)
    requires name.lexeme != n
    ensures Lookup(values[n := value], name) == Lookup(values, name)
  {
  }

  /** In a fresh table every lookup fails, naming the token and its line. */
  lemma FreshTableHasNoBindings(name: Token)
    ensures Lookup(map[], name) == Err(JialoxError(name.line, "var " + name.lexeme + " is not defined.", Some(name)))
  {
  }

  /** The source's environment tests, restated as verified methods on the class. */
  method DefineAndLookUp(n: string, value: Literal, line: nat) returns (r: Result<Literal>)
    ensures r == Ok(value)
  {
    var e := new Environment();
    e.Define(n, value);
    r := e.Get(Token(Identifier, n, None, line));
  }

  method RedefineAndLookUp(n: string, first: Literal, second: Literal, line: nat) returns (r: Result<Literal>)
    ensures r == Ok(second)
  {
    var e := new Environment();
    e.Define(n, first);
    e.Define(n, second);
    r := e.Get(Token(Identifier, n, None, line));
  }

  method LookUpUndefined(n: string, line: nat) returns (r: Result<Literal>)
    ensures r.Err? && r.error.line == line && r.error.message == NotDefined(n)
  {
    var e := new Environment();
    r := e.Get(Token(Identifier, n, None, line));
  }

}
