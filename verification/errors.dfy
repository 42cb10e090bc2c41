/** Diagnostics raised by the lexer and the parser. */
module Errors {
  import opened Tokens

  /** The closed set of error kinds. */
  datatype ErrorKind =
    | UnterminatedString
    | UnterminatedComment
    | UnexpectedCharacter
    | UnexpectedToken
    | InvalidAssignment
    | TooManyArguments
    | TooManyParameters

  /** A diagnostic: its kind, the token it is anchored at, and kind-specific text. */
  datatype ParseError = ParseError(kind: ErrorKind, token: Token, args: seq<string>)

  /** The kinds only the lexer raises. */
  predicate IsLexical(k: ErrorKind)
  {
    k == UnterminatedString || k == UnterminatedComment || k == UnexpectedCharacter
  }
}
