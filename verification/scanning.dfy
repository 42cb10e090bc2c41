/**
 * The scan loop (`scanTokens`): call scanToken until the source is used up,
 * keep the tokens it yields, stop at the first error, and close the stream
 * with an END token stamped at the final position.
 */
module Scanning {
  import opened Wrappers
  import opened Tokens
  import opened Errors
  import opened Lexer

  /** The tokens scanned from `lx` onwards, or the first error. */
  function ScanFrom(lx: LexState): Result<seq<Token>, ParseError>
    requires lx.Valid()
    decreases |lx.source| - lx.current
  {
    if lx.AtEnd() then Ok([NewToken(lx, End, "")])
    else
      TokenGood(lx);
      match ScanToken(lx)
      case Err(e) => Err(e)
      case Ok(s) =>
        match ScanFrom(s.next)
        case Err(e) => Err(e)
        case Ok(rest) => Ok((if s.token.Some? then [s.token.value] else []) + rest)
  }

  /** The lexer over a whole file: scanTokens from the initial state. */
  function Lex(filename: string, source: string): Result<seq<Token>, ParseError>
  {
    ScanFrom(Start(filename, source))
  }

  /**
   * A token stream fit for the parser, scanned from position (row, column)
   * on: it ends in exactly one END token with an empty lexeme, and the
   * token positions never go backwards.
   */
  ghost predicate WellFormedFrom(row: int, column: int, ts: seq<Token>)
  {
    && |ts| > 0 && ts[|ts| - 1].kind == End && ts[|ts| - 1].lexeme == ""
    && (forall i :: 0 <= i < |ts| - 1 ==> ts[i].kind != End)
    && (forall i :: 0 <= i < |ts| ==> NotAfter(row, column, ts[i].row, ts[i].column))
    && (forall i :: 0 < i < |ts| ==> NotAfter(ts[i - 1].row, ts[i - 1].column, ts[i].row, ts[i].column))
  }

  /**
   * The scan loop either yields a well-formed stream or stops at an
   * unterminated string or comment; no other error is raised.
   */
  lemma {:induction false} ScanFromGood(lx: LexState)
    requires lx.Valid()
    ensures ScanFrom(lx).Ok? ==> WellFormedFrom(lx.row, lx.column, ScanFrom(lx).value)
    ensures ScanFrom(lx).Err? ==>
      ScanFrom(lx).error.kind == UnterminatedString || ScanFrom(lx).error.kind == UnterminatedComment
    decreases |lx.source| - lx.current
  {
    if !lx.AtEnd() {
      TokenGood(lx);
      var r := ScanToken(lx);
      if r.Ok? {
        var s := r.value;
        ScanFromGood(s.next);
        var rest := ScanFrom(s.next);
        if rest.Ok? {
          if s.token.Some? {
            assert ScanFrom(lx) == Ok([s.token.value] + rest.value);
            PrependToken(lx, s.next, s.token.value, rest.value);
          } else {
            assert ScanFrom(lx) == Ok([] + rest.value);
            SkipStep(lx, s.next, rest.value);
          }
        } else {
          assert ScanFrom(lx) == Err(rest.error);
        }
      } else {
        assert ScanFrom(lx) == Err(r.error);
      }
    }
  }

  /** A step that yields no token leaves a well-formed stream well formed from the earlier position. */
  lemma SkipStep(lx: LexState, next: LexState, rest: seq<Token>)
    requires Progressed(lx, next)
    requires WellFormedFrom(next.row, next.column, rest)
    ensures WellFormedFrom(lx.row, lx.column, [] + rest)
  {
    assert [] + rest == rest;
  }

  /** Putting the token of one good step in front of a well-formed stream keeps it well formed. */
  lemma PrependToken(lx: LexState, next: LexState, t: Token, rest: seq<Token>)
    requires Progressed(lx, next) && t.kind != End && t.row == next.row && t.column == next.column
    requires WellFormedFrom(next.row, next.column, rest)
    ensures WellFormedFrom(lx.row, lx.column, [t] + rest)
  {
    var ts := [t] + rest;
    forall i | 0 < i < |ts|
      ensures NotAfter(ts[i - 1].row, ts[i - 1].column, ts[i].row, ts[i].column)
    {
      if i > 1 {
        assert ts[i - 1] == rest[i - 2] && ts[i] == rest[i - 1];
      }
    }
  }

  /** Lexing a whole file yields a stream that ends in END, or a lexical error. */
  lemma LexGood(filename: string, source: string)
    ensures Lex(filename, source).Ok? ==> WellFormedFrom(1, 1, Lex(filename, source).value)
    ensures Lex(filename, source).Err? ==> IsLexical(Lex(filename, source).error.kind)
  {
    ScanFromGood(Start(filename, source));
  }
}
