/**
 * What one scanToken call does, rule by rule, in the order the C++
 * switch tries them: two-character operators first, then the consumed
 * character decides.
 */
module LexerRules {
  import opened Wrappers
  import opened Tokens
  import opened Errors
  import opened Lexer

  /**
   * If the next two characters spell a two-character operator, that is one
   * token with those two characters as lexeme; `current` moves by two and
   * neither the column nor the row moves.
   */
  lemma DoubleRule(lx: LexState)
    requires lx.Valid() && IsDoubleAt(lx.source, lx.current)
    ensures !lx.AtEnd()
    ensures var r := ScanToken(lx);
      && r.Ok? && r.value.token.Some?
      && r.value.token.value.kind == DoubleKind(lx.source[lx.current], lx.source[lx.current + 1]).value
      && CategoryOf(r.value.token.value.kind) == TwoChar
      && r.value.token.value.lexeme == lx.source[lx.current..lx.current + 2]
      && r.value.next.current == lx.current + 2
      && r.value.next.row == lx.row && r.value.next.column == lx.column
  {
    DoubleStep(lx);
  }

  /** A one-character punctuation mark other than the slash is a token of its table kind. */
  lemma SingleRule(lx: LexState)
    requires lx.Valid() && !lx.AtEnd() && !IsDoubleAt(lx.source, lx.current)
    requires SingleKind(Cur(lx)).Some? && Cur(lx) != '/'
    ensures var r := ScanToken(lx);
      && r.Ok? && r.value.token.Some?
      && r.value.token.value.kind == SingleKind(Cur(lx)).value
      && r.value.token.value.lexeme == [Cur(lx)]
      && r.value.next.current == lx.current + 1
      && r.value.next.row == lx.row && r.value.next.column == lx.column + 1
  {
  }

  /** A slash followed by neither `/` nor `*` is a SLASH token whose lexeme is empty. */
  lemma LoneSlashRule(lx: LexState)
    requires lx.Valid() && !lx.AtEnd() && Cur(lx) == '/'
    requires lx.PeekNext() != '/' && lx.PeekNext() != '*'
    ensures var r := ScanToken(lx);
      && r.Ok? && r.value.token.Some?
      && r.value.token.value.kind == Slash && r.value.token.value.lexeme == ""
      && r.value.next.current == lx.current + 1
  {
    DoubleTableChars();
  }

  /** Space, carriage return and tab are skipped: no token, one column. */
  lemma BlankRule(lx: LexState)
    requires lx.Valid() && !lx.AtEnd()
    requires Cur(lx) == ' ' || Cur(lx) == '\r' || Cur(lx) == '\t'
    ensures var r := ScanToken(lx);
      && r.Ok? && r.value.token.None?
      && r.value.next.current == lx.current + 1
      && r.value.next.row == lx.row && r.value.next.column == lx.column + 1
  {
    DoubleTableChars();
  }

  /** A newline is skipped and moves to the next row, column 1. */
  lemma NewlineRule(lx: LexState)
    requires lx.Valid() && !lx.AtEnd() && Cur(lx) == '\n'
    ensures var r := ScanToken(lx);
      && r.Ok? && r.value.token.None?
      && r.value.next.current == lx.current + 1
      && r.value.next.row == lx.row + 1 && r.value.next.column == 1
  {
    DoubleTableChars();
  }

  /**
   * `#` and two slashes start a comment that runs up to, but not including, the
   * next newline (or the end of the source); it yields nothing.
   */
  lemma LineCommentRule(lx: LexState)
    requires lx.Valid() && !lx.AtEnd()
    requires Cur(lx) == '#' || (Cur(lx) == '/' && lx.PeekNext() == '/')
    ensures var r := ScanToken(lx);
      && r.Ok? && r.value.token.None?
      && r.value.next.row == lx.row
      && (r.value.next.current == |lx.source| || lx.source[r.value.next.current] == '\n')
      && forall i :: lx.current < i < r.value.next.current ==> lx.source[i] != '\n'
  {
    DoubleTableChars();
  }

  // Slash-star starts a block comment that ends at the first star-slash
  // from the opening star on, so slash-star-slash is closed. Without a
  // closer the scan fails with UnterminatedComment and the SLASH token made
  // just after the slash.
  lemma BlockCommentRule(lx: LexState)
    requires lx.Valid() && !lx.AtEnd() && Cur(lx) == '/' && lx.PeekNext() == '*'
    ensures var r := ScanToken(lx);
      && (r.Ok? <==> exists q: nat :: lx.current < q && ClosesAt(lx.source, q))
      && (r.Ok? ==>
            && r.value.token.None? && lx.current + 3 <= r.value.next.current
            && ClosesAt(lx.source, r.value.next.current - 2)
            && forall q: nat :: lx.current < q < r.value.next.current - 2 ==> !ClosesAt(lx.source, q))
      && (r.Err? ==> r.error == ParseError(UnterminatedComment, NewToken(lx.Advance(), Slash, ""), []))
  {
    DoubleTableChars();
    var r := BlockComment(lx.Advance(), NewToken(lx.Advance(), Slash, ""));
    if r.Ok? {
      assert ClosesAt(lx.source, r.value.current - 2);
    }
  }

  /**
   * An identifier is the maximal run of letters, digits and underscores
   * starting with a letter or underscore; its kind is the keyword the run
   * spells, or IDENTIFIER if it spells none.
   */
  ghost predicate IdentifierScanned(lx: LexState, r: Result<Scanned, ParseError>)
    requires lx.Valid()
  {
    && r.Ok? && r.value.token.Some? && lx.current <= r.value.next.current <= |lx.source|
    && r.value.token.value.lexeme == lx.source[lx.current..r.value.next.current]
    && (forall i :: lx.current <= i < r.value.next.current ==> IsIdentChar(lx.source[i]))
    && (r.value.next.current == |lx.source| || !IsIdentChar(lx.source[r.value.next.current]))
    && (KeywordKind(r.value.token.value.lexeme).Some? ==>
          r.value.token.value.kind == KeywordKind(r.value.token.value.lexeme).value)
    && (KeywordKind(r.value.token.value.lexeme).None? ==> r.value.token.value.kind == Identifier)
  }

  /** scanToken hands this character to the identifier rule. */
  lemma ToIdentifier(lx: LexState)
    requires lx.Valid() && !lx.AtEnd() && (IsAlpha(Cur(lx)) || Cur(lx) == '_')
    ensures ScanToken(lx) == ScanIdentifier(lx)
  {
    WordDispatch(lx);
    assert ScanDefault(lx) == ScanIdentifier(lx);
  }

  lemma IdentifierRule(lx: LexState)
    requires lx.Valid() && !lx.AtEnd() && (IsAlpha(Cur(lx)) || Cur(lx) == '_')
    ensures IdentifierScanned(lx, ScanIdentifier(lx))
  {
  }

  /**
   * A number is a maximal digit run, then, if a dot follows, the dot and a
   * further digit run: `1.` is one number, `1.2.3` starts with `1.2`.
   */
  ghost predicate NumberScanned(lx: LexState, r: Result<Scanned, ParseError>)
    requires lx.Valid()
  {
    && r.Ok? && r.value.token.Some? && r.value.token.value.kind == Number
    && lx.current <= r.value.next.current <= |lx.source|
    && r.value.token.value.lexeme == lx.source[lx.current..r.value.next.current]
    && IsNumberText(r.value.token.value.lexeme)
    && (r.value.next.current == |lx.source|
        || (!IsDigit(lx.source[r.value.next.current])
            && (lx.source[r.value.next.current] == '.' ==> '.' in r.value.token.value.lexeme)))
  }

  /** scanToken hands this character to the number rule. */
  lemma ToNumber(lx: LexState)
    requires lx.Valid() && !lx.AtEnd() && IsDigit(Cur(lx))
    ensures ScanToken(lx) == ScanNumber(lx)
  {
    WordDispatch(lx);
    assert ScanDefault(lx) == ScanNumber(lx);
  }

  lemma NumberRule(lx: LexState)
    requires lx.Valid() && !lx.AtEnd() && IsDigit(Cur(lx))
    ensures NumberScanned(lx, ScanNumber(lx))
  {
    var lx2 := AdvanceWhile(lx.Advance(), DigitText);
    if lx2.Peek() == '.' {
      var lx3 := AdvanceWhile(lx2.Advance(), DigitText);
      FractionNumberText(lx.source, lx.current, lx2.current, lx3.current);
    } else {
      IntegerNumberText(lx.source, lx.current, lx2.current);
    }
  }

  lemma IntegerNumberText(s: string, start: nat, n: nat)
    requires start < n <= |s|
    requires forall i :: start <= i < n ==> IsDigit(s[i])
    ensures IsNumberText(s[start..n]) && '.' !in s[start..n]
  {
  }

  lemma FractionNumberText(s: string, start: nat, k: nat, n: nat)
    requires start < k < n <= |s| && s[k] == '.'
    requires forall i :: start <= i < k ==> IsDigit(s[i])
    requires forall i :: k < i < n ==> IsDigit(s[i])
    ensures IsNumberText(s[start..n]) && '.' in s[start..n]
  {
    var t := s[start..n];
    assert t[k - start] == '.';
    assert forall i :: 0 <= i < k - start ==> IsDigit(t[i]);
    assert forall i :: k - start < i < |t| ==> IsDigit(t[i]);
  }

  /**
   * A string literal's lexeme is exactly the text between the opening
   * quote and the next quote; without a closing quote the scan fails with
   * UnterminatedString and the token made just after the opening quote.
   */
  ghost predicate StringScanned(lx: LexState, r: Result<Scanned, ParseError>)
    requires lx.Valid() && !lx.AtEnd()
  {
    && (r.Ok? <==> exists q: nat :: lx.current < q < |lx.source| && lx.source[q] == '"')
    && (r.Ok? ==>
          && r.value.token.Some? && r.value.token.value.kind == String
          && lx.current + 2 <= r.value.next.current <= |lx.source|
          && lx.source[r.value.next.current - 1] == '"'
          && r.value.token.value.lexeme == lx.source[lx.current + 1..r.value.next.current - 1]
          && '"' !in r.value.token.value.lexeme)
    && (r.Err? ==> r.error == ParseError(UnterminatedString, NewToken(lx.Advance(), String, "\""), []))
  }

  /** scanToken hands this character to the string rule. */
  lemma ToString(lx: LexState)
    requires lx.Valid() && !lx.AtEnd() && Cur(lx) == '"'
    ensures ScanToken(lx) == ScanString(lx)
  {
    WordDispatch(lx);
    assert ScanDefault(lx) == ScanString(lx);
  }

  lemma StringRule(lx: LexState)
    requires lx.Valid() && !lx.AtEnd() && Cur(lx) == '"'
    ensures StringScanned(lx, ScanString(lx))
  {
    var r := StringBody(lx.Advance(), NewToken(lx.Advance(), String, "\""));
    if r.Ok? {
      var q: nat := r.value.current;
      assert lx.source[q] == '"';
    }
  }

  /** A character no rule responds to is dropped: no token and no error. */
  lemma DroppedRule(lx: LexState)
    requires lx.Valid() && !lx.AtEnd() && !Recognized(Cur(lx))
    ensures ScanToken(lx) == Ok(Scanned(None, lx.Advance()))
  {
    DoubleTableChars();
  }

  /**
   * Letters, underscores, digits and quotes are neither blanks, comment
   * starts, slashes nor table punctuation, and start no two-character
   * operator: scanToken hands them to the default case.
   */
  lemma WordDispatch(lx: LexState)
    requires lx.Valid() && !lx.AtEnd()
    requires IsAlpha(Cur(lx)) || Cur(lx) == '_' || IsDigit(Cur(lx)) || Cur(lx) == '"'
    ensures SingleKind(Cur(lx)).None?
    ensures ScanToken(lx) == ScanDefault(lx)
  {
    NotDouble(lx);
  }

  /** A character outside the one-character table starts no two-character operator. */
  lemma NotDouble(lx: LexState)
    requires lx.Valid() && !lx.AtEnd() && SingleKind(Cur(lx)).None?
    ensures ScanToken(lx) == ScanChar(lx)
  {
    DoubleTableChars();
  }
}
