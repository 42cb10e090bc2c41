/**
 * The lexer: a single pass over the source that yields the tokens in order,
 * closed by one END token, or the first lexical error.
 *
 * The C++ lexer mutates `start/current/row/column`; here every step is a
 * pure function from one LexState to the next. `start` is the `current` of
 * the state a scanToken call begins in, so it is passed explicitly.
 */
module Lexer {
  import opened Wrappers
  import opened Tokens
  import opened Errors
  import opened SourceLines

  datatype LexState = LexState(filename: string, source: string, current: nat, row: int, column: int)
  {
    /** `row` always counts the newlines consumed so far; `column` stays positive. */
    ghost predicate Valid()
    {
      current <= |source| && row == 1 + NewlinesBefore(source, current) && column >= 1
    }

    predicate AtEnd()
    {
      current >= |source|
    }

    /** The next character, or the NUL sentinel at the end of the buffer. */
    function Peek(): char
    {
      if current < |source| then source[current] else '\0'
    }

    /** The character after the next one, or NUL if there is none. */
    function PeekNext(): char
    {
      if current + 1 < |source| then source[current + 1] else '\0'
    }

    /** Consume one character; the column moves with it, the row does not. */
    function Advance(): LexState
      requires current < |source|
    {
      this.(current := current + 1, column := column + 1)
    }

    /** Account for a newline about to be consumed: next row, column 1. */
    function NewRow(): LexState
    {
      this.(row := row + 1, column := 1)
    }
  }

  /** The initial lexer state for a buffer: offset 0, row 1, column 1. */
  function Start(filename: string, source: string): (lx: LexState)
    ensures lx.Valid() && lx.current == 0
  {
    LexState(filename, source, 0, 1, 1)
  }

  /** Both states scan the same file. */
  predicate SameInput(a: LexState, b: LexState)
  {
    a.filename == b.filename && a.source == b.source
  }

  /** Position (r1, c1) is not after (r2, c2) in (row, column) order. */
  predicate NotAfter(r1: int, c1: int, r2: int, c2: int)
  {
    r1 < r2 || (r1 == r2 && c1 <= c2)
  }

  /** The lexer has not moved backwards between `a` and `b`. */
  predicate Progressed(a: LexState, b: LexState)
  {
    SameInput(a, b) && a.current <= b.current && NotAfter(a.row, a.column, b.row, b.column)
  }

  /** A token stamped with the lexer's current file, line text, row and column. */
  function NewToken(lx: LexState, kind: TokenKind, lexeme: string): (t: Token)
    ensures t.kind == kind && t.lexeme == lexeme && t.row == lx.row && t.column == lx.column
  {
    Token(kind, lexeme, lx.filename, GetLine(lx.source, lx.row), lx.row, lx.column)
  }

  predicate IsAlpha(c: char)
  {
    'a' <= c <= 'z' || 'A' <= c <= 'Z'
  }

  predicate IsDigit(c: char)
  {
    '0' <= c <= '9'
  }

  predicate IsIdentChar(c: char)
  {
    IsAlpha(c) || IsDigit(c) || c == '_'
  }

  /** The character classes the lexer consumes greedily. */
  datatype Run = CommentText | IdentText | DigitText

  predicate InRun(run: Run, c: char)
  {
    match run
    case CommentText => c != '\n'
    case IdentText => IsIdentChar(c)
    case DigitText => IsDigit(c)
  }

  /**
   * `while (<class>(peek()) && !isAtEnd()) advance();` for the three
   * greedy loops: comment text up to a newline, identifier characters, digits.
   */
  function AdvanceWhile(lx: LexState, run: Run): (r: LexState)
    requires lx.Valid()
    ensures r.Valid() && Progressed(lx, r) && r.row == lx.row
    ensures r.column == lx.column + (r.current - lx.current)
    ensures forall i :: lx.current <= i < r.current ==> InRun(run, lx.source[i])
    ensures r.current == |lx.source| || !InRun(run, lx.source[r.current])
    decreases |lx.source| - lx.current
  {
    if !lx.AtEnd() && InRun(run, lx.Peek()) then AdvanceWhile(lx.Advance(), run) else lx
  }

  // The comment closer `*` `/` starts at index `q`.
  predicate ClosesAt(s: string, q: nat)
  {
    q + 1 < |s| && s[q] == '*' && s[q + 1] == '/'
  }

  // The body of a block comment, entered just after the slash with the star
  // next. The opening star may itself start the closer, so slash-star-slash
  // is a closed comment. Running off the end fails with the opener token.
  function BlockComment(lx: LexState, opener: Token): (r: Result<LexState, ParseError>)
    requires lx.Valid() && lx.current < |lx.source|
    ensures r.Err? ==> forall q: nat :: lx.current <= q ==> !ClosesAt(lx.source, q)
    ensures r.Ok? ==> r.value.Valid() && Progressed(lx, r.value)
    ensures r.Ok? ==> lx.current + 2 <= r.value.current && ClosesAt(lx.source, r.value.current - 2)
    ensures r.Ok? ==> forall q: nat :: lx.current <= q < r.value.current - 2 ==> !ClosesAt(lx.source, q)
    ensures r.Err? ==> r.error == ParseError(UnterminatedComment, opener, [])
    decreases |lx.source| - lx.current
  {
    if lx.Peek() == '*' && lx.PeekNext() == '/' then
      assert ClosesAt(lx.source, lx.current);
      SameRow(lx);
      SameRow(lx.Advance());
      Ok(lx.Advance().Advance())
    else
      var lx2 := AdvanceLine(lx);
      if lx2.AtEnd() then Err(ParseError(UnterminatedComment, opener, []))
      else BlockComment(lx2, opener)
  }

  /** Consuming a character other than a newline keeps the row count right. */
  lemma SameRow(lx: LexState)
    requires lx.Valid() && !lx.AtEnd() && Cur(lx) != '\n'
    ensures lx.Advance().Valid() && Progressed(lx, lx.Advance())
  {
  }

  /**
   * Consume one character inside a comment or string, where a newline
   * also moves to the next row (the newline test comes first, so the
   * column after it is 2).
   */
  function AdvanceLine(lx: LexState): (r: LexState)
    requires lx.Valid() && !lx.AtEnd()
    ensures r.Valid() && Progressed(lx, r) && r.current == lx.current + 1
  {
    (if lx.Peek() == '\n' then lx.NewRow() else lx).Advance()
  }

  /**
   * The body of a string literal, entered just after the opening quote;
   * stops in front of the next `"`. There are no escapes, and newlines
   * inside bump the row.
   */
  function StringBody(lx: LexState, opener: Token): (r: Result<LexState, ParseError>)
    requires lx.Valid()
    ensures r.Err? ==> forall q :: lx.current <= q < |lx.source| ==> lx.source[q] != '"'
    ensures r.Ok? ==> r.value.Valid() && Progressed(lx, r.value)
    ensures r.Ok? ==> r.value.current < |lx.source| && lx.source[r.value.current] == '"'
    ensures r.Ok? ==> forall q :: lx.current <= q < r.value.current ==> lx.source[q] != '"'
    ensures r.Err? ==> r.error == ParseError(UnterminatedString, opener, [])
    decreases |lx.source| - lx.current
  {
    if lx.Peek() != '"' then
      if lx.AtEnd() then Err(ParseError(UnterminatedString, opener, []))
      else
        StringBody(AdvanceLine(lx), opener)
    else
      Ok(lx)
  }

  /** What one scanToken call yields: a token or nothing, and the state after it. */
  datatype Scanned = Scanned(token: Option<Token>, next: LexState)

  /**
   * A step from `lx` to `s.next` that moved forward, and whose token, if
   * any, is not END and is stamped with the position the step ended at.
   */
  ghost predicate StepFrom(lx: LexState, s: Scanned)
  {
    && s.next.Valid() && Progressed(lx, s.next)
    && (s.token.Some? ==>
          && s.token.value.kind != End
          && s.token.value == NewToken(s.next, s.token.value.kind, s.token.value.lexeme))
  }

  /**
   * What every scanning step promises: on success the state moved forward
   * and stays valid, the token (if any) is stamped where the step ended
   * and its lexeme is the text it was scanned from; the only errors are
   * the two unterminated-literal kinds.
   */
  ghost predicate GoodStep(lx: LexState, r: Result<Scanned, ParseError>)
  {
    match r
    case Ok(s) => StepFrom(lx, s) && lx.current < s.next.current && LexemeFromSource(lx, s)
    case Err(e) => e.kind == UnterminatedString || e.kind == UnterminatedComment
  }

  /** The lexeme fidelity of one step: a token's lexeme is the text it was scanned from. */
  ghost predicate LexemeFromSource(lx: LexState, s: Scanned)
    requires s.next.current <= |lx.source| && lx.current < s.next.current
  {
    s.token.Some? ==>
      var t := s.token.value;
      if t.kind == Slash then t.lexeme == ""
      else if t.kind == String then lx.current + 2 <= s.next.current && t.lexeme == lx.source[lx.current + 1..s.next.current - 1]
      else t.lexeme == lx.source[lx.current..s.next.current]
  }

  /** Characters consumed without a token or an error. */
  predicate IsBlank(c: char)
  {
    c == ' ' || c == '\r' || c == '\t' || c == '\n'
  }

  /** Characters some rule of scanToken responds to; every other one is dropped. */
  predicate Recognized(c: char)
  {
    IsBlank(c) || c == '#' || SingleKind(c).Some? || IsAlpha(c) || c == '_' || IsDigit(c) || c == '"'
  }

  /** The next two characters spell a two-character operator. */
  predicate IsDoubleAt(s: string, i: nat)
  {
    i + 1 < |s| && DoubleKind(s[i], s[i + 1]).Some?
  }

  /** The character under the cursor, which a scanning step starts from. */
  function Cur(lx: LexState): char
    requires !lx.AtEnd()
  {
    lx.source[lx.current]
  }

  /**
   * Blanks, newlines and `#` comments: no token and no error. A newline
   * moves to the next row at column 1; a comment stops in front of the
   * newline that ends it.
   */
  function ScanBlank(lx: LexState): Result<Scanned, ParseError>
    requires lx.Valid() && !lx.AtEnd() && (IsBlank(Cur(lx)) || Cur(lx) == '#')
  {
    var lx1 := lx.Advance();
    if Cur(lx) == '\n' then Ok(Scanned(None, lx1.NewRow()))
    else if Cur(lx) == '#' then
      SameRow(lx);
      Ok(Scanned(None, AdvanceWhile(lx1, CommentText)))
    else Ok(Scanned(None, lx1))
  }

  lemma BlankGood(lx: LexState)
    requires lx.Valid() && !lx.AtEnd() && (IsBlank(Cur(lx)) || Cur(lx) == '#')
    ensures GoodStep(lx, ScanBlank(lx))
  {
    if Cur(lx) != '\n' {
      SameRow(lx);
    }
  }

  // A slash: a line comment, a block comment, or a lone slash, which
  // yields SLASH with an empty lexeme. The block-comment error carries the
  // token made just after the slash.
  function ScanSlash(lx: LexState): Result<Scanned, ParseError>
    requires lx.Valid() && !lx.AtEnd() && Cur(lx) == '/'
  {
    SameRow(lx);
    var lx1 := lx.Advance();
    if lx1.Peek() == '/' then
      Ok(Scanned(None, AdvanceWhile(lx1, CommentText)))
    else if lx1.Peek() == '*' then
      match BlockComment(lx1, NewToken(lx1, Slash, ""))
      case Ok(lx2) => Ok(Scanned(None, lx2))
      case Err(e) => Err(e)
    else
      Ok(Scanned(Some(NewToken(lx1, Slash, "")), lx1))
  }

  lemma SlashGood(lx: LexState)
    requires lx.Valid() && !lx.AtEnd() && Cur(lx) == '/'
    ensures GoodStep(lx, ScanSlash(lx))
  {
    SameRow(lx);
  }

  /** `s` is digits, optionally followed by one `.` and more digits. */
  predicate IsNumberText(s: string)
  {
    && 0 < |s| && IsDigit(s[0])
    && ((forall i :: 0 <= i < |s| ==> IsDigit(s[i]))
        || exists k :: 0 < k < |s| && s[k] == '.'
             && (forall i :: 0 <= i < k ==> IsDigit(s[i]))
             && (forall i :: k < i < |s| ==> IsDigit(s[i])))
  }

  /**
   * An identifier or keyword: the maximal run of letters, digits and
   * underscores; its kind is the keyword the run spells, if any.
   */
  function ScanIdentifier(lx: LexState): Result<Scanned, ParseError>
    requires lx.Valid() && !lx.AtEnd() && (IsAlpha(Cur(lx)) || Cur(lx) == '_')
  {
    SameRow(lx);
    var lx2 := AdvanceWhile(lx.Advance(), IdentText);
    var text := lx.source[lx.current..lx2.current];
    var kw := KeywordKind(text);
    Ok(Scanned(Some(NewToken(lx2, if kw.Some? then kw.value else Identifier, text)), lx2))
  }

  lemma IdentifierGood(lx: LexState)
    requires lx.Valid() && !lx.AtEnd() && (IsAlpha(Cur(lx)) || Cur(lx) == '_')
    ensures GoodStep(lx, ScanIdentifier(lx))
  {
    SameRow(lx);
    KeywordTableKinds();
  }

  /**
   * A number: a maximal digit run, then, if the next character is `.`,
   * that dot and a further (possibly empty) digit run.
   */
  function ScanNumber(lx: LexState): Result<Scanned, ParseError>
    requires lx.Valid() && !lx.AtEnd() && IsDigit(Cur(lx))
  {
    SameRow(lx);
    var lx2 := AdvanceWhile(lx.Advance(), DigitText);
    var lx3 := if lx2.Peek() == '.' then SameRow(lx2); AdvanceWhile(lx2.Advance(), DigitText) else lx2;
    Ok(Scanned(Some(NewToken(lx3, Number, lx.source[lx.current..lx3.current])), lx3))
  }

  lemma NumberGood(lx: LexState)
    requires lx.Valid() && !lx.AtEnd() && IsDigit(Cur(lx))
    ensures GoodStep(lx, ScanNumber(lx))
  {
    SameRow(lx);
    var lx2 := AdvanceWhile(lx.Advance(), DigitText);
    if lx2.Peek() == '.' {
      SameRow(lx2);
    }
  }

  /**
   * A string literal: the lexeme is the text strictly between the opening
   * quote and the next one. Running off the end fails with the token made
   * just after the opening quote.
   */
  function ScanString(lx: LexState): Result<Scanned, ParseError>
    requires lx.Valid() && !lx.AtEnd() && Cur(lx) == '"'
  {
    SameRow(lx);
    var lx1 := lx.Advance();
    match StringBody(lx1, NewToken(lx1, String, "\""))
    case Err(e) => Err(e)
    case Ok(lx2) =>
      var lx3 := lx2.Advance();
      Ok(Scanned(Some(NewToken(lx3, String, lx.source[lx.current + 1..lx3.current - 1])), lx3))
  }

  lemma StringGood(lx: LexState)
    requires lx.Valid() && !lx.AtEnd() && Cur(lx) == '"'
    ensures GoodStep(lx, ScanString(lx))
  {
    SameRow(lx);
    var lx1 := lx.Advance();
    var r := StringBody(lx1, NewToken(lx1, String, "\""));
    if r.Ok? {
      SameRow(r.value);
    }
  }

  /** The default case of the switch: the one-character table, then words; anything else is dropped. */
  function ScanDefault(lx: LexState): Result<Scanned, ParseError>
    requires lx.Valid() && !lx.AtEnd() && !IsBlank(Cur(lx)) && Cur(lx) != '#' && Cur(lx) != '/'
  {
    var c := Cur(lx);
    var lx1 := lx.Advance();
    if SingleKind(c).Some? then Ok(Scanned(Some(NewToken(lx1, SingleKind(c).value, [c])), lx1))
    else if IsAlpha(c) || c == '_' then ScanIdentifier(lx)
    else if IsDigit(c) then ScanNumber(lx)
    else if c == '"' then ScanString(lx)
    else Ok(Scanned(None, lx1))
  }

  lemma DefaultGood(lx: LexState)
    requires lx.Valid() && !lx.AtEnd() && !IsBlank(Cur(lx)) && Cur(lx) != '#' && Cur(lx) != '/'
    ensures GoodStep(lx, ScanDefault(lx))
  {
    var c := Cur(lx);
    if SingleKind(c).Some? {
      SingleTableSound();
      SameRow(lx);
    } else if IsAlpha(c) || c == '_' {
      IdentifierGood(lx);
    } else if IsDigit(c) {
      NumberGood(lx);
    } else if c == '"' {
      StringGood(lx);
    } else {
      SameRow(lx);
    }
  }

  /** The switch of scanToken on the character it consumes. */
  function ScanChar(lx: LexState): Result<Scanned, ParseError>
    requires lx.Valid() && !lx.AtEnd()
  {
    var c := Cur(lx);
    if IsBlank(c) || c == '#' then ScanBlank(lx)
    else if c == '/' then ScanSlash(lx)
    else ScanDefault(lx)
  }

  lemma CharGood(lx: LexState)
    requires lx.Valid() && !lx.AtEnd()
    ensures GoodStep(lx, ScanChar(lx))
  {
    var c := Cur(lx);
    if IsBlank(c) || c == '#' {
      BlankGood(lx);
    } else if c == '/' {
      SlashGood(lx);
    } else {
      DefaultGood(lx);
    }
  }

  /**
   * One scanToken call from a state that is not at the end: the
   * two-character check comes before every single-character rule, and it
   * moves `current` by two without moving the column.
   */
  function ScanToken(lx: LexState): Result<Scanned, ParseError>
    requires lx.Valid() && !lx.AtEnd()
  {
    if DoubleKind(lx.Peek(), lx.PeekNext()).Some? then ScanDouble(lx) else ScanChar(lx)
  }

  /** Every scanToken call is a good step: this is what the scan loop relies on. */
  lemma TokenGood(lx: LexState)
    requires lx.Valid() && !lx.AtEnd()
    ensures GoodStep(lx, ScanToken(lx))
  {
    if DoubleKind(lx.Peek(), lx.PeekNext()).Some? {
      DoubleTableChars();
      DoubleGood(lx);
    } else {
      CharGood(lx);
    }
  }

  /** A two-character operator: one token with the two characters as lexeme. */
  function ScanDouble(lx: LexState): Result<Scanned, ParseError>
    requires lx.Valid() && IsDoubleAt(lx.source, lx.current)
  {
    var a, b := lx.source[lx.current], lx.source[lx.current + 1];
    var lx2 := lx.(current := lx.current + 2);
    Ok(Scanned(Some(NewToken(lx2, DoubleKind(a, b).value, [a, b])), lx2))
  }

  lemma DoubleGood(lx: LexState)
    requires lx.Valid() && IsDoubleAt(lx.source, lx.current)
    ensures GoodStep(lx, ScanDouble(lx))
  {
    DoubleStep(lx);
  }

  /** Neither character of a two-character operator is a newline, so the row is still right after it. */
  lemma DoubleStep(lx: LexState)
    requires lx.Valid() && IsDoubleAt(lx.source, lx.current)
    ensures lx.(current := lx.current + 2).Valid()
    ensures lx.source[lx.current..lx.current + 2] == [lx.source[lx.current], lx.source[lx.current + 1]]
    ensures CategoryOf(DoubleKind(lx.source[lx.current], lx.source[lx.current + 1]).value) == TwoChar
  {
    var s, i := lx.source, lx.current;
    DoubleTableChars();
    DoubleTableSound();
    assert NewlinesBefore(s, i + 2) == NewlinesBefore(s, i + 1) == NewlinesBefore(s, i);
  }
}
