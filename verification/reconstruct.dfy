/**
 * Lexemes rebuild the source. On text made only of blanks, punctuation
 * other than the slash, and identifier characters (so no comments, no
 * strings and nothing the lexer drops), concatenating the lexemes of the
 * token stream gives back the source with its blanks removed.
 */
module Reconstruct {
  import opened Wrappers
  import opened Tokens
  import opened Lexer
  import opened LexerRules
  import opened Scanning
  import Errors

  /** Characters whose scanning keeps their text in some lexeme, or which are blanks. */
  predicate Plain(c: char)
  {
    IsBlank(c) || (SingleKind(c).Some? && c != '/') || IsIdentChar(c)
  }

  /** The text with its blanks removed. */
  function Strip(s: string): string
  {
    if s == [] then [] else (if IsBlank(s[0]) then [] else [s[0]]) + Strip(s[1..])
  }

  /** The lexemes of a token stream, run together. */
  function Concat(ts: seq<Token>): string
  {
    if ts == [] then [] else ts[0].lexeme + Concat(ts[1..])
  }

  lemma {:induction false} StripAppend(a: string, b: string)
    ensures Strip(a + b) == Strip(a) + Strip(b)
  {
    if a == [] {
      assert a + b == b;
    } else {
      assert (a + b)[1..] == a[1..] + b;
      StripAppend(a[1..], b);
    }
  }

  lemma {:induction false} StripSolid(a: string)
    requires forall i :: 0 <= i < |a| ==> !IsBlank(a[i])
    ensures Strip(a) == a
  {
    if a != [] {
      StripSolid(a[1..]);
    }
  }

  /** Without blanks the number text is left as it is. */
  lemma NumberSolid(a: string)
    requires IsNumberText(a)
    ensures forall i :: 0 <= i < |a| ==> !IsBlank(a[i])
  {
    if !(forall i :: 0 <= i < |a| ==> IsDigit(a[i])) {
      var k :| 0 < k < |a| && a[k] == '.'
               && (forall i :: 0 <= i < k ==> IsDigit(a[i]))
               && (forall i :: k < i < |a| ==> IsDigit(a[i]));
    }
  }

  /**
   * A scanning step over plain text succeeded, and the text it consumed,
   * with blanks removed, is the lexeme of its token, or nothing when it
   * yields no token.
   */
  ghost predicate KeepsText(lx: LexState, r: Result<Scanned, Errors.ParseError>)
    requires lx.Valid()
  {
    && r.Ok? && lx.current < r.value.next.current <= |lx.source|
    && Strip(lx.source[lx.current..r.value.next.current])
       == (if r.value.token.Some? then r.value.token.value.lexeme else [])
  }

  /** Every scanToken call on a plain character keeps the text. */
  lemma PlainStep(lx: LexState)
    requires lx.Valid() && !lx.AtEnd() && Plain(Cur(lx))
    ensures KeepsText(lx, ScanToken(lx))
  {
    var c := Cur(lx);
    if IsDoubleAt(lx.source, lx.current) {
      DoubleKeepsText(lx);
    } else if IsBlank(c) {
      BlankKeepsText(lx);
    } else if SingleKind(c).Some? {
      SingleKeepsText(lx);
    } else if IsDigit(c) {
      ToNumber(lx);
      NumberKeepsText(lx);
    } else {
      ToIdentifier(lx);
      IdentifierKeepsText(lx);
    }
  }

  lemma DoubleKeepsText(lx: LexState)
    requires lx.Valid() && IsDoubleAt(lx.source, lx.current)
    ensures KeepsText(lx, ScanToken(lx))
  {
    DoubleRule(lx);
    DoubleTableChars();
    StripSolid(lx.source[lx.current..lx.current + 2]);
  }

  lemma BlankKeepsText(lx: LexState)
    requires lx.Valid() && !lx.AtEnd() && IsBlank(Cur(lx))
    ensures KeepsText(lx, ScanToken(lx))
  {
    if Cur(lx) == '\n' {
      NewlineRule(lx);
    } else {
      BlankRule(lx);
    }
    assert lx.source[lx.current..lx.current + 1] == [Cur(lx)];
  }

  lemma SingleKeepsText(lx: LexState)
    requires lx.Valid() && !lx.AtEnd() && !IsDoubleAt(lx.source, lx.current)
    requires SingleKind(Cur(lx)).Some? && Cur(lx) != '/'
    ensures KeepsText(lx, ScanToken(lx))
  {
    SingleRule(lx);
    assert lx.source[lx.current..lx.current + 1] == [Cur(lx)];
  }

  lemma NumberKeepsText(lx: LexState)
    requires lx.Valid() && !lx.AtEnd() && IsDigit(Cur(lx))
    ensures KeepsText(lx, ScanNumber(lx))
  {
    NumberRule(lx);
    NumberGood(lx);
    var text := ScanNumber(lx).value.token.value.lexeme;
    NumberSolid(text);
    StripSolid(text);
  }

  lemma IdentifierKeepsText(lx: LexState)
    requires lx.Valid() && !lx.AtEnd() && (IsAlpha(Cur(lx)) || Cur(lx) == '_')
    ensures KeepsText(lx, ScanIdentifier(lx))
  {
    IdentifierRule(lx);
    IdentifierGood(lx);
    StripSolid(ScanIdentifier(lx).value.token.value.lexeme);
  }

  /** The scan loop from `lx` over plain text rebuilds the rest of the source. */
  lemma {:induction false} ScanFromRebuilds(lx: LexState)
    requires lx.Valid()
    requires forall i :: lx.current <= i < |lx.source| ==> Plain(lx.source[i])
    ensures ScanFrom(lx).Ok? && Concat(ScanFrom(lx).value) == Strip(lx.source[lx.current..])
    decreases |lx.source| - lx.current
  {
    if lx.AtEnd() {
      var ts := [NewToken(lx, End, "")];
      assert ts[1..] == [];
    } else {
      PlainStep(lx);
      TokenGood(lx);
      var s := ScanToken(lx).value;
      ScanFromRebuilds(s.next);
      var rest := ScanFrom(s.next).value;
      var head := if s.token.Some? then [s.token.value] else [];
      assert ScanFrom(lx) == Ok(head + rest);
      StripSplit(lx.source, lx.current, s.next.current);
      ConcatAppend(head, rest);
    }
  }

  lemma StripSplit(s: string, i: nat, j: nat)
    requires i <= j <= |s|
    ensures Strip(s[i..]) == Strip(s[i..j]) + Strip(s[j..])
  {
    assert s[i..] == s[i..j] + s[j..];
    StripAppend(s[i..j], s[j..]);
  }

  lemma ConcatAppend(head: seq<Token>, rest: seq<Token>)
    requires |head| <= 1
    ensures Concat(head + rest) == Concat(head) + Concat(rest)
  {
    if |head| == 1 {
      assert (head + rest)[1..] == rest;
      assert head[1..] == [];
    } else {
      assert head + rest == rest;
    }
  }

  /** Lexing plain text succeeds, and its lexemes spell the text without blanks. */
  lemma LexRebuildsSource(filename: string, source: string)
    requires forall i :: 0 <= i < |source| ==> Plain(source[i])
    ensures Lex(filename, source).Ok?
    ensures Concat(Lex(filename, source).value) == Strip(source)
  {
    ScanFromRebuilds(Start(filename, source));
    assert source[0..] == source;
  }
}
