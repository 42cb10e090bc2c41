/**
 * The spelling of a statement: the token kinds a statement node stands
 * for, read left to right. Three forms build no node (`for`, `break` and
 * `return` consume their keyword and yield null), so the spelling of a
 * null statement is any one of those keywords, and a null else-branch is
 * either nothing or `else` followed by such a keyword.
 */
module StmtPattern {
  import opened Wrappers
  import opened Tokens
  import opened Ast
  import opened Cursor
  import opened ExprYield
  import opened Seqs

  /** One piece of a statement's spelling. */
  datatype Piece =
    | Kinds(ks: seq<TokenKind>)  // exactly these kinds
    | NullKeyword                // the keyword of a statement with no node
    | NullElse                   // nothing, or `else` and such a keyword

  /** The keywords of the statements that build no node. */
  predicate IsNullKeyword(k: TokenKind)
  {
    k == For || k == Break || k == Return
  }

  /**
   * What may be left of `span` once `pattern` has spelled a prefix of it.
   * A null else-branch may be absent or present, so there can be two.
   */
  function Rests(span: seq<TokenKind>, pattern: seq<Piece>): set<seq<TokenKind>>
    decreases |pattern|
  {
    if pattern == [] then {span}
    else
      match pattern[0]
      case Kinds(ks) =>
        if |ks| <= |span| && span[..|ks|] == ks then Rests(span[|ks|..], pattern[1..]) else {}
      case NullKeyword =>
        if 1 <= |span| && IsNullKeyword(span[0]) then Rests(span[1..], pattern[1..]) else {}
      case NullElse =>
        Rests(span, pattern[1..])
          + (if 2 <= |span| && span[0] == Else && IsNullKeyword(span[1]) then Rests(span[2..], pattern[1..]) else {})
  }

  /** `span` is spelled piece by piece by `pattern`, with nothing left over. */
  predicate Matches(span: seq<TokenKind>, pattern: seq<Piece>)
  {
    [] in Rests(span, pattern)
  }

  /** The `= value` of a variable declaration, if any. */
  function InitYield(init: Option<Expr>): seq<TokenKind>
  {
    match init
    case None => []
    case Some(value) => [Equal] + Yield(value)
  }

  /** A parameter list, comma separated. */
  function ParamsYield(params: seq<Token>): seq<TokenKind>
  {
    if |params| == 0 then []
    else if |params| == 1 then [params[0].kind]
    else [params[0].kind, Comma] + ParamsYield(params[1..])
  }

  /**
   * What a statement spells. A node that does not keep one of its tokens
   * (the keyword, parentheses, braces, `=`, `;`) spells that token's kind.
   */
  function Pattern(s: Option<Stmt>): seq<Piece>
    decreases s, 0
  {
    match s
    case None => [NullKeyword]
    case Some(st) =>
      match st
      case BlockStmt(items) => [Kinds([LeftBrace])] + ItemsPattern(items) + [Kinds([RightBrace])]
      case BreakStmt(keyword) => [Kinds([keyword.kind, Semicolon])]
      case ExpressionStmt(e) => [Kinds(Yield(e) + [Semicolon])]
      case FunctionStmt(name, params, body) =>
        [Kinds([Fn, name.kind, LeftParen] + ParamsYield(params) + [RightParen])] + Pattern(body)
      case IfStmt(c, thenBranch, elseBranch) =>
        [Kinds([If, LeftParen] + Yield(c) + [RightParen])] + Pattern(thenBranch) + ElsePattern(elseBranch)
      case PrintStmt(e) => [Kinds([Print] + Yield(e) + [Semicolon])]
      case ReturnStmt(keyword, value) => [Kinds([keyword.kind] + (if value.Some? then Yield(value.value) else []) + [Semicolon])]
      case VarStmt(name, init) => [Kinds([Let, name.kind] + InitYield(init) + [Semicolon])]
      case WhileStmt(c, body) => [Kinds([While, LeftParen] + Yield(c) + [RightParen])] + Pattern(body)
  }

  /** The items of a block, one after the other. */
  function ItemsPattern(items: seq<Option<Stmt>>): seq<Piece>
    decreases items, 0
  {
    if |items| == 0 then [] else Pattern(items[0]) + ItemsPattern(items[1..])
  }

  /** What an else-branch spells: a null one may also be absent. */
  function ElsePattern(s: Option<Stmt>): seq<Piece>
    decreases s, 1
  {
    if s.None? then [NullElse] else [Kinds([Else])] + Pattern(s)
  }

  /**
   * A statement parse from `pos` that succeeded, entered after tokens of
   * the kinds `lead`, spells those and the tokens it consumed.
   */
  ghost predicate Spelled(ts: seq<Token>, pos: nat, lead: seq<TokenKind>, r: Parse<Option<Stmt>>)
  {
    match r
    case PErr(_, _) => true
    case POk(s, end) => pos <= end <= |ts| && Matches(lead + Span(ts, pos, end), Pattern(s))
  }

  /** The same for the else-branch of an if. */
  ghost predicate ElseSpells(ts: seq<Token>, pos: nat, r: Parse<Option<Stmt>>)
  {
    match r
    case PErr(_, _) => true
    case POk(s, end) => pos <= end <= |ts| && Matches(Span(ts, pos, end), ElsePattern(s))
  }

  /*
   * Matching.
   */

  lemma MatchKinds(ks: seq<TokenKind>)
    ensures Matches(ks, [Kinds(ks)])
  {
    assert ks[|ks|..] == [];
  }

  lemma MatchNull(k: TokenKind)
    requires IsNullKeyword(k)
    ensures Matches([k], [NullKeyword])
  {
    assert [k][1..] == [];
  }

  /** A null statement spells exactly one null keyword. */
  lemma NullSpan(span: seq<TokenKind>)
    requires Matches(span, [NullKeyword])
    ensures |span| == 1 && IsNullKeyword(span[0])
  {
    assert [NullKeyword][1..] == [];
  }

  /** Matching is compatible with concatenation. */
  lemma {:induction false} MatchAppend(a: seq<TokenKind>, p: seq<Piece>, b: seq<TokenKind>, q: seq<Piece>)
    requires Matches(a, p) && Matches(b, q)
    ensures Matches(a + b, p + q)
    decreases |p|
  {
    if p == [] {
      assert a + b == b;
      assert p + q == q;
    } else {
      var rest := p[1..];
      assert p == [p[0]] + rest;
      match p[0]
      case Kinds(ks) =>
        MatchAppend(a[|ks|..], rest, b, q);
        KindsStep(a, ks, rest, b, q);
      case NullKeyword =>
        MatchAppend(a[1..], rest, b, q);
        NullStep(a, rest, b, q);
      case NullElse =>
        if Matches(a, rest) {
          MatchAppend(a, rest, b, q);
          SkipStep(a + b, rest, q);
        } else {
          MatchAppend(a[2..], rest, b, q);
          ElseStep(a, rest, b, q);
        }
    }
  }

  lemma KindsStep(a: seq<TokenKind>, ks: seq<TokenKind>, rest: seq<Piece>, b: seq<TokenKind>, q: seq<Piece>)
    requires |ks| <= |a| && a[..|ks|] == ks && Matches(a[|ks|..] + b, rest + q)
    ensures Matches(a + b, [Kinds(ks)] + rest + q)
  {
    var pq := [Kinds(ks)] + rest + q;
    assert pq[0] == Kinds(ks) && pq[1..] == rest + q;
    assert (a + b)[..|ks|] == ks;
    assert (a + b)[|ks|..] == a[|ks|..] + b;
  }

  lemma NullStep(a: seq<TokenKind>, rest: seq<Piece>, b: seq<TokenKind>, q: seq<Piece>)
    requires 1 <= |a| && IsNullKeyword(a[0]) && Matches(a[1..] + b, rest + q)
    ensures Matches(a + b, [NullKeyword] + rest + q)
  {
    var pq := [NullKeyword] + rest + q;
    assert pq[0] == NullKeyword && pq[1..] == rest + q;
    assert (a + b)[1..] == a[1..] + b;
  }

  lemma SkipStep(span: seq<TokenKind>, rest: seq<Piece>, q: seq<Piece>)
    requires Matches(span, rest + q)
    ensures Matches(span, [NullElse] + rest + q)
  {
    var pq := [NullElse] + rest + q;
    assert pq[0] == NullElse && pq[1..] == rest + q;
  }

  /** An absent else-branch spells nothing. */
  lemma MatchNoElse()
    ensures Matches([], ElsePattern(None))
  {
    assert [NullElse][1..] == [];
  }

  lemma ElseStep(a: seq<TokenKind>, rest: seq<Piece>, b: seq<TokenKind>, q: seq<Piece>)
    requires 2 <= |a| && a[0] == Else && IsNullKeyword(a[1]) && Matches(a[2..] + b, rest + q)
    ensures Matches(a + b, [NullElse] + rest + q)
  {
    var pq := [NullElse] + rest + q;
    assert pq[0] == NullElse && pq[1..] == rest + q;
    assert (a + b)[2..] == a[2..] + b;
  }

  /** Fixed kinds in front of a spelled part. */
  lemma MatchFront(ks: seq<TokenKind>, span: seq<TokenKind>, p: seq<Piece>)
    requires Matches(span, p)
    ensures Matches(ks + span, [Kinds(ks)] + p)
  {
    MatchKinds(ks);
    MatchAppend(ks, [Kinds(ks)], span, p);
  }

  /** A keyword in front of a parenthesised part. */
  lemma Bracket(k: TokenKind, y: seq<TokenKind>)
    ensures [k] + ([LeftParen] + y + [RightParen]) == [k, LeftParen] + y + [RightParen]
  {
  }

  /*
   * The pieces of each form, put together on kinds alone.
   */

  lemma SemicolonMatch(lead: seq<TokenKind>, ks: seq<TokenKind>, s: Stmt)
    requires s.PrintStmt? ==> lead == [Print]
    requires s.ExpressionStmt? ==> lead == []
    requires (s.PrintStmt? || s.ExpressionStmt?) && ks == Yield(s.expression)
    ensures Matches(lead + (ks + [Semicolon]), Pattern(Some(s)))
  {
    Associative(lead, ks, [Semicolon]);
    MatchKinds(lead + ks + [Semicolon]);
  }

  lemma VarMatch(name: TokenKind, init: seq<TokenKind>, s: Stmt)
    requires s.VarStmt? && name == s.name.kind && init == InitYield(s.initializer)
    ensures Matches([Let] + ([name] + (init + [Semicolon])), Pattern(Some(s)))
  {
    Associative([name], init, [Semicolon]);
    Associative([Let], [name] + init, [Semicolon]);
    Associative([Let], [name], init);
    assert [Let] + [name] == [Let, name];
    MatchKinds([Let, name] + init + [Semicolon]);
  }

  lemma BlockMatch(items: seq<TokenKind>, s: Stmt)
    requires s.BlockStmt? && Matches(items, ItemsPattern(s.statements))
    ensures Matches([LeftBrace] + (items + [RightBrace]), Pattern(Some(s)))
  {
    MatchFront([LeftBrace], items, ItemsPattern(s.statements));
    MatchKinds([RightBrace]);
    MatchAppend([LeftBrace] + items, [Kinds([LeftBrace])] + ItemsPattern(s.statements), [RightBrace], [Kinds([RightBrace])]);
    Associative([LeftBrace], items, [RightBrace]);
  }

  lemma ItemsMatch(first: seq<TokenKind>, rest: seq<TokenKind>, items: seq<Option<Stmt>>)
    requires |items| > 0 && Matches(first, Pattern(items[0])) && Matches(rest, ItemsPattern(items[1..]))
    ensures Matches(first + rest, ItemsPattern(items))
  {
    MatchAppend(first, Pattern(items[0]), rest, ItemsPattern(items[1..]));
  }

  lemma IfMatch(cond: seq<TokenKind>, thenSpan: seq<TokenKind>, elseSpan: seq<TokenKind>, s: Stmt)
    requires s.IfStmt? && cond == [LeftParen] + Yield(s.condition) + [RightParen]
    requires Matches(thenSpan, Pattern(s.thenBranch)) && Matches(elseSpan, ElsePattern(s.elseBranch))
    ensures Matches([If] + (cond + (thenSpan + elseSpan)), Pattern(Some(s)))
  {
    var head := [If, LeftParen] + Yield(s.condition) + [RightParen];
    Bracket(If, Yield(s.condition));
    MatchFront(head, thenSpan, Pattern(s.thenBranch));
    MatchAppend(head + thenSpan, [Kinds(head)] + Pattern(s.thenBranch), elseSpan, ElsePattern(s.elseBranch));
    Associative([If], cond, thenSpan + elseSpan);
    Associative(head, thenSpan, elseSpan);
  }

  lemma WhileMatch(cond: seq<TokenKind>, body: seq<TokenKind>, s: Stmt)
    requires s.WhileStmt? && cond == [LeftParen] + Yield(s.condition) + [RightParen]
    requires Matches(body, Pattern(s.body))
    ensures Matches([While] + (cond + body), Pattern(Some(s)))
  {
    Bracket(While, Yield(s.condition));
    MatchFront([While] + cond, body, Pattern(s.body));
    Associative([While], cond, body);
  }

  lemma FunctionMatch(name: TokenKind, params: seq<TokenKind>, body: seq<TokenKind>, s: Stmt)
    requires s.FunctionStmt? && name == s.name.kind && params == [LeftParen] + ParamsYield(s.params) + [RightParen]
    requires Matches(body, Pattern(s.body))
    ensures Matches([Fn] + ([name] + (params + body)), Pattern(Some(s)))
  {
    var head := [Fn, name, LeftParen] + ParamsYield(s.params) + [RightParen];
    assert [Fn] + ([name] + params) == head;
    MatchFront(head, body, Pattern(s.body));
    Associative([name], params, body);
    Associative([Fn], [name] + params, body);
  }

  lemma ElseMatch(span: seq<TokenKind>, s: Option<Stmt>)
    requires Matches(span, Pattern(s))
    ensures Matches([Else] + span, ElsePattern(s))
  {
    if s.None? {
      NullSpan(span);
      assert ([Else] + span)[2..] == [];
      assert [NullElse][1..] == [];
    } else {
      MatchFront([Else], span, Pattern(s));
    }
  }
}
