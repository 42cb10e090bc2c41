/**
 * The statement parser keeps the input: read back left to right, a
 * statement it builds spells the token kinds it consumed, in the sense
 * of the statement patterns.
 */
module StmtYield {
  import opened Wrappers
  import opened Tokens
  import opened Ast
  import opened Cursor
  import opened Shapes
  import opened ExprParser
  import opened ExprYield
  import opened StmtParser
  import opened StmtPattern

  /*
   * The parse functions, form by form.
   */

  /** Statements ended by `;` after an expression: print and expression statements. */
  lemma SemicolonSpelled(ts: seq<Token>, pos: nat, lead: seq<TokenKind>, e: Parse<Expr>, s: Stmt)
    requires e.POk? && Spells(ts, pos, e) && e.pos < |ts| && ts[e.pos].kind == Semicolon
    requires s.PrintStmt? ==> lead == [Print]
    requires s.ExpressionStmt? ==> lead == []
    requires (s.PrintStmt? || s.ExpressionStmt?) && s.expression == e.value
    ensures Spelled(ts, pos, lead, POk(Some(s), e.pos + 1))
  {
    JoinBack(ts, pos, e.pos);
    SemicolonMatch(lead, Yield(e.value), s);
  }

  lemma PrintSpelled(ts: seq<Token>, pos: nat)
    requires At(ts, pos)
    ensures Spelled(ts, pos, [Print], ParsePrint(ts, pos))
  {
    var r := ParsePrint(ts, pos);
    if r.POk? {
      var e := ParseExpression(ts, pos);
      PrintParts(ts, pos);
      ExpressionYield(ts, pos);
      SemicolonSpelled(ts, pos, [Print], e, r.value.value);
      assert r == POk(Some(r.value.value), e.pos + 1);
    }
  }

  lemma ExpressionStmtSpelled(ts: seq<Token>, pos: nat)
    requires At(ts, pos)
    ensures Spelled(ts, pos, [], ParseExpressionStatement(ts, pos))
  {
    var r := ParseExpressionStatement(ts, pos);
    if r.POk? {
      var e := ParseExpression(ts, pos);
      ExpressionStmtParts(ts, pos);
      ExpressionYield(ts, pos);
      SemicolonSpelled(ts, pos, [], e, r.value.value);
      assert r == POk(Some(r.value.value), e.pos + 1);
    }
  }

  /** The optional initializer spells `=` and the value, or nothing. */
  lemma InitializerSpelled(ts: seq<Token>, pos: nat)
    requires At(ts, pos)
    ensures var r := Initializer(ts, pos); r.POk? ==> Span(ts, pos, r.pos) == InitYield(r.value)
  {
    var r := Initializer(ts, pos);
    if r.POk? && Check(ts, pos, Equal) {
      ExpressionYield(ts, pos + 1);
      JoinFront(ts, pos, r.pos);
    }
  }

  lemma VarSpelled(ts: seq<Token>, pos: nat)
    requires At(ts, pos)
    ensures Spelled(ts, pos, [Let], ParseVarDeclaration(ts, pos))
  {
    var r := ParseVarDeclaration(ts, pos);
    if r.POk? {
      VarParts(ts, pos);
      var init := Initializer(ts, pos + 1);
      InitializerSpelled(ts, pos + 1);
      VarJoin(ts, pos, init, r.value.value, r.pos);
    }
  }

  lemma VarJoin(ts: seq<Token>, pos: nat, init: Parse<Option<Expr>>, s: Stmt, end: nat)
    requires s.VarStmt? && pos + 1 <= init.pos && init.pos + 1 == end <= |ts| && ts[pos] == s.name
    requires init.POk? && init.value == s.initializer && Span(ts, pos + 1, init.pos) == InitYield(init.value)
    requires ts[init.pos].kind == Semicolon
    ensures Spelled(ts, pos, [Let], POk(Some(s), end))
  {
    JoinFront(ts, pos, end);
    JoinBack(ts, pos + 1, init.pos);
    VarMatch(s.name.kind, InitYield(s.initializer), s);
  }

  /** `( condition )` spells the parentheses around the condition. */
  lemma ParenSpelled(ts: seq<Token>, pos: nat)
    requires At(ts, pos)
    ensures var c := ParenCondition(ts, pos);
      c.POk? ==> pos <= c.pos <= |ts| && Span(ts, pos, c.pos) == [LeftParen] + Yield(c.value) + [RightParen]
  {
    var c := ParenCondition(ts, pos);
    if c.POk? {
      var e := ParseExpression(ts, pos + 1);
      ParenParts(ts, pos);
      ExpressionYield(ts, pos + 1);
      assert e == POk(c.value, c.pos - 1);
      Wrap(ts, pos, c.pos - 1);
      assert Span(ts, pos + 1, c.pos - 1) == Yield(c.value);
    }
  }

  /** A form entered after its keyword at `pos`, read from the keyword. */
  lemma Keyword(ts: seq<Token>, pos: nat, r: Parse<Option<Stmt>>)
    requires pos < |ts| && Spelled(ts, pos + 1, [ts[pos].kind], r)
    ensures Spelled(ts, pos, [], r)
  {
    if r.POk? {
      JoinFront(ts, pos, r.pos);
      assert [] + Span(ts, pos, r.pos) == [ts[pos].kind] + Span(ts, pos + 1, r.pos);
    }
  }

  /** A statement with no node spells its keyword. */
  lemma NullSpelled(ts: seq<Token>, pos: nat)
    requires pos < |ts| && IsNullKeyword(ts[pos].kind)
    ensures Spelled(ts, pos, [], POk(None, pos + 1))
  {
    One(ts, pos);
    assert [] + Span(ts, pos, pos + 1) == [ts[pos].kind];
    MatchNull(ts[pos].kind);
  }

  /** A form entered after its keyword, once resynchronised, is read from the keyword. */
  lemma Entered(ts: seq<Token>, pos: nat, r: Parse<Option<Stmt>>)
    requires pos < |ts| && At(ts, r.pos) && Spelled(ts, pos + 1, [ts[pos].kind], r)
    ensures Spelled(ts, pos, [], Recover(ts, r))
  {
    Keyword(ts, pos, r);
  }

  /** Resynchronising after a failure leaves what a success spells alone. */
  lemma Recovered(ts: seq<Token>, pos: nat, r: Parse<Option<Stmt>>)
    requires At(ts, r.pos) && Spelled(ts, pos, [], r)
    ensures Spelled(ts, pos, [], Recover(ts, r))
  {
  }

  lemma {:induction false} DeclarationSpelled(ts: seq<Token>, pos: nat)
    requires At(ts, pos)
    ensures Spelled(ts, pos, [], ParseDeclaration(ts, pos))
    decreases |ts| - pos, 5
  {
    if Check(ts, pos, Fn) {
      FunctionDeclared(ts, pos);
    } else if Check(ts, pos, Let) {
      VarDeclared(ts, pos);
    } else if Check(ts, pos, For) {
      NullSpelled(ts, pos);
      Recovered(ts, pos, ParseFor(ts, pos + 1));
    } else if Check(ts, pos, If) {
      IfDeclared(ts, pos);
    } else if Check(ts, pos, While) {
      WhileDeclared(ts, pos);
    } else if Check(ts, pos, Print) {
      PrintDeclared(ts, pos);
    } else if Check(ts, pos, LeftBrace) {
      BlockDeclared(ts, pos);
    } else {
      ExpressionStmtSpelled(ts, pos);
      Recovered(ts, pos, ParseExpressionStatement(ts, pos));
    }
  }

  lemma {:induction false} FunctionDeclared(ts: seq<Token>, pos: nat)
    requires At(ts, pos) && Check(ts, pos, Fn)
    ensures Spelled(ts, pos, [], ParseDeclaration(ts, pos))
    decreases |ts| - pos, 4
  {
    FunctionSpelled(ts, pos + 1);
    Entered(ts, pos, ParseFunction(ts, pos + 1));
  }

  lemma {:induction false} VarDeclared(ts: seq<Token>, pos: nat)
    requires At(ts, pos) && !Check(ts, pos, Fn) && Check(ts, pos, Let)
    ensures Spelled(ts, pos, [], ParseDeclaration(ts, pos))
    decreases |ts| - pos, 4
  {
    VarSpelled(ts, pos + 1);
    Entered(ts, pos, ParseVarDeclaration(ts, pos + 1));
  }

  lemma {:induction false} IfDeclared(ts: seq<Token>, pos: nat)
    requires At(ts, pos) && !Check(ts, pos, Fn) && !Check(ts, pos, Let) && !Check(ts, pos, For) && Check(ts, pos, If)
    ensures Spelled(ts, pos, [], ParseDeclaration(ts, pos))
    decreases |ts| - pos, 4
  {
    IfSpelled(ts, pos + 1);
    Entered(ts, pos, ParseIf(ts, pos + 1));
  }

  lemma {:induction false} WhileDeclared(ts: seq<Token>, pos: nat)
    requires At(ts, pos) && !Check(ts, pos, Fn) && !Check(ts, pos, Let) && !Check(ts, pos, For) && !Check(ts, pos, If) && Check(ts, pos, While)
    ensures Spelled(ts, pos, [], ParseDeclaration(ts, pos))
    decreases |ts| - pos, 4
  {
    WhileSpelled(ts, pos + 1);
    Entered(ts, pos, ParseWhile(ts, pos + 1));
  }

  lemma {:induction false} PrintDeclared(ts: seq<Token>, pos: nat)
    requires At(ts, pos) && !Check(ts, pos, Fn) && !Check(ts, pos, Let) && !Check(ts, pos, For) && !Check(ts, pos, If) && !Check(ts, pos, While) && Check(ts, pos, Print)
    ensures Spelled(ts, pos, [], ParseDeclaration(ts, pos))
    decreases |ts| - pos, 4
  {
    PrintSpelled(ts, pos + 1);
    Entered(ts, pos, ParsePrint(ts, pos + 1));
  }

  lemma {:induction false} BlockDeclared(ts: seq<Token>, pos: nat)
    requires At(ts, pos) && !Check(ts, pos, Fn) && !Check(ts, pos, Let) && !Check(ts, pos, For) && !Check(ts, pos, If) && !Check(ts, pos, While) && !Check(ts, pos, Print) && Check(ts, pos, LeftBrace)
    ensures Spelled(ts, pos, [], ParseDeclaration(ts, pos))
    decreases |ts| - pos, 4
  {
    BlockSpelled(ts, pos + 1);
    Entered(ts, pos, ParseBlock(ts, pos + 1));
  }

  lemma {:induction false} StatementSpelled(ts: seq<Token>, pos: nat)
    requires At(ts, pos)
    ensures Spelled(ts, pos, [], ParseStatement(ts, pos))
    decreases |ts| - pos, 5
  {
    var r := ParseStatement(ts, pos);
    if r.POk? {
      if Check(ts, pos, Print) {
        PrintSpelled(ts, pos + 1);
        Keyword(ts, pos, r);
      } else if Check(ts, pos, LeftBrace) {
        BlockSpelled(ts, pos + 1);
        Keyword(ts, pos, r);
      } else if Check(ts, pos, If) {
        IfSpelled(ts, pos + 1);
        Keyword(ts, pos, r);
      } else if Check(ts, pos, While) {
        WhileSpelled(ts, pos + 1);
        Keyword(ts, pos, r);
      } else if Check(ts, pos, For) || Check(ts, pos, Break) || Check(ts, pos, Return) {
        NullSpelled(ts, pos);
      } else {
        ExpressionStmtSpelled(ts, pos);
      }
    }
  }

  lemma {:induction false} BlockSpelled(ts: seq<Token>, pos: nat)
    requires At(ts, pos)
    ensures Spelled(ts, pos, [LeftBrace], ParseBlock(ts, pos))
    decreases |ts| - pos, 7
  {
    var r := ParseBlock(ts, pos);
    if r.POk? {
      var items := BlockItems(ts, pos, []);
      BlockItemsSpelled(ts, pos);
      assert r == POk(Some(BlockStmt(items.value)), items.pos + 1);
      BlockJoin(ts, pos, items, r);
    }
  }

  lemma BlockJoin(ts: seq<Token>, pos: nat, items: Parse<seq<Option<Stmt>>>, r: Parse<Option<Stmt>>)
    requires items.POk? && ItemsSpelled(ts, pos, items) && items.pos < |ts| && ts[items.pos].kind == RightBrace
    requires r == POk(Some(BlockStmt(items.value)), items.pos + 1)
    ensures Spelled(ts, pos, [LeftBrace], r)
  {
    JoinBack(ts, pos, items.pos);
    BlockMatch(Span(ts, pos, items.pos), r.value.value);
  }

  /** A successful run of the block loop from `pos` spells the tokens it consumed, item by item. */
  ghost predicate ItemsSpelled(ts: seq<Token>, pos: nat, r: Parse<seq<Option<Stmt>>>)
  {
    r.POk? ==> pos <= r.pos <= |ts| && Matches(Span(ts, pos, r.pos), ItemsPattern(r.value))
  }

  /** The items of a block spell the tokens up to its `}`, one declaration after the other. */
  lemma {:induction false} BlockItemsSpelled(ts: seq<Token>, pos: nat)
    requires At(ts, pos)
    ensures ItemsSpelled(ts, pos, BlockItems(ts, pos, []))
    decreases |ts| - pos, 6
  {
    if !Check(ts, pos, RightBrace) && !AtEnd(ts, pos) {
      var d := ParseDeclaration(ts, pos);
      DeclarationSpelled(ts, pos);
      if d.POk? {
        ItemsNext(ts, pos);
        BlockItemsSpelled(ts, d.pos);
        ItemsJoin(ts, pos, d, BlockItems(ts, d.pos, []));
      }
    } else {
      ItemsEnd(ts, pos);
    }
  }

  /** The loop after one declaration: that declaration in front of what the loop parses from there. */
  lemma ItemsNext(ts: seq<Token>, pos: nat)
    requires At(ts, pos) && !Check(ts, pos, RightBrace) && !AtEnd(ts, pos)
    ensures var d := ParseDeclaration(ts, pos);
      d.POk? ==> BlockItems(ts, pos, []) == Prepend([d.value], BlockItems(ts, d.pos, []))
  {
    var d := ParseDeclaration(ts, pos);
    if d.POk? {
      assert [] + [d.value] == [d.value];
      BlockItemsFrom(ts, d.pos, [d.value]);
    }
  }

  /** At `}` or the end the loop parses no items. */
  lemma ItemsEnd(ts: seq<Token>, pos: nat)
    requires At(ts, pos) && (Check(ts, pos, RightBrace) || AtEnd(ts, pos))
    ensures ItemsSpelled(ts, pos, BlockItems(ts, pos, []))
  {
    assert BlockItems(ts, pos, []) == POk([], pos);
    assert Span(ts, pos, pos) == [];
  }

  lemma ItemsJoin(ts: seq<Token>, pos: nat, d: Parse<Option<Stmt>>, rest: Parse<seq<Option<Stmt>>>)
    requires d.POk? && Spelled(ts, pos, [], d)
    requires ItemsSpelled(ts, d.pos, rest)
    ensures ItemsSpelled(ts, pos, Prepend([d.value], rest))
  {
    if rest.POk? {
      assert [] + Span(ts, pos, d.pos) == Span(ts, pos, d.pos);
      Join(ts, pos, d.pos, rest.pos);
      assert ([d.value] + rest.value)[1..] == rest.value;
      ItemsMatch(Span(ts, pos, d.pos), Span(ts, d.pos, rest.pos), [d.value] + rest.value);
    }
  }

  lemma {:induction false} IfSpelled(ts: seq<Token>, pos: nat)
    requires At(ts, pos)
    ensures Spelled(ts, pos, [If], ParseIf(ts, pos))
    decreases |ts| - pos, 5
  {
    var r := ParseIf(ts, pos);
    if r.POk? {
      IfParts(ts, pos);
      var c := ParenCondition(ts, pos);
      var t := ParseStatement(ts, c.pos);
      ParenSpelled(ts, pos);
      StatementSpelled(ts, c.pos);
      ElseSpelled(ts, t.pos);
      IfJoin(ts, pos, c, t, ElseBranch(ts, t.pos), r.value.value);
    }
  }

  lemma IfJoin(ts: seq<Token>, pos: nat, c: Parse<Expr>, t: Parse<Option<Stmt>>, e: Parse<Option<Stmt>>, s: Stmt)
    requires c.POk? && pos <= c.pos <= |ts| && Span(ts, pos, c.pos) == [LeftParen] + Yield(c.value) + [RightParen]
    requires t.POk? && c.pos <= t.pos && Spelled(ts, c.pos, [], t)
    requires e.POk? && t.pos <= e.pos && ElseSpells(ts, t.pos, e)
    requires s == IfStmt(c.value, t.value, e.value)
    ensures Spelled(ts, pos, [If], POk(Some(s), e.pos))
  {
    assert [] + Span(ts, c.pos, t.pos) == Span(ts, c.pos, t.pos);
    Join(ts, pos, c.pos, e.pos);
    Join(ts, c.pos, t.pos, e.pos);
    IfMatch(Span(ts, pos, c.pos), Span(ts, c.pos, t.pos), Span(ts, t.pos, e.pos), s);
  }

  /** An else-branch spells nothing, `else` and a null keyword, or `else` and its statement. */
  lemma {:induction false} ElseSpelled(ts: seq<Token>, pos: nat)
    requires At(ts, pos)
    ensures ElseSpells(ts, pos, ElseBranch(ts, pos))
    decreases |ts| - pos, 6
  {
    if Check(ts, pos, Else) {
      StatementSpelled(ts, pos + 1);
      ElseJoin(ts, pos, ParseStatement(ts, pos + 1));
    } else {
      ElseAbsent(ts, pos);
    }
  }

  lemma ElseJoin(ts: seq<Token>, pos: nat, r: Parse<Option<Stmt>>)
    requires pos < |ts| && ts[pos].kind == Else && Spelled(ts, pos + 1, [], r)
    ensures ElseSpells(ts, pos, r)
  {
    if r.POk? {
      assert [] + Span(ts, pos + 1, r.pos) == Span(ts, pos + 1, r.pos);
      JoinFront(ts, pos, r.pos);
      ElseMatch(Span(ts, pos + 1, r.pos), r.value);
    }
  }

  lemma ElseAbsent(ts: seq<Token>, pos: nat)
    requires pos <= |ts|
    ensures ElseSpells(ts, pos, POk(None, pos))
  {
    assert Span(ts, pos, pos) == [];
    MatchNoElse();
  }

  lemma {:induction false} WhileSpelled(ts: seq<Token>, pos: nat)
    requires At(ts, pos)
    ensures Spelled(ts, pos, [While], ParseWhile(ts, pos))
    decreases |ts| - pos, 5
  {
    var r := ParseWhile(ts, pos);
    if r.POk? {
      WhileParts(ts, pos);
      var c := ParenCondition(ts, pos);
      ParenSpelled(ts, pos);
      StatementSpelled(ts, c.pos);
      WhileJoin(ts, pos, c, ParseStatement(ts, c.pos), r.value.value);
    }
  }

  lemma WhileJoin(ts: seq<Token>, pos: nat, c: Parse<Expr>, b: Parse<Option<Stmt>>, s: Stmt)
    requires c.POk? && pos <= c.pos <= |ts| && Span(ts, pos, c.pos) == [LeftParen] + Yield(c.value) + [RightParen]
    requires b.POk? && c.pos <= b.pos && Spelled(ts, c.pos, [], b)
    requires s == WhileStmt(c.value, b.value)
    ensures Spelled(ts, pos, [While], POk(Some(s), b.pos))
  {
    assert [] + Span(ts, c.pos, b.pos) == Span(ts, c.pos, b.pos);
    Join(ts, pos, c.pos, b.pos);
    WhileMatch(Span(ts, pos, c.pos), Span(ts, c.pos, b.pos), s);
  }

  lemma {:induction false} FunctionSpelled(ts: seq<Token>, pos: nat)
    requires At(ts, pos)
    ensures Spelled(ts, pos, [Fn], ParseFunction(ts, pos))
    decreases |ts| - pos, 5
  {
    var r := ParseFunction(ts, pos);
    if r.POk? {
      FunctionParts(ts, pos);
      var ps := ParamList(ts, pos + 1);
      ParamListSpelled(ts, pos + 1);
      StatementSpelled(ts, ps.pos);
      FunctionJoin(ts, pos, ps, ParseStatement(ts, ps.pos), r.value.value);
    }
  }

  lemma FunctionJoin(ts: seq<Token>, pos: nat, ps: Parse<seq<Token>>, b: Parse<Option<Stmt>>, s: Stmt)
    requires pos < |ts| && ps.POk? && pos + 1 <= ps.pos <= |ts|
    requires Span(ts, pos + 1, ps.pos) == [LeftParen] + ParamsYield(ps.value) + [RightParen]
    requires b.POk? && ps.pos <= b.pos && Spelled(ts, ps.pos, [], b)
    requires s == FunctionStmt(ts[pos], ps.value, b.value)
    ensures Spelled(ts, pos, [Fn], POk(Some(s), b.pos))
  {
    var params := Span(ts, pos + 1, ps.pos);
    var body := Span(ts, ps.pos, b.pos);
    assert [] + body == body;
    Join(ts, pos + 1, ps.pos, b.pos);
    JoinFront(ts, pos, b.pos);
    FunctionMatch(ts[pos].kind, params, body, s);
    assert [Fn] + Span(ts, pos, b.pos) == [Fn] + ([ts[pos].kind] + (params + body));
  }

  /** A parameter list spells its parentheses around the comma-separated names. */
  lemma ParamListSpelled(ts: seq<Token>, pos: nat)
    requires At(ts, pos)
    ensures var r := ParamList(ts, pos);
      r.POk? ==> pos < r.pos <= |ts| && Span(ts, pos, r.pos) == [LeftParen] + ParamsYield(r.value) + [RightParen]
  {
    var r := ParamList(ts, pos);
    if r.POk? {
      ParamListParts(ts, pos);
      if r.value != [] {
        ParametersSpelled(ts, pos + 1, []);
        assert r.value[0..] == r.value;
      }
      Wrap(ts, pos, r.pos - 1);
    }
  }

  /** The parameters the loop adds after `acc` spell the names it consumed, comma separated. */
  lemma {:induction false} ParametersSpelled(ts: seq<Token>, pos: nat, acc: seq<Token>)
    requires At(ts, pos) && pos > 0 && |acc| <= MaxArity && AllIdentifiers(acc)
    ensures var r := Parameters(ts, pos, acc);
      r.POk? ==> pos <= r.pos <= |ts| && Span(ts, pos, r.pos) == ParamsYield(r.value[|acc|..])
    decreases |ts| - pos
  {
    var r := Parameters(ts, pos, acc);
    if r.POk? {
      ParamsStep(ts, pos, acc);
      if Check(ts, pos + 1, Comma) {
        ParametersSpelled(ts, pos + 2, acc + [ts[pos]]);
        ParamsFront(ts, pos, acc, r);
      } else {
        One(ts, pos);
        assert r.value[|acc|..] == [ts[pos]];
      }
    }
  }

  lemma ParamsFront(ts: seq<Token>, pos: nat, acc: seq<Token>, r: Parse<seq<Token>>)
    requires r.POk? && pos + 2 <= r.pos <= |ts| && |acc| + 1 < |r.value|
    requires r.value[|acc|] == ts[pos] && ts[pos + 1].kind == Comma
    requires Span(ts, pos + 2, r.pos) == ParamsYield(r.value[|acc| + 1..])
    ensures Span(ts, pos, r.pos) == ParamsYield(r.value[|acc|..])
  {
    var later := r.value[|acc|..];
    assert later[0] == ts[pos] && later[1..] == r.value[|acc| + 1..];
    JoinFront(ts, pos, r.pos);
    JoinFront(ts, pos + 1, r.pos);
  }
}
