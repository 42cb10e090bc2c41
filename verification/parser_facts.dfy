/**
 * Behaviours of the parser that follow from its code paths rather than
 * from the shape invariants: what a token that cannot start an expression
 * does, the null statements, and how errors propagate out of blocks.
 */
module ParserFacts {
  import opened Wrappers
  import opened Tokens
  import opened Errors
  import opened Ast
  import opened Cursor
  import opened Shapes
  import opened ExprParser
  import opened StmtParser

  /** The kinds an expression can begin with: a prefix operator or a primary. */
  predicate StartsExpression(kind: TokenKind)
  {
    IsUnaryOp(kind) || IsLiteralKind(kind) || kind == Identifier || kind == LeftParen
  }

  /** A token that cannot begin an expression fails primary, unmoved, wherever the parse starts. */
  lemma PrimaryRejects(ts: seq<Token>, pos: nat)
    requires At(ts, pos) && (AtEnd(ts, pos) || !StartsExpression(ts[pos].kind))
    ensures ParseCall(ts, pos) == PErr(PrimaryError(ts, pos), pos)
    ensures ParseUnary(ts, pos) == PErr(PrimaryError(ts, pos), pos)
  {
    assert ParsePrimary(ts, pos) == PErr(PrimaryError(ts, pos), pos);
  }

  /** The same failure passes unchanged through every infix tier from `tier` down to 6. */
  lemma {:induction false} TierRejects(tier: nat, ts: seq<Token>, pos: nat)
    requires 1 <= tier <= 6 && At(ts, pos) && (AtEnd(ts, pos) || !StartsExpression(ts[pos].kind))
    ensures ParseTier(tier, ts, pos) == PErr(PrimaryError(ts, pos), pos)
    decreases 6 - tier
  {
    if tier < 6 {
      TierRejects(tier + 1, ts, pos);
    } else {
      PrimaryRejects(ts, pos);
    }
  }

  /**
   * An expression cannot begin with such a token: the parse fails at it
   * with "primary expression" and does not move.
   */
  lemma ExpressionRejects(ts: seq<Token>, pos: nat)
    requires At(ts, pos) && (AtEnd(ts, pos) || !StartsExpression(ts[pos].kind))
    ensures ParseExpression(ts, pos) == PErr(ParseError(UnexpectedToken, ts[pos], ["primary expression"]), pos)
  {
    TierRejects(1, ts, pos);
    assert ParseAssignment(ts, pos) == PErr(PrimaryError(ts, pos), pos);
  }

  /** `for`, `break` and `return` where a statement is expected: no node, only the keyword consumed. */
  lemma NullStatements(ts: seq<Token>, pos: nat)
    requires At(ts, pos) && (Check(ts, pos, For) || Check(ts, pos, Break) || Check(ts, pos, Return))
    ensures ParseStatement(ts, pos) == POk(None, pos + 1)
  {
    var k := ts[pos].kind;
    assert k != Print && k != LeftBrace && k != If && k != While;
  }

  /** `for` as a declaration: no node, only the keyword consumed. */
  lemma ForDeclaration(ts: seq<Token>, pos: nat)
    requires At(ts, pos) && Check(ts, pos, For)
    ensures ParseDeclaration(ts, pos) == POk(None, pos + 1)
  {
    var k := ts[pos].kind;
    assert k != Fn && k != Let;
    assert ParseDeclaration(ts, pos) == Recover(ts, ParseFor(ts, pos + 1));
  }

  /**
   * `break` and `return` are not declarations: at top level or directly in
   * a block they are read as an expression statement, which fails at the
   * keyword; the cursor then resynchronises from the keyword.
   */
  lemma BreakOutsideStatement(ts: seq<Token>, pos: nat)
    requires At(ts, pos) && (Check(ts, pos, Break) || Check(ts, pos, Return))
    ensures ParseDeclaration(ts, pos) == PErr(ParseError(UnexpectedToken, ts[pos], ["primary expression"]), Synchronize(ts, pos))
  {
    var k := ts[pos].kind;
    assert k != Fn && k != Let && k != For && k != If && k != While && k != Print && k != LeftBrace;
    ExpressionRejects(ts, pos);
    assert ParseExpressionStatement(ts, pos) == PErr(PrimaryError(ts, pos), pos);
    assert ParseDeclaration(ts, pos) == Recover(ts, ParseExpressionStatement(ts, pos));
  }

  /**
   * A declaration that fails inside a block fails the block: the error is
   * the inner one, the inner declaration has already resynchronised, and
   * the block declaration resynchronises once more from there.
   */
  lemma BlockErrorResyncs(ts: seq<Token>, pos: nat)
    requires At(ts, pos) && Check(ts, pos, LeftBrace)
    requires BlockItems(ts, pos + 1, []).PErr?
    ensures
      var inner := BlockItems(ts, pos + 1, []);
      && SyncPoint(ts, inner.pos)
      && ParseDeclaration(ts, pos) == PErr(inner.error, Synchronize(ts, inner.pos))
  {
    var k := ts[pos].kind;
    assert k != Fn && k != Let && k != For && k != If && k != While && k != Print;
    var inner := BlockItems(ts, pos + 1, []);
    assert ParseBlock(ts, pos + 1) == PErr(inner.error, inner.pos);
    assert ParseDeclaration(ts, pos) == Recover(ts, ParseBlock(ts, pos + 1));
  }

  /*
   * Assignment targets.
   */

  /**
   * `name = value` builds Assign from the variable's name and the value.
   * (A field access would build Set, but the parser builds none.)
   */
  lemma ValidTarget(ts: seq<Token>, pos: nat)
    requires At(ts, pos)
    requires var t := ParseTier(1, ts, pos);
      && t.POk? && t.value.Variable? && Check(ts, t.pos, Equal)
      && ParseAssignment(ts, t.pos + 1).POk?
    ensures
      var t := ParseTier(1, ts, pos);
      var v := ParseAssignment(ts, t.pos + 1);
      ParseAssignment(ts, pos) == POk(Assign(t.value.name, v.value), v.pos)
  {
  }

  /**
   * Any other target followed by `=` fails once the value has been parsed:
   * InvalidAssignment, reported at the token after the value.
   */
  lemma InvalidTarget(ts: seq<Token>, pos: nat)
    requires At(ts, pos)
    requires var t := ParseTier(1, ts, pos);
      && t.POk? && !t.value.Variable? && !t.value.Get? && Check(ts, t.pos, Equal)
      && ParseAssignment(ts, t.pos + 1).POk?
    ensures
      var t := ParseTier(1, ts, pos);
      var v := ParseAssignment(ts, t.pos + 1);
      ParseAssignment(ts, pos) == PErr(ParseError(InvalidAssignment, ts[v.pos], []), v.pos)
  {
  }

  /** Without `=` after it, the target is the whole expression. */
  lemma NoAssignment(ts: seq<Token>, pos: nat)
    requires At(ts, pos)
    requires var t := ParseTier(1, ts, pos); t.POk? && !Check(ts, t.pos, Equal)
    ensures ParseAssignment(ts, pos) == ParseTier(1, ts, pos)
  {
  }

  /*
   * Arity limits.
   */

  /**
   * `n` arguments in a row, each followed by a comma: the position after
   * the last comma, or None if an argument fails or is not followed by one.
   */
  ghost function ArgRun(ts: seq<Token>, pos: nat, n: nat): (r: Option<nat>)
    requires At(ts, pos)
    ensures r.Some? ==> At(ts, r.value) && pos <= r.value
    decreases n
  {
    if n == 0 then Some(pos)
    else
      match ParseExpression(ts, pos)
      case PErr(_, _) => None
      case POk(_, p) => if Check(ts, p, Comma) then ArgRun(ts, p + 1, n - 1) else None
  }

  /**
   * A call with 255 arguments so far fails at the first token of the next:
   * once the arguments after `acc` reach the limit, each followed by a
   * comma, the loop stops with TooManyArguments at the token after the
   * last comma, whatever follows it.
   */
  lemma {:induction false} ArgumentLimit(ts: seq<Token>, pos: nat, acc: seq<Expr>)
    requires At(ts, pos) && |acc| <= MaxArity && AllWellNested(acc)
    requires ArgRun(ts, pos, MaxArity - |acc|).Some?
    ensures
      var q := ArgRun(ts, pos, MaxArity - |acc|).value;
      Arguments(ts, pos, acc) == PErr(ParseError(TooManyArguments, ts[q], []), q)
    decreases MaxArity - |acc|
  {
    if |acc| < MaxArity {
      var e := ParseExpression(ts, pos);
      var more := acc + [e.value];
      assert forall i :: 0 <= i < |more| ==> WellNested(more[i]) by {
        forall i | 0 <= i < |more|
          ensures WellNested(more[i])
        {
          if i < |acc| {
            assert more[i] == acc[i];
          }
        }
      }
      ArgumentLimit(ts, e.pos + 1, more);
    }
  }

  /** `n` parameters in a row, each an identifier followed by a comma. */
  ghost predicate ParamRun(ts: seq<Token>, pos: nat, n: nat)
    decreases n
  {
    n == 0 || (pos + 1 < |ts| && ts[pos].kind == Identifier && ts[pos + 1].kind == Comma && ParamRun(ts, pos + 2, n - 1))
  }

  /**
   * The parameter loop fails with TooManyParameters exactly when the
   * parameters after `acc` reach the limit, each followed by a comma;
   * the error is reported at the last of those commas and the cursor is
   * left after it.
   */
  lemma {:induction false} ParameterLimit(ts: seq<Token>, pos: nat, acc: seq<Token>)
    requires At(ts, pos) && pos > 0 && |acc| <= MaxArity && AllIdentifiers(acc)
    ensures
      var r := Parameters(ts, pos, acc);
      r.PErr? && r.error.kind == TooManyParameters <==> ParamRun(ts, pos, MaxArity - |acc|)
    ensures
      var q := pos + 2 * (MaxArity - |acc|);
      ParamRun(ts, pos, MaxArity - |acc|) ==>
        && q < |ts| && (|acc| < MaxArity ==> ts[q - 1].kind == Comma)
        && Parameters(ts, pos, acc) == PErr(ParseError(TooManyParameters, ts[q - 1], []), q)
    decreases MaxArity - |acc|
  {
    if |acc| < MaxArity && Check(ts, pos, Identifier) && Check(ts, pos + 1, Comma) {
      var more := acc + [ts[pos]];
      assert AllIdentifiers(more) by {
        forall i | 0 <= i < |more|
          ensures more[i].kind == Identifier
        {
          if i < |acc| {
            assert more[i] == acc[i];
          }
        }
      }
      ParameterLimit(ts, pos + 2, more);
      assert Parameters(ts, pos, acc) == Parameters(ts, pos + 2, more);
    }
  }
}
