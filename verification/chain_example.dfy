/**
 * Two chains parsed end to end. `f(x)(y)` is a call whose callee is the
 * call `f(x)`: each further `(` wraps the chain built so far. Three
 * operands joined by two operators of one tier, such as `1 - 2 - 3`,
 * group to the left: `(1 - 2) - 3`.
 */
module ChainExample {
  import opened Tokens
  import opened Ast
  import opened Cursor
  import opened Shapes
  import opened ExprParser
  import opened ExprYield
  import opened SumExample
  import opened ParserFacts
  import opened ExprStops

  /*
   * Passing an operand up the tiers.
   */

  /** A unary expression followed by no multiplicative operator is the whole multiplicative tier. */
  lemma UnaryTier(ts: seq<Token>, i: nat, r: Parse<Expr>)
    requires At(ts, i) && ParseUnary(ts, i) == r && r.POk? && OpTier(ts[r.pos].kind) < 6
    ensures ParseTier(6, ts, i) == r
  {
    FactorStart(ts, i, r.value, r.pos);
    TierStops(6, r.value, ts, r.pos);
  }

  /**
   * What tier `t` parsed is what every looser tier `s` parses, as long as
   * the token after it is no operator of tier `s` or tighter.
   */
  lemma {:induction false} PassTier(s: nat, t: nat, ts: seq<Token>, i: nat, r: Parse<Expr>)
    requires 1 <= s <= t <= 6 && At(ts, i) && ParseTier(t, ts, i) == r && r.POk? && OpTier(ts[r.pos].kind) < s
    ensures ParseTier(s, ts, i) == r
    decreases t - s
  {
    if s < t {
      PassTier(s + 1, t, ts, i, r);
      assert ParseTier(s, ts, i) == TierTail(s, r.value, ts, r.pos);
      TierStops(s, r.value, ts, r.pos);
    }
  }

  /** An `or`-tier expression followed by no `=` is the whole expression. */
  lemma WholeExpression(ts: seq<Token>, i: nat, r: Parse<Expr>)
    requires At(ts, i) && ParseTier(1, ts, i) == r && r.POk? && !Check(ts, r.pos, Equal)
    ensures ParseExpression(ts, i) == r
  {
    NoAssignment(ts, i);
  }

  /** A unary expression followed by no operator and no `=` is the whole expression. */
  lemma LoneUnary(ts: seq<Token>, i: nat, r: Parse<Expr>)
    requires At(ts, i) && ParseUnary(ts, i) == r && r.POk?
    requires OpTier(ts[r.pos].kind) == 0 && !Check(ts, r.pos, Equal)
    ensures ParseExpression(ts, i) == r
  {
    UnaryTier(ts, i, r);
    PassTier(1, 6, ts, i, r);
    WholeExpression(ts, i, r);
  }

  /*
   * `f(x)(y)`.
   */

  /** A name not followed by `(` is a unary-level operand on its own. */
  lemma NameOperand(ts: seq<Token>, i: nat)
    requires At(ts, i) && ts[i].kind == Identifier && i + 1 < |ts| && ts[i + 1].kind != LeftParen
    ensures ParseUnary(ts, i) == POk(Variable(ts[i]), i + 1)
  {
    assert !IsUnaryOp(Identifier) && !IsLiteralKind(Identifier);
    assert ParsePrimary(ts, i) == POk(Variable(ts[i]), i + 1);
    assert CallTail(Variable(ts[i]), ts, i + 1) == POk(Variable(ts[i]), i + 1);
  }

  /** The argument list `x)`, entered after `(`: one argument, and the `)` the call keeps. */
  lemma OneArgument(callee: Expr, ts: seq<Token>, i: nat)
    requires At(ts, i) && WellNested(callee) && Rank(callee) == 8
    requires i + 1 < |ts| && ts[i].kind == Identifier && ts[i + 1].kind == RightParen
    ensures FinishCall(callee, ts, i) == POk(Call(callee, ts[i + 1], [Variable(ts[i])]), i + 2)
  {
    NameOperand(ts, i);
    LoneUnary(ts, i, POk(Variable(ts[i]), i + 1));
    assert Arguments(ts, i, []) == POk([] + [Variable(ts[i])], i + 1);
  }

  /** The kinds of `f(x)(y)` followed by a token other than `(`. */
  predicate CallOfCall(ts: seq<Token>)
  {
    && At(ts, 0) && 8 <= |ts|
    && ts[0].kind == Identifier && ts[1].kind == LeftParen && ts[2].kind == Identifier && ts[3].kind == RightParen
    && ts[4].kind == LeftParen && ts[5].kind == Identifier && ts[6].kind == RightParen && ts[7].kind != LeftParen
  }

  /** `f(x)`, the inner call, built from the tokens. */
  function InnerCall(ts: seq<Token>): Expr
    requires 4 <= |ts|
  {
    Call(Variable(ts[0]), ts[3], [Variable(ts[2])])
  }

  /**
   * The call loop runs twice: the second `(` wraps `f(x)` as the callee of
   * the outer call, whose argument is `y`; the loop ends at the token
   * after the last `)`.
   */
  lemma CallChain(ts: seq<Token>)
    requires CallOfCall(ts)
    ensures ParseCall(ts, 0) == POk(Call(InnerCall(ts), ts[6], [Variable(ts[5])]), 7)
  {
    var f := Variable(ts[0]);
    assert !IsLiteralKind(Identifier);
    assert ParsePrimary(ts, 0) == POk(f, 1);
    OneArgument(f, ts, 2);
    assert CallTail(f, ts, 1) == CallTail(InnerCall(ts), ts, 4);
    OneArgument(InnerCall(ts), ts, 5);
    var outer := Call(InnerCall(ts), ts[6], [Variable(ts[5])]);
    assert CallTail(InnerCall(ts), ts, 4) == CallTail(outer, ts, 7);
  }

  /** Followed by no operator and no `=`, the call chain is the whole expression. */
  lemma CallChainExpression(ts: seq<Token>)
    requires CallOfCall(ts) && OpTier(ts[7].kind) == 0 && ts[7].kind != Equal
    ensures ParseExpression(ts, 0) == POk(Call(InnerCall(ts), ts[6], [Variable(ts[5])]), 7)
  {
    CallChain(ts);
    assert !IsUnaryOp(Identifier);
    LoneUnary(ts, 0, POk(Call(InnerCall(ts), ts[6], [Variable(ts[5])]), 7));
  }

  /*
   * `n op n op n` within one tier.
   */

  /**
   * The kinds of `n op n op n` with both operators of tier `t`, followed
   * by a token that is no operator, not `(` and not `=`.
   */
  predicate SameTier(ts: seq<Token>, t: nat)
  {
    && At(ts, 0) && 6 <= |ts| && 1 <= t <= 6
    && ts[0].kind == Number && OpTier(ts[1].kind) == t && ts[2].kind == Number
    && OpTier(ts[3].kind) == t && ts[4].kind == Number
    && OpTier(ts[5].kind) == 0 && ts[5].kind != LeftParen && ts[5].kind != Equal
  }

  /** A number followed by an operator of tier `t` or a looser one is an operand of tier `t`. */
  lemma NumberAt(t: nat, ts: seq<Token>, i: nat)
    requires 1 <= t <= 6 && At(ts, i) && ts[i].kind == Number && i + 1 < |ts|
    requires ts[i + 1].kind != LeftParen && OpTier(ts[i + 1].kind) <= t
    ensures Operand(t, ts, i) == POk(Literal(ts[i]), i + 1)
  {
    NumberOperand(ts, i);
    if t < 6 {
      UnaryTier(ts, i, POk(Literal(ts[i]), i + 1));
      PassTier(t + 1, 6, ts, i, POk(Literal(ts[i]), i + 1));
    }
  }

  /** `(n op n) op n`: the first two operands are folded before the third joins. */
  function LeftGrouped(ts: seq<Token>, t: nat): Expr
    requires 5 <= |ts|
  {
    Node(t, Node(t, Literal(ts[0]), ts[1], Literal(ts[2])), ts[3], Literal(ts[4]))
  }

  /** One turn of tier `t`'s loop over an operator and a number. */
  lemma NumberFold(t: nat, left: Expr, ts: seq<Token>, pos: nat)
    requires 1 <= t <= 6 && At(ts, pos) && WellNested(left) && Rank(left) >= t
    requires pos + 2 < |ts| && OpTier(ts[pos].kind) == t && ts[pos + 1].kind == Number
    requires ts[pos + 2].kind != LeftParen && OpTier(ts[pos + 2].kind) <= t
    ensures
      var folded := Node(t, left, ts[pos], Literal(ts[pos + 1]));
      && WellNested(folded) && Rank(folded) >= t
      && TierTail(t, left, ts, pos) == TierTail(t, folded, ts, pos + 2)
  {
    NumberAt(t, ts, pos + 1);
    Unfold(t, left, ts, pos);
  }

  /** Tier `t` reads all five tokens and folds them from the left. */
  lemma FoldsLeft(ts: seq<Token>, t: nat)
    requires SameTier(ts, t)
    ensures ParseTier(t, ts, 0) == POk(LeftGrouped(ts, t), 5)
  {
    var first := Node(t, Literal(ts[0]), ts[1], Literal(ts[2]));
    NumberAt(t, ts, 0);
    assert ParseTier(t, ts, 0) == TierTail(t, Literal(ts[0]), ts, 1);
    NumberFold(t, Literal(ts[0]), ts, 1);
    NumberFold(t, first, ts, 3);
    TierStops(t, LeftGrouped(ts, t), ts, 5);
  }

  /**
   * Any token sequence of kinds `n op n op n` with two operators of one
   * tier, then a token that ends an expression, parses to
   * `(n op n) op n`: the tier is left-associative.
   */
  lemma LeftAssociative(ts: seq<Token>, t: nat)
    requires SameTier(ts, t)
    ensures ParseExpression(ts, 0) == POk(LeftGrouped(ts, t), 5)
  {
    FoldsLeft(ts, t);
    PassTier(1, t, ts, 0, POk(LeftGrouped(ts, t), 5));
    WholeExpression(ts, 0, POk(LeftGrouped(ts, t), 5));
  }

  /** Tokens for the line `1 - 2 - 3;`. */
  function Tok(kind: TokenKind, lexeme: string, column: int): Token { Token(kind, lexeme, "chain", "1 - 2 - 3;", 1, column) }

  const Difference: seq<Token> :=
    [Tok(Number, "1", 1), Tok(Minus, "-", 3), Tok(Number, "2", 5), Tok(Minus, "-", 7),
     Tok(Number, "3", 9), Tok(Semicolon, ";", 10), Tok(End, "", 11)]

  /** The concrete line `1 - 2 - 3;`: the expression is `(1 - 2) - 3` and stops at `;`. */
  lemma DifferenceWitness()
    ensures ParseExpression(Difference, 0)
      == POk(Binary(Binary(Literal(Difference[0]), Difference[1], Literal(Difference[2])), Difference[3], Literal(Difference[4])), 5)
  {
    LeftAssociative(Difference, 5);
  }
}
