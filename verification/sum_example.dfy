/**
 * One expression parsed end to end: `1 + 2 * 3` becomes
 * `1 + (2 * 3)`. The tiers are walked one by one, so each step is a small
 * fact about one parser function.
 */
module SumExample {
  import opened Tokens
  import opened Ast
  import opened Cursor
  import opened Shapes
  import opened ExprParser

  /** Tokens for the line `1 + 2 * 3`; only their kinds steer the parser. */
  function Num(lexeme: string, column: int): Token { Token(Number, lexeme, "sum", "1 + 2 * 3", 1, column) }
  function Op(kind: TokenKind, lexeme: string, column: int): Token { Token(kind, lexeme, "sum", "1 + 2 * 3", 1, column) }

  const Sum: seq<Token> := [Num("1", 1), Op(Plus, "+", 3), Num("2", 5), Op(Star, "*", 7), Num("3", 9), Op(End, "", 10)]

  /** `2 * 3` and the whole tree `1 + (2 * 3)`, built from those tokens. */
  const Product: Expr := Binary(Literal(Sum[2]), Sum[3], Literal(Sum[4]))

  const Whole: Expr := Binary(Literal(Sum[0]), Sum[1], Product)

  /** A number not followed by `(` is a unary-level operand on its own. */
  lemma NumberOperand(ts: seq<Token>, i: nat)
    requires At(ts, i) && ts[i].kind == Number && i + 1 < |ts| && ts[i + 1].kind != LeftParen
    ensures ParseUnary(ts, i) == POk(Literal(ts[i]), i + 1)
  {
    assert !IsUnaryOp(Number);
    assert ParsePrimary(ts, i) == POk(Literal(ts[i]), i + 1);
    assert CallTail(Literal(ts[i]), ts, i + 1) == POk(Literal(ts[i]), i + 1);
  }

  /** A tier's loop stops, returning what it has folded, at a token of another tier or at the end. */
  lemma TierStops(tier: nat, left: Expr, ts: seq<Token>, pos: nat)
    requires 1 <= tier <= 6 && At(ts, pos) && WellNested(left) && Rank(left) >= tier
    requires AtEnd(ts, pos) || OpTier(ts[pos].kind) != tier
    ensures TierTail(tier, left, ts, pos) == POk(left, pos)
  {
  }

  /** One turn of a tier's loop (tiers 1 to 5): the operator and the next tier's operand are folded in. */
  lemma TierStep(tier: nat, left: Expr, ts: seq<Token>, pos: nat, right: Expr, p: nat)
    requires 1 <= tier < 6 && At(ts, pos) && pos + 1 < |ts| && WellNested(left) && Rank(left) >= tier
    requires !AtEnd(ts, pos) && OpTier(ts[pos].kind) == tier
    requires ParseTier(tier + 1, ts, pos + 1) == POk(right, p)
    ensures TierTail(tier, left, ts, pos)
      == TierTail(tier, if tier <= 2 then Logical(left, ts[pos], right) else Binary(left, ts[pos], right), ts, p)
  {
  }

  /** One turn of the multiplicative tier's loop, whose operands are unary expressions. */
  lemma FactorStep(left: Expr, ts: seq<Token>, pos: nat, right: Expr, p: nat)
    requires At(ts, pos) && pos + 1 < |ts| && WellNested(left) && Rank(left) >= 6
    requires !AtEnd(ts, pos) && OpTier(ts[pos].kind) == 6
    requires ParseUnary(ts, pos + 1) == POk(right, p)
    ensures TierTail(6, left, ts, pos) == TierTail(6, Binary(left, ts[pos], right), ts, p)
  {
  }

  /** The multiplicative tier starts from the unary expression in front of it. */
  lemma FactorStart(ts: seq<Token>, pos: nat, left: Expr, p: nat)
    requires At(ts, pos) && ParseUnary(ts, pos) == POk(left, p)
    ensures ParseTier(6, ts, pos) == TierTail(6, left, ts, p)
  {
  }

  /** The kinds of `n + n * n` followed by the end. */
  predicate SumOfProduct(ts: seq<Token>)
  {
    && At(ts, 0) && 6 <= |ts|
    && ts[0].kind == Number && ts[1].kind == Plus && ts[2].kind == Number
    && ts[3].kind == Star && ts[4].kind == Number && ts[5].kind == End
  }

  /** The multiplicative tier, started at `2`, reads `2 * 3` and stops at the end. */
  lemma TightTier(ts: seq<Token>)
    requires SumOfProduct(ts)
    ensures ParseTier(6, ts, 2) == POk(Binary(Literal(ts[2]), ts[3], Literal(ts[4])), 5)
  {
    NumberOperand(ts, 2);
    FactorStart(ts, 2, Literal(ts[2]), 3);
    NumberOperand(ts, 4);
    var product := Binary(Literal(ts[2]), ts[3], Literal(ts[4]));
    FactorStep(Literal(ts[2]), ts, 3, Literal(ts[4]), 5);
    TierStops(6, product, ts, 5);
  }

  /** The multiplicative tier, started at `1`, stops at `+`: it reads the number alone. */
  lemma FirstOperand(ts: seq<Token>)
    requires SumOfProduct(ts)
    ensures ParseTier(6, ts, 0) == POk(Literal(ts[0]), 1)
  {
    NumberOperand(ts, 0);
    TierStops(6, Literal(ts[0]), ts, 1);
  }

  /** `ts[0] ts[1] (ts[2] ts[3] ts[4])`: the right operand grouped first. */
  function SumTree(ts: seq<Token>): Expr
    requires 5 <= |ts|
  {
    Binary(Literal(ts[0]), ts[1], Binary(Literal(ts[2]), ts[3], Literal(ts[4])))
  }

  /** The additive tier folds `1` with the product it gets from the tier below. */
  lemma LooseTier(ts: seq<Token>)
    requires SumOfProduct(ts)
    ensures ParseTier(5, ts, 0) == POk(SumTree(ts), 5)
  {
    FirstOperand(ts);
    TightTier(ts);
    TierStep(5, Literal(ts[0]), ts, 1, Binary(Literal(ts[2]), ts[3], Literal(ts[4])), 5);
    TierStops(5, SumTree(ts), ts, 5);
  }

  /** The tiers above the additive one find no operator of their own and pass the sum up unchanged. */
  lemma {:induction false} UpperTiers(t: nat, ts: seq<Token>)
    requires 1 <= t <= 5 && SumOfProduct(ts)
    ensures ParseTier(t, ts, 0) == POk(SumTree(ts), 5)
    decreases 5 - t
  {
    if t == 5 {
      LooseTier(ts);
    } else {
      UpperTiers(t + 1, ts);
      TierStops(t, SumTree(ts), ts, 5);
    }
  }

  /**
   * Any token sequence of kinds `n + n * n` then end parses as an
   * expression to `n + (n * n)`, consuming the five tokens.
   */
  lemma MulBindsTighter(ts: seq<Token>)
    requires SumOfProduct(ts)
    ensures ParseExpression(ts, 0) == POk(SumTree(ts), 5)
  {
    UpperTiers(1, ts);
    assert ParseAssignment(ts, 0) == POk(SumTree(ts), 5);
  }

  /** The concrete line `1 + 2 * 3`. */
  lemma Witness()
    ensures ParseExpression(Sum, 0) == POk(Whole, 5)
  {
    MulBindsTighter(Sum);
  }
}
