/**
 * Where a successful expression parse stops. Every loop of the grammar
 * runs while its token follows, so a parse ends only in front of a token
 * that no loop at its level, or any tighter one, would take: not `(`
 * after a call, not an operator of the tier or a tighter tier, and, for
 * a whole expression, no infix operator and no `=` at all.
 */
module ExprStops {
  import opened Tokens
  import opened Ast
  import opened Cursor
  import opened Shapes
  import opened ExprParser
  import opened ExprYield

  /**
   * The token at `pos` ends an expression of level `level`: tiers 1 to 6
   * are the infix tiers and 7 is unary and call. It is not `(` and not an
   * operator of tier `level` or tighter.
   */
  predicate Ends(ts: seq<Token>, pos: nat, level: nat)
    requires pos < |ts|
  {
    ts[pos].kind != LeftParen && OpTier(ts[pos].kind) < level
  }

  /** The call loop runs while `(` follows: it stops only in front of another token. */
  lemma {:induction false} CallTailEnds(callee: Expr, ts: seq<Token>, pos: nat)
    requires At(ts, pos) && WellNested(callee) && Rank(callee) == 8
    ensures var r := CallTail(callee, ts, pos); r.POk? ==> !Check(ts, r.pos, LeftParen)
    decreases |ts| - pos
  {
    if Check(ts, pos, LeftParen) {
      var f := FinishCall(callee, ts, pos + 1);
      if f.POk? {
        CallTailEnds(f.value, ts, f.pos);
      }
    }
  }

  /** A call chain ends in front of a token other than `(`. */
  lemma CallEnds(ts: seq<Token>, pos: nat)
    requires At(ts, pos)
    ensures var r := ParseCall(ts, pos); r.POk? ==> !Check(ts, r.pos, LeftParen)
  {
    var p := ParsePrimary(ts, pos);
    if p.POk? {
      CallTailEnds(p.value, ts, p.pos);
    }
  }

  /** So does a unary expression, which ends where its innermost call ends. */
  lemma {:induction false} UnaryEnds(ts: seq<Token>, pos: nat)
    requires At(ts, pos)
    ensures var r := ParseUnary(ts, pos); r.POk? ==> !Check(ts, r.pos, LeftParen)
    decreases |ts| - pos
  {
    if !AtEnd(ts, pos) && IsUnaryOp(ts[pos].kind) {
      UnaryEnds(ts, pos + 1);
    } else {
      CallEnds(ts, pos);
    }
  }

  /** The operand of tier `tier` ends at level `tier + 1`. */
  lemma {:induction false} OperandEnds(tier: nat, ts: seq<Token>, pos: nat)
    requires 1 <= tier <= 6 && At(ts, pos)
    ensures var o := Operand(tier, ts, pos); o.POk? ==> Ends(ts, o.pos, tier + 1)
    decreases |ts| - pos, 7 - tier, 0
  {
    if tier < 6 {
      TierEnds(tier + 1, ts, pos);
    } else {
      UnaryEnds(ts, pos);
    }
  }

  /** Tier `tier` ends in front of a token that is not `(` and no operator of that tier or a tighter one. */
  lemma {:induction false} TierEnds(tier: nat, ts: seq<Token>, pos: nat)
    requires 1 <= tier <= 6 && At(ts, pos)
    ensures var r := ParseTier(tier, ts, pos); r.POk? ==> Ends(ts, r.pos, tier)
    decreases |ts| - pos, 7 - tier, 1
  {
    var o := Operand(tier, ts, pos);
    OperandEnds(tier, ts, pos);
    if o.POk? {
      assert ParseTier(tier, ts, pos) == TierTail(tier, o.value, ts, o.pos);
      TailEnds(tier, o.value, ts, o.pos);
    }
  }

  /**
   * The loop of tier `tier`, entered where its operand ended, runs while an
   * operator of its tier follows and so ends at level `tier`.
   */
  lemma {:induction false} TailEnds(tier: nat, left: Expr, ts: seq<Token>, pos: nat)
    requires 1 <= tier <= 6 && At(ts, pos)
    requires WellNested(left) && Rank(left) >= tier
    requires Ends(ts, pos, tier + 1)
    ensures var r := TierTail(tier, left, ts, pos); r.POk? ==> Ends(ts, r.pos, tier)
    decreases |ts| - pos, 0
  {
    if !AtEnd(ts, pos) && OpTier(ts[pos].kind) == tier {
      var o := Operand(tier, ts, pos + 1);
      Unfold(tier, left, ts, pos);
      OperandEnds(tier, ts, pos + 1);
      if o.POk? {
        TailEnds(tier, Node(tier, left, ts[pos], o.value), ts, o.pos);
      }
    }
  }

  /** One turn of the tier loop: fold the operator and its operand into the left operand. */
  lemma Unfold(tier: nat, left: Expr, ts: seq<Token>, pos: nat)
    requires 1 <= tier <= 6 && At(ts, pos)
    requires WellNested(left) && Rank(left) >= tier
    requires !AtEnd(ts, pos) && OpTier(ts[pos].kind) == tier
    ensures At(ts, pos + 1)
    ensures
      var o := Operand(tier, ts, pos + 1);
      o.POk? ==>
        && WellNested(Node(tier, left, ts[pos], o.value)) && Rank(Node(tier, left, ts[pos], o.value)) >= tier
        && TierTail(tier, left, ts, pos) == TierTail(tier, Node(tier, left, ts[pos], o.value), ts, o.pos)
  {
    NotLast(ts, pos);
    var o := Operand(tier, ts, pos + 1);
    if o.POk? {
      NodeNested(tier, left, ts[pos], o.value);
    }
  }

  /**
   * An assignment ends in front of a token that is no infix operator, not
   * `(` and not `=`: a further `=` would have been taken as a nested
   * assignment.
   */
  lemma {:induction false} AssignmentEnds(ts: seq<Token>, pos: nat)
    requires At(ts, pos)
    ensures var r := ParseAssignment(ts, pos); r.POk? ==> Ends(ts, r.pos, 1) && !Check(ts, r.pos, Equal)
    decreases |ts| - pos
  {
    var t := ParseTier(1, ts, pos);
    TierEnds(1, ts, pos);
    if t.POk? && Check(ts, t.pos, Equal) {
      NotLast(ts, t.pos);
      AssignmentEnds(ts, t.pos + 1);
      AssignedEnd(ts, pos);
    }
  }

  /** After `=`, a successful assignment ends where its value ends. */
  lemma AssignedEnd(ts: seq<Token>, pos: nat)
    requires At(ts, pos)
    requires var t := ParseTier(1, ts, pos); t.POk? && Check(ts, t.pos, Equal)
    ensures
      var t := ParseTier(1, ts, pos);
      var r := ParseAssignment(ts, pos);
      At(ts, t.pos + 1) && (r.POk? ==> ParseAssignment(ts, t.pos + 1).POk? && r.pos == ParseAssignment(ts, t.pos + 1).pos)
  {
    var t := ParseTier(1, ts, pos);
    NotLast(ts, t.pos);
  }

  /** A whole expression ends in front of a token that no rule of the grammar would continue with. */
  lemma ExpressionEnds(ts: seq<Token>, pos: nat)
    requires At(ts, pos)
    ensures var r := ParseExpression(ts, pos);
      r.POk? ==> OpTier(ts[r.pos].kind) == 0 && ts[r.pos].kind != LeftParen && ts[r.pos].kind != Equal
  {
    AssignmentEnds(ts, pos);
  }
}
