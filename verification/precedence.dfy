/**
 * What the yield and the nesting invariant together say about grouping.
 * A well-nested tree is determined by the operator kinds it spells: for
 * `n op1 n op2 n` the tighter operator is grouped first, and of two
 * operators of one tier the left one, as in `1 + 2 * 3` = `1 + (2 * 3)`
 * and `1 - 2 - 3` = `(1 - 2) - 3`.
 */
module Precedence {
  import opened Wrappers
  import opened Tokens
  import opened Ast
  import opened Cursor
  import opened Shapes
  import opened ExprParser
  import opened ExprYield

  /** An infix operator: one of the six tiers. */
  predicate Infix(kind: TokenKind)
  {
    OpTier(kind) > 0
  }

  /** An infix node whose operator has kind `k` and whose operands are literals. */
  predicate Simple(e: Expr, k: TokenKind)
  {
    match e
    case Binary(left, op, right) => op.kind == k && left.Literal? && right.Literal?
    case Logical(left, op, right) => op.kind == k && left.Literal? && right.Literal?
    case _ => false
  }

  /** `(n k1 n) k2 n`: the first operator grouped below the second. */
  predicate LeftGrouped(e: Expr, k1: TokenKind, k2: TokenKind)
  {
    match e
    case Binary(left, op, right) => op.kind == k2 && Simple(left, k1) && right.Literal?
    case Logical(left, op, right) => op.kind == k2 && Simple(left, k1) && right.Literal?
    case _ => false
  }

  /** `n k1 (n k2 n)`: the second operator grouped below the first. */
  predicate RightGrouped(e: Expr, k1: TokenKind, k2: TokenKind)
  {
    match e
    case Binary(left, op, right) => op.kind == k1 && left.Literal? && Simple(right, k2)
    case Logical(left, op, right) => op.kind == k1 && left.Literal? && Simple(right, k2)
    case _ => false
  }

  /** Every node spells at least one token. */
  lemma NonEmpty(e: Expr)
    ensures |Yield(e)| >= 1
  {
  }

  /** `a + [k] + b` read back at the length of `a`. */
  lemma Split(a: seq<TokenKind>, k: TokenKind, b: seq<TokenKind>, s: seq<TokenKind>)
    requires a + [k] + b == s
    ensures a == s[..|a|] && k == s[|a|] && b == s[|a| + 1..]
  {
    assert (a + [k] + b)[..|a|] == a;
    assert (a + [k] + b)[|a| + 1..] == b;
  }

  /** A well-nested tree spelling one number is that literal. */
  lemma Atom(e: Expr)
    requires WellNested(e) && Yield(e) == [Number]
    ensures e.Literal?
  {
    match e
    case Binary(l, _, r) => NonEmpty(l); NonEmpty(r);
    case Logical(l, _, r) => NonEmpty(l); NonEmpty(r);
    case Call(c, _, _) => NonEmpty(c);
    case Unary(_, r) => NonEmpty(r);
    case Grouping(x) => NonEmpty(x);
    case Assign(_, v) => NonEmpty(v);
    case _ =>
  }

  /**
   * The first kind of what a well-nested non-infix node spells: a literal,
   * an identifier, `(` or a prefix operator, never a number followed by
   * more tokens. A node that spells more than one token and starts with
   * a number is infix.
   */
  lemma NumberFirst(e: Expr)
    requires WellNested(e) && |Yield(e)| > 1 && Yield(e)[0] == Number && Yield(e)[|Yield(e)| - 1] == Number
    ensures e.Binary? || e.Logical?
  {
  }

  /** A well-nested tree spelling `n k n` is one infix node over two literals. */
  lemma Three(e: Expr, k: TokenKind)
    requires WellNested(e) && Infix(k) && Yield(e) == [Number, k, Number]
    ensures Simple(e, k) && Rank(e) == OpTier(k)
  {
    NumberFirst(e);
    var s := [Number, k, Number];
    NonEmpty(e.left);
    NonEmpty(e.right);
    Split(Yield(e.left), e.op.kind, Yield(e.right), s);
    assert |Yield(e.left)| == 1;
    Atom(e.left);
    Atom(e.right);
  }

  /**
   * A well-nested tree spelling `n k1 n k2 n`: if `k1` binds at least as
   * tightly as `k2`, the tree is `(n k1 n) k2 n`; otherwise it is
   * `n k1 (n k2 n)`.
   */
  lemma Five(e: Expr, k1: TokenKind, k2: TokenKind)
    requires WellNested(e) && Infix(k1) && Infix(k2)
    requires Yield(e) == [Number, k1, Number, k2, Number]
    ensures if OpTier(k1) >= OpTier(k2) then LeftGrouped(e, k1, k2) else RightGrouped(e, k1, k2)
  {
    NumberFirst(e);
    FiveInfix(e.left, e.op.kind, e.right, k1, k2);
  }

  /**
   * The infix node at the top of such a tree: its operator is `k2` over
   * `n k1 n` when `k1` binds at least as tightly, and `k1` over `n k2 n`
   * otherwise.
   */
  lemma {:induction false} FiveInfix(l: Expr, k: TokenKind, r: Expr, k1: TokenKind, k2: TokenKind)
    requires WellNested(l) && WellNested(r) && Rank(l) >= OpTier(k) && Rank(r) > OpTier(k)
    requires Infix(k) && Infix(k1) && Infix(k2)
    requires Yield(l) + [k] + Yield(r) == [Number, k1, Number, k2, Number]
    ensures OpTier(k1) >= OpTier(k2) ==> k == k2 && Simple(l, k1) && r.Literal?
    ensures OpTier(k1) < OpTier(k2) ==> k == k1 && l.Literal? && Simple(r, k2)
  {
    Cut(l, k, r, k1, k2);
    if |Yield(l)| == 1 {
      ShortLeft(l, k, r, k1, k2);
    } else {
      LongLeft(l, k, r, k1, k2);
    }
  }

  /** The top operator of `n k1 n k2 n` is one of the two operators: the left operand spells one or three kinds. */
  lemma Cut(l: Expr, k: TokenKind, r: Expr, k1: TokenKind, k2: TokenKind)
    requires Infix(k) && Yield(l) + [k] + Yield(r) == [Number, k1, Number, k2, Number]
    ensures |Yield(l)| == 1 || |Yield(l)| == 3
  {
    var s := [Number, k1, Number, k2, Number];
    NonEmpty(l);
    NonEmpty(r);
    Split(Yield(l), k, Yield(r), s);
    var n := |Yield(l)|;
    assert s[2] == Number && OpTier(s[n]) > 0;
  }

  /** `n k1 (n k2 n)`: the left operand is one number. */
  lemma ShortLeft(l: Expr, k: TokenKind, r: Expr, k1: TokenKind, k2: TokenKind)
    requires WellNested(l) && WellNested(r) && Rank(r) > OpTier(k) && Infix(k2)
    requires Yield(l) + [k] + Yield(r) == [Number, k1, Number, k2, Number] && |Yield(l)| == 1
    ensures k == k1 && l.Literal? && Simple(r, k2) && OpTier(k1) < OpTier(k2)
  {
    var s := [Number, k1, Number, k2, Number];
    Split(Yield(l), k, Yield(r), s);
    assert s[2..] == [Number, k2, Number];
    Atom(l);
    Three(r, k2);
  }

  /** `(n k1 n) k2 n`: the left operand is three kinds. */
  lemma LongLeft(l: Expr, k: TokenKind, r: Expr, k1: TokenKind, k2: TokenKind)
    requires WellNested(l) && WellNested(r) && Rank(l) >= OpTier(k) && Infix(k1)
    requires Yield(l) + [k] + Yield(r) == [Number, k1, Number, k2, Number] && |Yield(l)| == 3
    ensures k == k2 && Simple(l, k1) && r.Literal? && OpTier(k1) >= OpTier(k2)
  {
    var s := [Number, k1, Number, k2, Number];
    Split(Yield(l), k, Yield(r), s);
    assert s[..3] == [Number, k1, Number];
    assert s[4..] == [Number];
    Three(l, k1);
    Atom(r);
  }

  /**
   * The parser groups `n k1 n k2 n` by precedence: whenever a parse of an
   * expression consumes five tokens of these kinds, the tree it returns is
   * grouped as `Five` says.
   */
  lemma ParsedGrouping(ts: seq<Token>, pos: nat, k1: TokenKind, k2: TokenKind)
    requires At(ts, pos) && Infix(k1) && Infix(k2)
    requires ParseExpression(ts, pos).POk?
    requires Span(ts, pos, ParseExpression(ts, pos).pos) == [Number, k1, Number, k2, Number]
    ensures var e := ParseExpression(ts, pos).value;
      if OpTier(k1) >= OpTier(k2) then LeftGrouped(e, k1, k2) else RightGrouped(e, k1, k2)
  {
    ExpressionYield(ts, pos);
    Five(ParseExpression(ts, pos).value, k1, k2);
  }
}
