/**
 * The expression parser keeps the input: read back left to right, the tree
 * it builds spells exactly the token kinds it consumed. With the nesting
 * invariant of the Shapes module this fixes how an operator sequence is
 * grouped: in `1 + 2 * 3` the only well-nested tree spelling the five
 * tokens puts `*` below `+`.
 */
module ExprYield {
  import opened Wrappers
  import opened Tokens
  import opened Ast
  import opened Cursor
  import opened Shapes
  import opened ExprParser

  /** The kinds of `ts[a..b]`, left to right. */
  function Span(ts: seq<Token>, a: nat, b: nat): seq<TokenKind>
    requires a <= b <= |ts|
    decreases b - a
  {
    if a == b then [] else [ts[a].kind] + Span(ts, a + 1, b)
  }

  /**
   * The token kinds an expression spells, left to right. A node that does
   * not keep one of its tokens (the `=` of an assignment, the `(` and `)`
   * of a grouping, the `(` and commas of a call) spells that token's kind.
   */
  function Yield(e: Expr): seq<TokenKind>
  {
    match e
    case Assign(name, value) => [name.kind, Equal] + Yield(value)
    case Binary(left, op, right) => Yield(left) + [op.kind] + Yield(right)
    case Call(callee, paren, arguments) => Yield(callee) + [LeftParen] + ArgsYield(arguments) + [paren.kind]
    case Get(obj, name) => Yield(obj) + [Dot, name.kind]
    case Grouping(inner) => [LeftParen] + Yield(inner) + [RightParen]
    case Literal(token) => [token.kind]
    case Logical(left, op, right) => Yield(left) + [op.kind] + Yield(right)
    case Set(obj, name, value) => Yield(obj) + [Dot, name.kind, Equal] + Yield(value)
    case This(keyword) => [keyword.kind]
    case Unary(op, right) => [op.kind] + Yield(right)
    case Variable(name) => [name.kind]
  }

  /**
   * A parse from `start` that succeeded spells the tokens it consumed:
   * the expression's yield is the kinds of `ts[start..r.pos]`.
   */
  ghost predicate Spells(ts: seq<Token>, start: nat, r: Parse<Expr>)
  {
    r.POk? ==> Prefix(ts, start, r.pos, Yield(r.value))
  }

  /** The tokens from `start` to `pos` have the kinds `ks`. */
  ghost predicate Prefix(ts: seq<Token>, start: nat, pos: nat, ks: seq<TokenKind>)
  {
    start <= pos <= |ts| && Span(ts, start, pos) == ks
  }

  /**
   * The arguments a list parse from `pos` added after the `acc` it was
   * given spell the tokens it consumed, comma separated.
   */
  ghost predicate ArgsSpell(ts: seq<Token>, pos: nat, acc: seq<Expr>, r: Parse<seq<Expr>>)
  {
    r.POk? ==> |acc| <= |r.value| && Prefix(ts, pos, r.pos, ArgsYield(r.value[|acc|..]))
  }

  /** An argument list, comma separated. */
  function ArgsYield(args: seq<Expr>): seq<TokenKind>
  {
    if |args| == 0 then []
    else if |args| == 1 then Yield(args[0])
    else Yield(args[0]) + [Comma] + ArgsYield(args[1..])
  }

  /** A span splits at any point between its ends. */
  lemma {:induction false} Join(ts: seq<Token>, a: nat, b: nat, c: nat)
    requires a <= b <= c <= |ts|
    ensures Span(ts, a, c) == Span(ts, a, b) + Span(ts, b, c)
    decreases b - a
  {
    if a < b {
      Join(ts, a + 1, b, c);
      assert Span(ts, a, c) == [ts[a].kind] + (Span(ts, a + 1, b) + Span(ts, b, c));
      assert Span(ts, a, b) == [ts[a].kind] + Span(ts, a + 1, b);
    }
  }

  /** A span is its first token's kind followed by the rest. */
  lemma JoinFront(ts: seq<Token>, a: nat, c: nat)
    requires a < c <= |ts|
    ensures Span(ts, a, c) == [ts[a].kind] + Span(ts, a + 1, c)
  {
  }

  /** A span of one token is its kind. */
  lemma One(ts: seq<Token>, a: nat)
    requires a < |ts|
    ensures Span(ts, a, a + 1) == [ts[a].kind]
  {
    assert Span(ts, a, a + 1) == [ts[a].kind] + [];
  }

  /** A span is the kinds before its last token followed by that token's kind. */
  lemma JoinBack(ts: seq<Token>, a: nat, c: nat)
    requires a <= c < |ts|
    ensures Span(ts, a, c + 1) == Span(ts, a, c) + [ts[c].kind]
  {
    Join(ts, a, c, c + 1);
    One(ts, c);
  }

  /** A span is its first token's kind, the kinds between, and its last token's kind. */
  lemma Wrap(ts: seq<Token>, a: nat, b: nat)
    requires a < b < |ts|
    ensures Span(ts, a, b + 1) == [ts[a].kind] + Span(ts, a + 1, b) + [ts[b].kind]
  {
    JoinBack(ts, a, b);
    JoinFront(ts, a, b);
  }

  /** Two spans around one token. */
  lemma Join3(ts: seq<Token>, a: nat, b: nat, c: nat)
    requires a <= b < c <= |ts|
    ensures Span(ts, a, c) == Span(ts, a, b) + [ts[b].kind] + Span(ts, b + 1, c)
  {
    Join(ts, a, b, c);
    JoinFront(ts, b, c);
  }

  lemma {:induction false} ExpressionYield(ts: seq<Token>, pos: nat)
    requires At(ts, pos)
    ensures Spells(ts, pos, ParseExpression(ts, pos))
    decreases |ts| - pos, 20
  {
    AssignmentYield(ts, pos);
  }

  lemma {:induction false} AssignmentYield(ts: seq<Token>, pos: nat)
    requires At(ts, pos)
    ensures Spells(ts, pos, ParseAssignment(ts, pos))
    decreases |ts| - pos, 19
  {
    var t := ParseTier(1, ts, pos);
    TierYield(1, ts, pos);
    if t.POk? && Check(ts, t.pos, Equal) {
      NotLast(ts, t.pos);
      AssignmentYield(ts, t.pos + 1);
      AssignStep(ts, pos, t, ParseAssignment(ts, t.pos + 1));
    }
  }

  /**
   * A target read from `start`, `=` after it, and a value read from just
   * after the `=`, each spelling what it consumed.
   */
  ghost predicate AssignFrom(ts: seq<Token>, start: nat, t: Parse<Expr>, v: Parse<Expr>)
  {
    match t
    case PErr(_, _) => false
    case POk(_, p) => p < |ts| && ts[p].kind == Equal && Spells(ts, start, t) && Spells(ts, p + 1, v)
  }

  /**
   * `name = value` and `obj.name = value`: what assignment builds from
   * the target and the value spells the target, `=`, then the value.
   */
  lemma AssignStep(ts: seq<Token>, start: nat, t: Parse<Expr>, v: Parse<Expr>)
    requires AssignFrom(ts, start, t, v)
    ensures v.POk? ==> AssignTarget(t.value, v.value).Some? ==>
      Spells(ts, start, POk(AssignTarget(t.value, v.value).value, v.pos))
  {
    if v.POk? {
      Join3(ts, start, t.pos, v.pos);
      if t.value.Get? {
        var o, n := t.value.obj, t.value.name;
        assert Yield(o) + [Dot, n.kind] + [Equal] + Yield(v.value) == Yield(o) + [Dot, n.kind, Equal] + Yield(v.value);
      }
    }
  }

  lemma {:induction false} TierYield(tier: nat, ts: seq<Token>, pos: nat)
    requires 1 <= tier <= 6 && At(ts, pos)
    ensures Spells(ts, pos, ParseTier(tier, ts, pos))
    decreases |ts| - pos, 18 - tier
  {
    var l := Operand(tier, ts, pos);
    if tier < 6 {
      TierYield(tier + 1, ts, pos);
    } else {
      UnaryYield(ts, pos);
    }
    if l.POk? {
      assert TailFrom(tier, l.value, ts, pos, l.pos);
      TierTailYield(tier, l.value, ts, pos, l.pos);
    }
  }

  /** An operand of an infix tier: the next tier, or unary after the last one. */
  function Operand(tier: nat, ts: seq<Token>, pos: nat): (r: Parse<Expr>)
    requires 1 <= tier <= 6 && At(ts, pos)
    ensures Progress(ts, pos, r)
    ensures r.POk? ==> WellNested(r.value) && Rank(r.value) > tier
  {
    if tier < 6 then ParseTier(tier + 1, ts, pos) else ParseUnary(ts, pos)
  }

  lemma {:induction false} OperandYield(tier: nat, ts: seq<Token>, pos: nat)
    requires 1 <= tier <= 6 && At(ts, pos)
    ensures Spells(ts, pos, Operand(tier, ts, pos))
    decreases |ts| - pos, 18 - tier
  {
    if tier < 6 {
      TierYield(tier + 1, ts, pos);
    } else {
      UnaryYield(ts, pos);
    }
  }

  lemma {:induction false} TierTailYield(tier: nat, left: Expr, ts: seq<Token>, start: nat, pos: nat)
    requires TailFrom(tier, left, ts, start, pos)
    ensures Spells(ts, start, TierTail(tier, left, ts, pos))
    decreases |ts| - pos, 2
  {
    if !AtEnd(ts, pos) && OpTier(ts[pos].kind) == tier {
      TailStep(tier, left, ts, start, pos);
      var r := Operand(tier, ts, pos + 1);
      if r.POk? {
        TierTailYield(tier, Node(tier, left, ts[pos], r.value), ts, start, r.pos);
      }
    }
  }

  /**
   * Where a tier's loop stands: `left` is what it has folded from `start`
   * to `pos`, well nested at this tier and spelling those tokens.
   */
  ghost predicate TailFrom(tier: nat, left: Expr, ts: seq<Token>, start: nat, pos: nat)
  {
    1 <= tier <= 6 && At(ts, pos) && WellNested(left) && Rank(left) >= tier && Spells(ts, start, POk(left, pos))
  }

  /**
   * One turn of the loop: with an operator of the tier in front, the loop
   * goes on from the node it builds, and the invariant holds there.
   */
  lemma {:induction false} TailStep(tier: nat, left: Expr, ts: seq<Token>, start: nat, pos: nat)
    requires TailFrom(tier, left, ts, start, pos) && !AtEnd(ts, pos) && OpTier(ts[pos].kind) == tier
    ensures At(ts, pos + 1)
    ensures
      var r := Operand(tier, ts, pos + 1);
      r.POk? ==>
        && TailFrom(tier, Node(tier, left, ts[pos], r.value), ts, start, r.pos)
        && TierTail(tier, left, ts, pos) == TierTail(tier, Node(tier, left, ts[pos], r.value), ts, r.pos)
    decreases |ts| - pos, 1
  {
    NotLast(ts, pos);
    var r := Operand(tier, ts, pos + 1);
    OperandYield(tier, ts, pos + 1);
    if r.POk? {
      Extend(tier, left, ts, start, pos, r);
      NodeNested(tier, left, ts[pos], r.value);
    }
  }

  /** The node is well nested at the tier: its operands bind as tightly as the tier demands. */
  lemma NodeNested(tier: nat, left: Expr, op: Token, right: Expr)
    requires 1 <= tier <= 6 && OpTier(op.kind) == tier
    requires WellNested(left) && Rank(left) >= tier && WellNested(right) && Rank(right) > tier
    ensures WellNested(Node(tier, left, op, right)) && Rank(Node(tier, left, op, right)) >= tier
  {
    if tier <= 2 {
      assert IsLogicalOp(op.kind);
    } else {
      assert IsBinaryOp(op.kind);
    }
  }

  /** The node an infix tier builds: Logical for `or` and `and`, Binary for the others. */
  function Node(tier: nat, left: Expr, op: Token, right: Expr): Expr
  {
    if tier <= 2 then Logical(left, op, right) else Binary(left, op, right)
  }

  /** One more operator and operand on the left operand: the node spells the span up to the operand's end. */
  lemma Extend(tier: nat, left: Expr, ts: seq<Token>, start: nat, pos: nat, r: Parse<Expr>)
    requires pos < |ts| && Spells(ts, start, POk(left, pos)) && r.POk? && Spells(ts, pos + 1, r)
    ensures Spells(ts, start, POk(Node(tier, left, ts[pos], r.value), r.pos))
  {
    Join3(ts, start, pos, r.pos);
  }

  lemma {:induction false} UnaryYield(ts: seq<Token>, pos: nat)
    requires At(ts, pos)
    ensures Spells(ts, pos, ParseUnary(ts, pos))
    decreases |ts| - pos, 11
  {
    if !AtEnd(ts, pos) && IsUnaryOp(ts[pos].kind) {
      NotLast(ts, pos);
      var r := ParseUnary(ts, pos + 1);
      UnaryYield(ts, pos + 1);
      if r.POk? {
        JoinFront(ts, pos, r.pos);
      }
    } else {
      CallYield(ts, pos);
    }
  }

  lemma {:induction false} CallYield(ts: seq<Token>, pos: nat)
    requires At(ts, pos)
    ensures Spells(ts, pos, ParseCall(ts, pos))
    decreases |ts| - pos, 10
  {
    var p := ParsePrimary(ts, pos);
    PrimaryYield(ts, pos);
    if p.POk? {
      CallTailYield(p.value, ts, pos, p.pos);
    }
  }

  lemma {:induction false} CallTailYield(callee: Expr, ts: seq<Token>, start: nat, pos: nat)
    requires At(ts, pos) && WellNested(callee) && Rank(callee) == 8
    requires Spells(ts, start, POk(callee, pos))
    ensures Spells(ts, start, CallTail(callee, ts, pos))
    decreases |ts| - pos, 0
  {
    if Check(ts, pos, LeftParen) {
      NotLast(ts, pos);
      OpenParen(ts, start, pos, callee);
      FinishCallYield(callee, ts, start, pos + 1);
      var c := FinishCall(callee, ts, pos + 1);
      if c.POk? {
        CallTailYield(c.value, ts, start, c.pos);
      }
    }
  }

  /** The callee and the `(` after it. */
  lemma OpenParen(ts: seq<Token>, start: nat, pos: nat, callee: Expr)
    requires Spells(ts, start, POk(callee, pos)) && pos < |ts| && ts[pos].kind == LeftParen
    ensures Prefix(ts, start, pos + 1, Yield(callee) + [LeftParen])
  {
    JoinBack(ts, start, pos);
  }

  lemma {:induction false} FinishCallYield(callee: Expr, ts: seq<Token>, start: nat, pos: nat)
    requires At(ts, pos) && WellNested(callee) && Rank(callee) == 8
    requires Prefix(ts, start, pos, Yield(callee) + [LeftParen])
    ensures Spells(ts, start, FinishCall(callee, ts, pos))
    decreases |ts| - pos, 24
  {
    if Check(ts, pos, RightParen) {
      CloseCall(callee, ts, start, pos, POk([], pos));
    } else {
      ArgsCallYield(callee, ts, start, pos);
    }
  }

  /** A call with arguments: the list, then `)`. */
  lemma {:induction false} ArgsCallYield(callee: Expr, ts: seq<Token>, start: nat, pos: nat)
    requires At(ts, pos) && WellNested(callee) && Rank(callee) == 8 && !Check(ts, pos, RightParen)
    requires Prefix(ts, start, pos, Yield(callee) + [LeftParen])
    ensures Spells(ts, start, FinishCall(callee, ts, pos))
    decreases |ts| - pos, 23
  {
    var args := Arguments(ts, pos, []);
    ArgumentsYield(ts, pos, []);
    if args.POk? && Check(ts, args.pos, RightParen) {
      CloseCall(callee, ts, start, pos, args);
    }
  }

  /**
   * `callee(args)`: the callee and `(` up to `pos`, the arguments from
   * there, then `)`.
   */
  lemma CloseCall(callee: Expr, ts: seq<Token>, start: nat, pos: nat, args: Parse<seq<Expr>>)
    requires Prefix(ts, start, pos, Yield(callee) + [LeftParen]) && ArgsSpell(ts, pos, [], args)
    requires args.POk? && args.pos < |ts| && ts[args.pos].kind == RightParen
    ensures Spells(ts, start, POk(Call(callee, ts[args.pos], args.value), args.pos + 1))
  {
    assert args.value[0..] == args.value;
    Join(ts, start, pos, args.pos);
    JoinBack(ts, start, args.pos);
  }

  /** The arguments the loop reads from `pos` spell the tokens up to where it stops. */
  lemma {:induction false} ArgumentsYield(ts: seq<Token>, pos: nat, acc: seq<Expr>)
    requires At(ts, pos) && |acc| <= MaxArity && AllWellNested(acc)
    ensures ArgsSpell(ts, pos, acc, Arguments(ts, pos, acc))
    decreases |ts| - pos, 22
  {
    if |acc| < MaxArity {
      var a := ParseExpression(ts, pos);
      ExpressionYield(ts, pos);
      if a.POk? {
        if Check(ts, a.pos, Comma) {
          NotLast(ts, a.pos);
          ArgsNested(acc, a.value);
          ArgumentsYield(ts, a.pos + 1, acc + [a.value]);
          ArgsFront(ts, pos, acc, a, Arguments(ts, a.pos + 1, acc + [a.value]));
        } else {
          ArgsLast(ts, pos, acc, a);
        }
      }
    }
  }

  /** The last argument: the list read from `pos` is that argument alone. */
  lemma ArgsLast(ts: seq<Token>, pos: nat, acc: seq<Expr>, a: Parse<Expr>)
    requires a.POk? && Spells(ts, pos, a)
    ensures ArgsSpell(ts, pos, acc, POk(acc + [a.value], a.pos))
  {
    assert (acc + [a.value])[|acc|..] == [a.value];
  }

  /**
   * An argument, a comma, and the rest of the list after it: the list read
   * from `pos` is the argument, the comma and the rest.
   */
  lemma ArgsFront(ts: seq<Token>, pos: nat, acc: seq<Expr>, a: Parse<Expr>, rest: Parse<seq<Expr>>)
    requires a.POk? && Spells(ts, pos, a) && a.pos < |ts| && ts[a.pos].kind == Comma
    requires ArgsSpell(ts, a.pos + 1, acc + [a.value], rest)
    requires rest.POk? ==> |acc| + 1 < |rest.value| && rest.value[..|acc| + 1] == acc + [a.value]
    ensures ArgsSpell(ts, pos, acc, rest)
  {
    if rest.POk? {
      var later := rest.value[|acc|..];
      assert later[0] == a.value;
      assert later[1..] == rest.value[|acc| + 1..];
      Join3(ts, pos, a.pos, rest.pos);
    }
  }

  lemma ArgsNested(acc: seq<Expr>, a: Expr)
    requires AllWellNested(acc) && WellNested(a)
    ensures AllWellNested(acc + [a])
  {
    assert forall i :: 0 <= i < |acc| ==> (acc + [a])[i] == acc[i];
  }

  lemma {:induction false} PrimaryYield(ts: seq<Token>, pos: nat)
    requires At(ts, pos)
    ensures Spells(ts, pos, ParsePrimary(ts, pos))
    decreases |ts| - pos, 9
  {
    if Check(ts, pos, LeftParen) {
      NotLast(ts, pos);
      ExpressionYield(ts, pos + 1);
      GroupingYield(ts, pos);
    } else if !AtEnd(ts, pos) {
      One(ts, pos);
    }
  }

  /** `( inner )` spells `(`, the inner expression, then `)`. */
  lemma Parenthesised(ts: seq<Token>, pos: nat, inner: Parse<Expr>)
    requires pos < |ts| && ts[pos].kind == LeftParen && Spells(ts, pos + 1, inner)
    requires inner.POk? && inner.pos < |ts| && ts[inner.pos].kind == RightParen
    ensures Spells(ts, pos, POk(Grouping(inner.value), inner.pos + 1))
  {
    Wrap(ts, pos, inner.pos);
  }

  lemma GroupingYield(ts: seq<Token>, pos: nat)
    requires At(ts, pos) && Check(ts, pos, LeftParen) && At(ts, pos + 1)
    requires Spells(ts, pos + 1, ParseExpression(ts, pos + 1))
    ensures Spells(ts, pos, ParsePrimary(ts, pos))
  {
    var inner := ParseExpression(ts, pos + 1);
    if inner.POk? && Check(ts, inner.pos, RightParen) {
      Parenthesised(ts, pos, inner);
      assert ParsePrimary(ts, pos) == POk(Grouping(inner.value), inner.pos + 1);
    }
  }
}
