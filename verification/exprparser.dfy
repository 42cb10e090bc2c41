/**
 * The expression grammar, one function per C++ method: assignment, the six
 * left-associative infix tiers, unary, call, finishCall and primary.
 *
 * Every function takes the cursor and returns where it stopped, on both
 * paths. All of them terminate on the pair (tokens left, rank): a function
 * calls one of lower rank at the same position, or any function after
 * consuming a token.
 */
module ExprParser {
  import opened Wrappers
  import opened Tokens
  import opened Errors
  import opened Ast
  import opened Cursor
  import opened Shapes

  /** The cursor never moves back, stays on the sequence, and a success consumed something. */
  ghost predicate Progress<T>(ts: seq<Token>, pos: nat, r: Parse<T>)
  {
    At(ts, r.pos) && pos <= r.pos && (r.POk? ==> pos < r.pos)
  }

  /** The errors the expression grammar raises. */
  predicate ExprErrorKind(kind: ErrorKind)
  {
    kind == UnexpectedToken || kind == InvalidAssignment || kind == TooManyArguments
  }

  /** `expression()`. */
  function ParseExpression(ts: seq<Token>, pos: nat): (r: Parse<Expr>)
    requires At(ts, pos)
    ensures Progress(ts, pos, r)
    ensures r.POk? ==> WellNested(r.value)
    ensures r.PErr? ==> ExprErrorKind(r.error.kind)
    decreases |ts| - pos, 20
  {
    ParseAssignment(ts, pos)
  }

  /**
   * `assignment()`: an `or`-tier expression, and if `=` follows, the
   * right-associative value. A variable target becomes Assign, a field
   * access Set; any other target fails with InvalidAssignment at the token
   * after the value.
   */
  function ParseAssignment(ts: seq<Token>, pos: nat): (r: Parse<Expr>)
    requires At(ts, pos)
    ensures Progress(ts, pos, r)
    ensures r.POk? ==> WellNested(r.value)
    ensures r.PErr? ==> ExprErrorKind(r.error.kind)
    decreases |ts| - pos, 19
  {
    match ParseTier(1, ts, pos)
    case PErr(e, p) => PErr(e, p)
    case POk(target, p) =>
      if Check(ts, p, Equal) then
        match ParseAssignment(ts, p + 1)
        case PErr(e, p2) => PErr(e, p2)
        case POk(value, p2) =>
          match AssignTarget(target, value)
          case Some(e) => POk(e, p2)
          case None => PErr(ParseError(InvalidAssignment, ts[p2], []), p2)
      else POk(target, p)
  }

  /**
   * The node an assignment to `target` builds: Assign for a variable, Set
   * with the same object and field name for a field access, none otherwise.
   */
  function AssignTarget(target: Expr, value: Expr): (r: Option<Expr>)
    ensures r.Some? <==> target.Variable? || target.Get?
    ensures target.Variable? ==> r == Some(Assign(target.name, value))
    ensures target.Get? ==> r == Some(Set(target.obj, target.name, value))
  {
    match target
    case Variable(name) => Some(Assign(name, value))
    case Get(obj, name) => Some(Set(obj, name, value))
    case _ => None
  }

  /**
   * One infix tier, `tier` 1 (`or`) to 6 (multiplicative): an operand of
   * the next tier, then any number of `operator operand` pairs, folded to
   * the left.
   */
  function ParseTier(tier: nat, ts: seq<Token>, pos: nat): (r: Parse<Expr>)
    requires 1 <= tier <= 6 && At(ts, pos)
    ensures Progress(ts, pos, r)
    ensures r.POk? ==> WellNested(r.value) && Rank(r.value) >= tier
    ensures r.PErr? ==> ExprErrorKind(r.error.kind)
    decreases |ts| - pos, 18 - tier
  {
    match (if tier < 6 then ParseTier(tier + 1, ts, pos) else ParseUnary(ts, pos))
    case PErr(e, p) => PErr(e, p)
    case POk(left, p) => TierTail(tier, left, ts, p)
  }

  /** The loop of a tier: `left` is the expression folded so far. */
  function TierTail(tier: nat, left: Expr, ts: seq<Token>, pos: nat): (r: Parse<Expr>)
    requires 1 <= tier <= 6 && At(ts, pos)
    requires WellNested(left) && Rank(left) >= tier
    ensures At(ts, r.pos) && pos <= r.pos
    ensures r.POk? ==> WellNested(r.value) && Rank(r.value) >= tier
    ensures r.PErr? ==> ExprErrorKind(r.error.kind)
    decreases |ts| - pos, 0
  {
    if !AtEnd(ts, pos) && OpTier(ts[pos].kind) == tier then
      var op := ts[pos];
      match (if tier < 6 then ParseTier(tier + 1, ts, pos + 1) else ParseUnary(ts, pos + 1))
      case PErr(e, p) => PErr(e, p)
      case POk(right, p) =>
        TierTail(tier, if tier <= 2 then Logical(left, op, right) else Binary(left, op, right), ts, p)
    else POk(left, pos)
  }

  /** `unary()`: `!` or `-` applied to a unary expression, or a call. */
  function ParseUnary(ts: seq<Token>, pos: nat): (r: Parse<Expr>)
    requires At(ts, pos)
    ensures Progress(ts, pos, r)
    ensures r.POk? ==> WellNested(r.value) && Rank(r.value) >= 7
    ensures r.PErr? ==> ExprErrorKind(r.error.kind)
    decreases |ts| - pos, 11
  {
    if !AtEnd(ts, pos) && IsUnaryOp(ts[pos].kind) then
      match ParseUnary(ts, pos + 1)
      case PErr(e, p) => PErr(e, p)
      case POk(right, p) => POk(Unary(ts[pos], right), p)
    else ParseCall(ts, pos)
  }

  /**
   * `call()`: a primary followed by any number of argument lists. A failed
   * argument list ends the call with its error (the C++ would go on to
   * dereference the failed result if another `(` followed).
   */
  function ParseCall(ts: seq<Token>, pos: nat): (r: Parse<Expr>)
    requires At(ts, pos)
    ensures Progress(ts, pos, r)
    ensures r.POk? ==> WellNested(r.value) && Rank(r.value) == 8
    ensures r.PErr? ==> ExprErrorKind(r.error.kind)
    decreases |ts| - pos, 10
  {
    match ParsePrimary(ts, pos)
    case PErr(e, p) => PErr(e, p)
    case POk(callee, p) => CallTail(callee, ts, p)
  }

  /** The loop of call: `callee` is the call chain built so far. */
  function CallTail(callee: Expr, ts: seq<Token>, pos: nat): (r: Parse<Expr>)
    requires At(ts, pos) && WellNested(callee) && Rank(callee) == 8
    ensures At(ts, r.pos) && pos <= r.pos
    ensures r.POk? ==> WellNested(r.value) && Rank(r.value) == 8
    ensures r.PErr? ==> ExprErrorKind(r.error.kind)
    decreases |ts| - pos, 0
  {
    if Check(ts, pos, LeftParen) then
      match FinishCall(callee, ts, pos + 1)
      case PErr(e, p) => PErr(e, p)
      case POk(call, p) => CallTail(call, ts, p)
    else POk(callee, pos)
  }

  /**
   * `finishCall(callee)`, entered after `(`: the arguments, if any, then
   * the closing parenthesis, which the Call node keeps.
   */
  function FinishCall(callee: Expr, ts: seq<Token>, pos: nat): (r: Parse<Expr>)
    requires At(ts, pos) && WellNested(callee) && Rank(callee) == 8
    ensures Progress(ts, pos, r)
    ensures r.POk? ==> WellNested(r.value) && r.value.Call? && r.value.callee == callee
    ensures r.PErr? ==> ExprErrorKind(r.error.kind)
    decreases |ts| - pos, 22
  {
    var args := if Check(ts, pos, RightParen) then POk([], pos) else Arguments(ts, pos, []);
    match args
    case PErr(e, p) => PErr(e, p)
    case POk(arguments, p) =>
      match Consume(ts, p, RightParen)
      case PErr(e, p2) => PErr(e, p2)
      case POk(paren, p2) => POk(Call(callee, paren, arguments), p2)
  }

  /**
   * The argument loop: `acc` holds the arguments parsed so far. Before the
   * 256th argument the call fails with TooManyArguments at that argument's
   * first token.
   */
  function Arguments(ts: seq<Token>, pos: nat, acc: seq<Expr>): (r: Parse<seq<Expr>>)
    requires At(ts, pos) && |acc| <= MaxArity && AllWellNested(acc)
    ensures Progress(ts, pos, r)
    ensures r.POk? ==> AllWellNested(r.value) && |acc| < |r.value| <= MaxArity && r.value[..|acc|] == acc
    ensures r.PErr? ==> ExprErrorKind(r.error.kind)
    decreases |ts| - pos, 21
  {
    if |acc| >= MaxArity then PErr(ParseError(TooManyArguments, ts[pos], []), pos)
    else
      match ParseExpression(ts, pos)
      case PErr(e, p) => PErr(e, p)
      case POk(arg, p) =>
        if Check(ts, p, Comma) then Arguments(ts, p + 1, acc + [arg])
        else POk(acc + [arg], p)
  }

  /**
   * `primary()`: a literal (`false`, `true`, a number or a string), a
   * variable, or a parenthesised expression. Anything else is
   * UnexpectedToken at the token in front of the cursor.
   */
  function ParsePrimary(ts: seq<Token>, pos: nat): (r: Parse<Expr>)
    requires At(ts, pos)
    ensures Progress(ts, pos, r)
    ensures r.POk? ==> WellNested(r.value) && Rank(r.value) == 8
    ensures r.PErr? ==> ExprErrorKind(r.error.kind)
    decreases |ts| - pos, 9
  {
    if !AtEnd(ts, pos) && IsLiteralKind(ts[pos].kind) then POk(Literal(ts[pos]), pos + 1)
    else if Check(ts, pos, Identifier) then POk(Variable(ts[pos]), pos + 1)
    else if Check(ts, pos, LeftParen) then
      match ParseExpression(ts, pos + 1)
      case PErr(e, p) => PErr(e, p)
      case POk(inner, p) =>
        match Consume(ts, p, RightParen)
        case PErr(e, p2) => PErr(e, p2)
        case POk(_, p2) => POk(Grouping(inner), p2)
    else PErr(PrimaryError(ts, pos), pos)
  }

  /** The diagnostic of primary when nothing fits. */
  function PrimaryError(ts: seq<Token>, pos: nat): ParseError
    requires pos < |ts|
  {
    ParseError(UnexpectedToken, ts[pos], ["primary expression"])
  }
}
