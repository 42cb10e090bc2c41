/**
 * The shapes the parser can build: operator precedence, which node kinds
 * appear, and the arity limits. These are stated once here and promised
 * by every parse function.
 */
module Shapes {
  import opened Wrappers
  import opened Tokens
  import opened Ast

  /**
   * The binding strength of an infix operator, from loosest to tightest:
   * `or`, `and`, equality, comparison, additive, multiplicative; 0 for a
   * kind that is no infix operator.
   */
  function OpTier(kind: TokenKind): nat
  {
    match kind
    case Or => 1
    case And => 2
    case BangEqual | EqualEqual => 3
    case Greater | GreaterEqual | Less | LessEqual => 4
    case Minus | Plus => 5
    case Slash | Star | Modulo => 6
    case _ => 0
  }

  /** The tiers below `and` build Binary nodes; `or` and `and` build Logical ones. */
  predicate IsLogicalOp(kind: TokenKind)
  {
    kind == Or || kind == And
  }

  predicate IsBinaryOp(kind: TokenKind)
  {
    OpTier(kind) >= 3
  }

  /** The prefix operators of unary. */
  predicate IsUnaryOp(kind: TokenKind)
  {
    kind == Bang || kind == Minus
  }

  /** Token kinds primary turns into a Literal. */
  predicate IsLiteralKind(kind: TokenKind)
  {
    kind == False || kind == True || kind == Number || kind == String
  }

  /**
   * How tightly an expression's top node binds: assignment 0, an infix node
   * its operator's tier, unary 7, and calls and primaries 8.
   */
  function Rank(e: Expr): nat
  {
    match e
    case Assign(_, _) => 0
    case Set(_, _, _) => 0
    case Logical(_, op, _) => OpTier(op.kind)
    case Binary(_, op, _) => OpTier(op.kind)
    case Unary(_, _) => 7
    case _ => 8
  }

  /** The most arguments a call and the most parameters a function may have. */
  const MaxArity := 255

  /**
   * An expression tree the parser can produce. Infix nodes respect
   * precedence and associate to the left: the left operand binds at least
   * as tightly as the operator, the right operand strictly more tightly.
   * `or`/`and` nodes are Logical, the other 11 operators Binary. Unary
   * applies to a unary or tighter operand; a callee is a call or a primary.
   * Get, Set and This never occur: no rule of the parser builds them.
   */
  ghost predicate WellNested(e: Expr)
  {
    match e
    case Assign(name, value) => name.kind == Identifier && WellNested(value)
    case Logical(left, op, right) =>
      && IsLogicalOp(op.kind) && Rank(left) >= OpTier(op.kind) && Rank(right) > OpTier(op.kind)
      && WellNested(left) && WellNested(right)
    case Binary(left, op, right) =>
      && IsBinaryOp(op.kind) && Rank(left) >= OpTier(op.kind) && Rank(right) > OpTier(op.kind)
      && WellNested(left) && WellNested(right)
    case Unary(op, right) => IsUnaryOp(op.kind) && Rank(right) >= 7 && WellNested(right)
    case Call(callee, paren, arguments) =>
      && Rank(callee) == 8 && paren.kind == RightParen && |arguments| <= MaxArity
      && WellNested(callee) && (forall i :: 0 <= i < |arguments| ==> WellNested(arguments[i]))
    case Grouping(inner) => WellNested(inner)
    case Literal(value) => IsLiteralKind(value.kind)
    case Variable(name) => name.kind == Identifier
    case Get(_, _) => false
    case Set(_, _, _) => false
    case This(_) => false
  }

  /** Every expression in the sequence is well nested. */
  ghost predicate AllWellNested(es: seq<Expr>)
  {
    forall i :: 0 <= i < |es| ==> WellNested(es[i])
  }

  /**
   * A statement the parser can produce: its expressions are well nested,
   * names and parameters are identifiers, a function has at most 255
   * parameters, and no Break or Return node is ever built.
   */
  ghost predicate Shaped(s: Stmt)
  {
    match s
    case BlockStmt(items) => forall i :: 0 <= i < |items| ==> StmtShaped(items[i])
    case ExpressionStmt(e) => WellNested(e)
    case PrintStmt(e) => WellNested(e)
    case VarStmt(name, init) => name.kind == Identifier && (init.Some? ==> WellNested(init.value))
    case IfStmt(c, thenBranch, elseBranch) => WellNested(c) && StmtShaped(thenBranch) && StmtShaped(elseBranch)
    case WhileStmt(c, body) => WellNested(c) && StmtShaped(body)
    case FunctionStmt(name, params, body) =>
      && name.kind == Identifier && |params| <= MaxArity
      && AllIdentifiers(params)
      && StmtShaped(body)
    case BreakStmt(_) => false
    case ReturnStmt(_, _) => false
  }

  /** A statement position: null (for, break, return) or a statement the parser can produce. */
  ghost predicate StmtShaped(s: Option<Stmt>)
  {
    s.Some? ==> Shaped(s.value)
  }

  /** Every token in the sequence is an identifier, as function parameters are. */
  predicate AllIdentifiers(ts: seq<Token>)
  {
    forall i :: 0 <= i < |ts| ==> ts[i].kind == Identifier
  }

  /** Every statement in the sequence has a shape the parser can produce. */
  ghost predicate AllStmtShaped(ss: seq<Option<Stmt>>)
  {
    forall i :: 0 <= i < |ss| ==> StmtShaped(ss[i])
  }
}
