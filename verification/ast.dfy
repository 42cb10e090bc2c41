/**
 * The syntax tree. Each C++ node owns its children through `unique_ptr`,
 * so a tree is finite and unshared: an inductive datatype. A statement
 * child or block item may be null in the C++ (for, break and return parse
 * to no node), so those positions hold an `Option<Stmt>`.
 */
module Ast {
  import opened Wrappers
  import opened Tokens

  /** The 11 expression shapes of the `Expr` variant. */
  datatype Expr =
    | Assign(name: Token, value: Expr)
    | Binary(left: Expr, op: Token, right: Expr)
    | Call(callee: Expr, paren: Token, arguments: seq<Expr>)
    | Get(obj: Expr, name: Token)  // `object` in the C++, a reserved word here
    | Grouping(expression: Expr)
    | Literal(token: Token)  // `value` in the C++, renamed: Assign and Set use `value` for an Expr
    | Logical(left: Expr, op: Token, right: Expr)
    | Set(obj: Expr, name: Token, value: Expr)
    | This(keyword: Token)
    | Unary(op: Token, right: Expr)
    | Variable(name: Token)

  /**
   * The 9 statement shapes of the `Stmt` variant. The constructor names
   * carry a `Stmt` suffix because `Print`, `If`, `While`, `Break` and
   * `Return` already name token kinds.
   */
  datatype Stmt =
    | BlockStmt(statements: seq<Option<Stmt>>)
    | BreakStmt(keyword: Token)
    | ExpressionStmt(expression: Expr)
    | FunctionStmt(name: Token, params: seq<Token>, body: Option<Stmt>)
    | IfStmt(condition: Expr, thenBranch: Option<Stmt>, elseBranch: Option<Stmt>)
    | PrintStmt(expression: Expr)
    | ReturnStmt(keyword: Token, value: Option<Expr>)
    | VarStmt(name: Token, initializer: Option<Expr>)
    | WhileStmt(condition: Expr, body: Option<Stmt>)
}
