/**
 * The syntax trees. Each node class of the source has final fields set by its
 * constructor and getters that return them, so each becomes a datatype variant
 * whose destructors are the getters. A Java `null` child (the parser's
 * `primary()` returns `null` on an error, and a `var` declaration may have no
 * initializer) is `None`.
 */
module Ast {
  import opened Wrappers
  import opened Values
  import opened Tokens

  /** The seven expression kinds; an exhaustive `match` plays the role of `Expr.Visitor`. */
  datatype Expr =
    | Binary(left: Option<Expr>, operator: Token, right: Option<Expr>)
    | Ternary(cond: Option<Expr>, thenBranch: Option<Expr>, elseBranch: Option<Expr>)
    | Grouping(expression: Option<Expr>)
    | Literal(literal: Value)
    | Unary(operator: Token, right: Option<Expr>)
    | Variable(identifier: Token)
    | Assignment(identifier: Token, value: Option<Expr>)

  /**
   * The four statement kinds. `BlockStmt` keeps its own copy of the statement
   * list, which a sequence value is by construction.
   */
  datatype Stmt =
    | ExpressionStmt(expression: Option<Expr>)
    | PrintStmt(expression: Option<Expr>)
    | VarDeclareStmt(identifier: Token, initializer: Option<Expr>)
    | BlockStmt(opening: Token, closing: Token, stmts: seq<Stmt>)
}
