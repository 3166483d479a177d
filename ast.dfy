/**
 * Expression trees. The interpreter builds them as plain objects tagged by a
 * `name` field; each tag is one constructor here. The parser builds only
 * literal, grouping, unary and binary nodes; the evaluator also dispatches on
 * variable, assignment, logical and call nodes, and the printer on error nodes.
 */
module Ast {
  import opened Options
  import opened Values
  import opened Tokens

  datatype Expr =
    | Literal(value: Value)
    | Grouping(expression: Expr)
    | Unary(operator: Token, expression: Expr)
    | Binary(left: Expr, operator: Token, right: Expr)
    | Variable(name: string)
    | Assignment(target: Expr, rhs: Expr)
    | Logical(left: Expr, operator: Token, right: Expr)
    | Call(callee: Expr, paren: Token, arguments: seq<Expr>)
    | ErrorNode(message: Option<string>)
}
