/** Tokens and syntax trees of the modelled fragment. */
module Syntax {
  import opened Values

  datatype Token =
    | LeftParen | RightParen | LeftBrace | RightBrace | Comma | Semicolon | Equal
    | Operator(op: BinOp)
    | Bang | And | Or
    | Identifier(name: Ident) | NumberLit(n: int) | StringLit(s: string)
    | True | False | Nil
    | Print | Var | If | Else | While | Continue
    | Eof

  datatype BinOp =
    | Arithmetic(f: NumOp)
    | Eq | Ne | Lt | Gt | Le | Ge

  datatype UnOp = Neg | Not

  datatype Expr =
    | Literal(v: Value)
    | Variable(name: Ident)
    | Assign(name: Ident, rhs: Expr)
    | Unary(uop: UnOp, operand: Expr)
    | Binary(op: BinOp, left: Expr, right: Expr)
    | Conj(left: Expr, right: Expr)
    | Disj(left: Expr, right: Expr)
    | Call(callee: Expr, args: seq<Expr>)

  datatype Stmt =
    | Expression(e: Expr)
    | PrintStmt(e: Expr)
    | Block(body: seq<Decl>)
    | IfThen(cond: Expr, thn: Stmt)
    | IfElse(cond: Expr, thn: Stmt, els: Stmt)
    | WhileLoop(cond: Expr, loopBody: Stmt)
    | ContinueStmt

  datatype Decl =
    | VarDecl(name: Ident, init: Option<Expr>)
    | Statement(s: Stmt)
}
