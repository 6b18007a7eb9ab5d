/** The grammar the recursive-descent and Pratt parsers accept, as functions from tokens to trees,
    and the rendering of expressions it inverts.  A token list is what the scanner returns before
    the end of the source; beyond it there is only `Eof`. */
module Grammar {
  import opened Values
  import opened Syntax

  const PREC_NONE := 0
  const PREC_ASSIGNMENT := 1
  const PREC_OR := 2
  const PREC_AND := 3
  const PREC_EQUALITY := 4
  const PREC_COMPARISON := 5
  const PREC_TERM := 6
  const PREC_FACTOR := 7
  const PREC_UNARY := 8
  const PREC_CALL := 9
  const PREC_PRIMARY := 10

  datatype Parsed<+T> = Bad | Good(value: T, pos: nat)

  function At(ts: seq<Token>, i: nat): Token {
    if i < |ts| then ts[i] else Eof
  }

  function OperatorPrec(op: BinOp): (r: nat)
    ensures PREC_EQUALITY <= r <= PREC_FACTOR
  {
    match op
    case Eq => PREC_EQUALITY
    case Ne => PREC_EQUALITY
    case Lt => PREC_COMPARISON
    case Gt => PREC_COMPARISON
    case Le => PREC_COMPARISON
    case Ge => PREC_COMPARISON
    case Arithmetic(f) => if f == Times || f == Divide || f == Modulo then PREC_FACTOR else PREC_TERM
  }

  /** The precedence column of the rule table. */
  function RulePrec(t: Token): nat {
    match t
    case Operator(op) => OperatorPrec(op)
    case And => PREC_AND
    case Or => PREC_OR
    case LeftParen => PREC_CALL
    case _ => PREC_NONE
  }

  /** The tokens with an entry in the prefix column of the rule table. */
  predicate HasPrefix(t: Token) {
    match t
    case NumberLit(_) => true
    case StringLit(_) => true
    case True => true
    case False => true
    case Nil => true
    case Identifier(_) => true
    case LeftParen => true
    case Bang => true
    case Operator(op) => op == Arithmetic(Minus)
    case _ => false
  }

  function ParsePrec(ts: seq<Token>, i: nat, prec: nat): (r: Parsed<Expr>)
    ensures r.Good? ==> i < r.pos <= |ts|
    decreases |ts| - i, 2
  {
    var p := ParsePrefix(ts, i, prec);
    if p.Bad? then Bad else ParseInfix(ts, p.pos, prec, p.value)
  }

  function ParsePrefix(ts: seq<Token>, i: nat, prec: nat): (r: Parsed<Expr>)
    ensures r.Good? ==> i < r.pos <= |ts|
    decreases |ts| - i, 1
  {
    match At(ts, i)
    case NumberLit(n) => Good(Literal(Number(Ranked(n))), i + 1)
    case StringLit(s) => Good(Literal(Str(s)), i + 1)
    case True => Good(Literal(Bool(true)), i + 1)
    case False => Good(Literal(Bool(false)), i + 1)
    case Nil => Good(Literal(Value.Nil), i + 1)
    case Identifier(x) =>
      if prec <= PREC_ASSIGNMENT && At(ts, i + 1) == Equal then
        var r := ParsePrec(ts, i + 2, PREC_ASSIGNMENT);
        if r.Bad? then Bad else Good(Assign(x, r.value), r.pos)
      else Good(Variable(x), i + 1)
    case LeftParen =>
      var r := ParsePrec(ts, i + 1, PREC_ASSIGNMENT);
      if r.Bad? || At(ts, r.pos) != RightParen then Bad else Good(r.value, r.pos + 1)
    case Bang =>
      var r := ParsePrec(ts, i + 1, PREC_UNARY);
      if r.Bad? then Bad else Good(Unary(Not, r.value), r.pos)
    case Operator(op) =>
      if op != Arithmetic(Minus) then Bad else
        var r := ParsePrec(ts, i + 1, PREC_UNARY);
        if r.Bad? then Bad else Good(Unary(Neg, r.value), r.pos)
    case _ => Bad
  }

  /** The loop of the Pratt parser, with the tree built so far. */
  function ParseInfix(ts: seq<Token>, i: nat, prec: nat, left: Expr): (r: Parsed<Expr>)
    requires i <= |ts|
    ensures r.Good? ==> i <= r.pos <= |ts|
    decreases |ts| - i, 0
  {
    var t := At(ts, i);
    if RulePrec(t) == PREC_NONE || prec > RulePrec(t) then
      if prec <= PREC_ASSIGNMENT && t == Equal then Bad else Good(left, i)
    else if t == LeftParen then
      var a := ParseArgs(ts, i + 1);
      if a.Bad? then Bad else ParseInfix(ts, a.pos, prec, Call(left, a.value))
    else
      var r := ParsePrec(ts, i + 1, RightPrec(t));
      if r.Bad? then Bad else ParseInfix(ts, r.pos, prec, Combine(t, left, r.value))
  }

  /** The precedence a right operand is parsed with: one higher than the operator's, so that
      chains nest to the left, except for `and` and `or`, which nest to the right. */
  function RightPrec(t: Token): nat {
    match t
    case Operator(op) => OperatorPrec(op) + 1
    case And => PREC_AND
    case _ => PREC_OR
  }

  function Combine(t: Token, a: Expr, b: Expr): Expr {
    match t
    case Operator(op) => Binary(op, a, b)
    case And => Conj(a, b)
    case _ => Disj(a, b)
  }

  function ParseArgs(ts: seq<Token>, i: nat): (r: Parsed<seq<Expr>>)
    ensures r.Good? ==> i < r.pos <= |ts|
    decreases |ts| - i, 4
  {
    if At(ts, i) == RightParen then Good([], i + 1) else ParseArgList(ts, i, [])
  }

  function ParseArgList(ts: seq<Token>, i: nat, acc: seq<Expr>): (r: Parsed<seq<Expr>>)
    ensures r.Good? ==> i < r.pos <= |ts|
    decreases |ts| - i, 3
  {
    var e := ParsePrec(ts, i, PREC_ASSIGNMENT);
    if e.Bad? then Bad
    else if At(ts, e.pos) == Comma then ParseArgList(ts, e.pos + 1, acc + [e.value])
    else if At(ts, e.pos) == RightParen then Good(acc + [e.value], e.pos + 1)
    else Bad
  }

  function ParseExpr(ts: seq<Token>, i: nat): (r: Parsed<Expr>)
    ensures r.Good? ==> i < r.pos <= |ts|
  {
    ParsePrec(ts, i, PREC_ASSIGNMENT)
  }

  /** An expression and the token that has to follow it. */
  function ParseExprThen(ts: seq<Token>, i: nat, t: Token): (r: Parsed<Expr>)
    requires t != Eof
    ensures r.Good? ==> i + 1 < r.pos <= |ts|
  {
    var e := ParseExpr(ts, i);
    if e.Bad? || At(ts, e.pos) != t then Bad else Good(e.value, e.pos + 1)
  }

  function ParseCondition(ts: seq<Token>, i: nat): (r: Parsed<Expr>)
    ensures r.Good? ==> i < r.pos <= |ts|
  {
    if At(ts, i) != LeftParen then Bad else ParseExprThen(ts, i + 1, RightParen)
  }

  function ParseStmt(ts: seq<Token>, i: nat): (r: Parsed<Stmt>)
    ensures r.Good? ==> i < r.pos <= |ts|
    decreases |ts| - i, 0
  {
    match At(ts, i)
    case Print =>
      var e := ParseExprThen(ts, i + 1, Semicolon);
      if e.Bad? then Bad else Good(PrintStmt(e.value), e.pos)
    case If =>
      var c := ParseCondition(ts, i + 1);
      if c.Bad? then Bad else
        var t := ParseStmt(ts, c.pos);
        if t.Bad? then Bad
        else if At(ts, t.pos) != Else then Good(IfThen(c.value, t.value), t.pos)
        else
          var e := ParseStmt(ts, t.pos + 1);
          if e.Bad? then Bad else Good(IfElse(c.value, t.value, e.value), e.pos)
    case While =>
      var c := ParseCondition(ts, i + 1);
      if c.Bad? then Bad else
        var b := ParseStmt(ts, c.pos);
        if b.Bad? then Bad else Good(WhileLoop(c.value, b.value), b.pos)
    case Continue => if At(ts, i + 1) != Semicolon then Bad else Good(ContinueStmt, i + 2)
    case LeftBrace =>
      var b := ParseDecls(ts, i + 1, RightBrace, []);
      if b.Bad? then Bad else Good(Block(b.value), b.pos + 1)
    case _ =>
      var e := ParseExprThen(ts, i, Semicolon);
      if e.Bad? then Bad else Good(Expression(e.value), e.pos)
  }

  function ParseDecl(ts: seq<Token>, i: nat): (r: Parsed<Decl>)
    ensures r.Good? ==> i < r.pos <= |ts|
    decreases |ts| - i, 1
  {
    if At(ts, i) != Var then
      var s := ParseStmt(ts, i);
      if s.Bad? then Bad else Good(Statement(s.value), s.pos)
    else if !At(ts, i + 1).Identifier? then Bad
    else if At(ts, i + 2) == Equal then
      var e := ParseExprThen(ts, i + 3, Semicolon);
      if e.Bad? then Bad else Good(VarDecl(ts[i + 1].name, Some(e.value)), e.pos)
    else if At(ts, i + 2) == Semicolon then Good(VarDecl(ts[i + 1].name, None), i + 3)
    else Bad
  }

  /** Declarations up to the token that closes them, with those read so far. */
  function ParseDecls(ts: seq<Token>, i: nat, close: Token, acc: seq<Decl>): (r: Parsed<seq<Decl>>)
    ensures r.Good? ==> i <= r.pos && At(ts, r.pos) == close
    decreases |ts| - i, 2
  {
    if At(ts, i) == close then Good(acc, i)
    else if At(ts, i) == Eof then Bad
    else
      var d := ParseDecl(ts, i);
      if d.Bad? then Bad else ParseDecls(ts, d.pos, close, acc + [d.value])
  }

  function ParseScript(ts: seq<Token>): Parsed<seq<Decl>> {
    ParseDecls(ts, 0, Eof, [])
  }
}
