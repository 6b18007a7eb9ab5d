/** Writing a script down as tokens, and reading it back: what each form of statement and declaration looks like. */
module Writing {
  import opened Values
  import opened Syntax
  import opened Grammar
  import opened RoundTrip

  // ----- how a script is written -----

  function WriteStmt(s: Stmt): seq<Token>
    decreases s, 1
  {
    match s
    case Expression(e) => Render(e, PREC_ASSIGNMENT) + [Semicolon]
    case PrintStmt(e) => [Print] + (Render(e, PREC_ASSIGNMENT) + [Semicolon])
    case Block(ds) => [LeftBrace] + (WriteDecls(ds) + [RightBrace])
    case IfThen(c, t) => [If] + (Condition(c) + WriteStmt(t))
    case IfElse(c, t, f) => [If] + (Condition(c) + (WriteStmt(t) + ([Else] + WriteStmt(f))))
    case WhileLoop(c, b) => [While] + (Condition(c) + WriteStmt(b))
    case ContinueStmt => [Continue] + [Semicolon]
  }

  function Condition(c: Expr): seq<Token> {
    [LeftParen] + (Render(c, PREC_ASSIGNMENT) + [RightParen])
  }

  function WriteDecl(d: Decl): seq<Token>
    decreases d, 2
  {
    match d
    case Statement(s) => WriteStmt(s)
    case VarDecl(x, None) => [Var] + ([Identifier(x)] + [Semicolon])
    case VarDecl(x, Some(e)) => [Var] + ([Identifier(x)] + ([Equal] + (Render(e, PREC_ASSIGNMENT) + [Semicolon])))
  }

  function WriteDecls(ds: seq<Decl>): seq<Token>
    decreases ds, 0
  {
    if ds == [] then [] else WriteDecl(ds[0]) + WriteDecls(ds[1..])
  }

  /** An `else` behind the statement would belong to it. */
  predicate Open(s: Stmt) {
    match s
    case IfThen(_, _) => true
    case IfElse(_, _, f) => Open(f)
    case WhileLoop(_, b) => Open(b)
    case _ => false
  }

  /** The tree has a written form: its values have, and no first branch would take the `else` behind it. */
  predicate Writable(s: Stmt)
    decreases s, 1
  {
    match s
    case Expression(e) => RoundTrip.Writable(e)
    case PrintStmt(e) => RoundTrip.Writable(e)
    case Block(ds) => AllWritable(ds)
    case IfThen(c, t) => RoundTrip.Writable(c) && Writable(t)
    case IfElse(c, t, f) => RoundTrip.Writable(c) && Writable(t) && Writable(f) && !Open(t)
    case WhileLoop(c, b) => RoundTrip.Writable(c) && Writable(b)
    case ContinueStmt => true
  }

  predicate DeclWritable(d: Decl)
    decreases d, 2
  {
    match d
    case Statement(s) => Writable(s)
    case VarDecl(_, None) => true
    case VarDecl(_, Some(e)) => RoundTrip.Writable(e)
  }

  predicate AllWritable(ds: seq<Decl>)
    decreases ds, 0
  {
    ds == [] || (DeclWritable(ds[0]) && AllWritable(ds[1..]))
  }

  // ----- expressions in statements -----

  /** An expression with the token behind it. */
  lemma {:induction false} ReadThen(ts: seq<Token>, i: nat, e: Expr, t: Token)
    requires RoundTrip.Writable(e) && Standing(ts, i, Render(e, PREC_ASSIGNMENT) + [t])
    requires t == Semicolon || t == RightParen
    ensures ParseExprThen(ts, i, t) == Good(e, i + |Render(e, PREC_ASSIGNMENT)| + 1)
  {
    hide ParsePrec, ParseInfix, Render, Standing, RoundTrip.Writable;
    var n := |Render(e, PREC_ASSIGNMENT)|;
    StandingSplit(ts, i, Render(e, PREC_ASSIGNMENT), [t]);
    ReadToken(ts, i + n, t);
    NeverTaken(t, e);
    ReadRendered(ts, i, e, PREC_ASSIGNMENT, PREC_ASSIGNMENT);
    InfixStop(ts, i + n, PREC_ASSIGNMENT, e);
  }

  lemma NeverTaken(t: Token, e: Expr)
    requires t == Semicolon || t == RightParen
    ensures Closes(t, OpenTo(e)) && Closes(t, PREC_ASSIGNMENT)
  {
  }

  lemma {:induction false} ReadCondition(ts: seq<Token>, i: nat, c: Expr)
    requires RoundTrip.Writable(c) && Standing(ts, i, Condition(c))
    ensures ParseCondition(ts, i) == Good(c, i + |Condition(c)|)
  {
    hide ParsePrec, Render, Standing, RoundTrip.Writable, ParseExprThen;
    StandingHead(ts, i, LeftParen, Render(c, PREC_ASSIGNMENT) + [RightParen]);
    ReadThen(ts, i + 1, c, RightParen);
  }

  /** What can begin an expression. */
  lemma ExprBegins(ts: seq<Token>, i: nat, t: Token)
    requires t != Eof && ParseExprThen(ts, i, t).Good?
    ensures HasPrefix(At(ts, i))
  {
    hide ParseInfix;
    assert ParsePrec(ts, i, PREC_ASSIGNMENT).Good?;
    assert ParsePrefix(ts, i, PREC_ASSIGNMENT).Good?;
  }

  /** What cannot begin a declaration. */
  lemma DeclBegins(ts: seq<Token>, i: nat)
    requires ParseDecl(ts, i).Good?
    ensures At(ts, i) != RightBrace && At(ts, i) != Eof && At(ts, i) != Else
  {
    hide ParsePrec, ParseExprThen, ParseCondition, ParseDecls;
    if At(ts, i) in [RightBrace, Eof, Else] {
      assert ParseExprThen(ts, i, Semicolon).Good?;
      ExprBegins(ts, i, Semicolon);
    }
  }

  // ----- statements -----

  /** No `else` can be taken that is not the statement's own. */
  predicate Ends(ts: seq<Token>, i: nat, s: Stmt) {
    Open(s) ==> At(ts, i) != Else
  }

  lemma {:induction false} ReadStmt(ts: seq<Token>, i: nat, s: Stmt)
    requires Writable(s) && Standing(ts, i, WriteStmt(s)) && Ends(ts, i + |WriteStmt(s)|, s)
    ensures ParseStmt(ts, i) == Good(s, i + |WriteStmt(s)|)
    decreases s, 1
  {
    hide ParsePrec, ParseExprThen, ParseCondition, ParseDecls, Render, Standing, RoundTrip.Writable, WriteDecls,
      Condition, AllWritable, HasPrefix;
    match s
    case Expression(e) =>
      ReadThen(ts, i, e, Semicolon);
      PlainBegins(ts, i);
    case PrintStmt(e) =>
      StandingHead(ts, i, Print, Render(e, PREC_ASSIGNMENT) + [Semicolon]);
      ReadThen(ts, i + 1, e, Semicolon);
    case Block(ds) => ReadBlock(ts, i, ds);
    case IfThen(c, t) => ReadIf(ts, i, s, c, t);
    case IfElse(c, t, f) => ReadElse(ts, i, c, t, f);
    case WhileLoop(c, b) => ReadWhile(ts, i, c, b);
    case ContinueStmt =>
      StandingHead(ts, i, Continue, [Semicolon]);
      ReadToken(ts, i + 1, Semicolon);
  }

  /** A statement that begins as an expression is one. */
  lemma PlainBegins(ts: seq<Token>, i: nat)
    requires ParseExprThen(ts, i, Semicolon).Good?
    ensures var e := ParseExprThen(ts, i, Semicolon); ParseStmt(ts, i) == Good(Expression(e.value), e.pos)
  {
    ExprBegins(ts, i, Semicolon);
    hide ParseExprThen, ParsePrec, ParseCondition, ParseDecls;
  }

  lemma {:induction false} ReadBlock(ts: seq<Token>, i: nat, ds: seq<Decl>)
    requires AllWritable(ds) && Standing(ts, i, WriteStmt(Block(ds)))
    ensures ParseStmt(ts, i) == Good(Block(ds), i + |WriteStmt(Block(ds))|)
    decreases Block(ds), 0
  {
    hide ParseDecls, Standing, WriteDecls, AllWritable, ParseExprThen, ParseCondition;
    StandingHead(ts, i, LeftBrace, WriteDecls(ds) + [RightBrace]);
    StandingSplit(ts, i + 1, WriteDecls(ds), [RightBrace]);
    ReadToken(ts, i + 1 + |WriteDecls(ds)|, RightBrace);
    ReadDecls(ts, i + 1, ds, RightBrace, []);
    assert [] + ds == ds;
  }

  lemma {:induction false} ReadWhile(ts: seq<Token>, i: nat, c: Expr, b: Stmt)
    requires Writable(WhileLoop(c, b)) && Standing(ts, i, WriteStmt(WhileLoop(c, b)))
    requires Ends(ts, i + |WriteStmt(WhileLoop(c, b))|, b)
    ensures ParseStmt(ts, i) == Good(WhileLoop(c, b), i + |WriteStmt(WhileLoop(c, b))|)
    decreases WhileLoop(c, b), 0
  {
    hide ParseStmt, ParseCondition, Standing, RoundTrip.Writable, Condition, Open;
    StandingHead(ts, i, While, Condition(c) + WriteStmt(b));
    StandingSplit(ts, i + 1, Condition(c), WriteStmt(b));
    ReadCondition(ts, i + 1, c);
    var k := i + 1 + |Condition(c)|;
    ReadStmt(ts, k, b);
    WhileStep(ts, i, c, k, b, k + |WriteStmt(b)|);
  }

  lemma WhileStep(ts: seq<Token>, i: nat, c: Expr, k: nat, b: Stmt, j: nat)
    requires At(ts, i) == While && ParseCondition(ts, i + 1) == Good(c, k) && ParseStmt(ts, k) == Good(b, j)
    ensures ParseStmt(ts, i) == Good(WhileLoop(c, b), j)
  {
    hide ParseExprThen, ParseCondition, ParseDecls;
  }

  lemma IfStep(ts: seq<Token>, i: nat, c: Expr, k: nat, t: Stmt, j: nat)
    requires At(ts, i) == If && ParseCondition(ts, i + 1) == Good(c, k) && ParseStmt(ts, k) == Good(t, j)
    ensures j <= |ts|
    ensures ParseStmt(ts, i) ==
      if At(ts, j) != Else then Good(IfThen(c, t), j)
      else
        var f := ParseStmt(ts, j + 1);
        if f.Bad? then Bad else Good(IfElse(c, t, f.value), f.pos)
  {
    hide ParseExprThen, ParseCondition, ParseDecls;
  }

  lemma {:induction false} ReadIf(ts: seq<Token>, i: nat, s: Stmt, c: Expr, t: Stmt)
    requires s == IfThen(c, t) && Writable(s) && Standing(ts, i, WriteStmt(s)) && At(ts, i + |WriteStmt(s)|) != Else
    ensures ParseStmt(ts, i) == Good(s, i + |WriteStmt(s)|)
    decreases s, 0
  {
    hide ParseStmt, ParseCondition, Standing, RoundTrip.Writable, Condition;
    StandingHead(ts, i, If, Condition(c) + WriteStmt(t));
    StandingSplit(ts, i + 1, Condition(c), WriteStmt(t));
    ReadCondition(ts, i + 1, c);
    ReadStmt(ts, i + 1 + |Condition(c)|, t);
    IfStep(ts, i, c, i + 1 + |Condition(c)|, t, i + |WriteStmt(s)|);
  }

  lemma {:induction false} ReadElse(ts: seq<Token>, i: nat, c: Expr, t: Stmt, f: Stmt)
    requires Writable(IfElse(c, t, f)) && Standing(ts, i, WriteStmt(IfElse(c, t, f)))
    requires Ends(ts, i + |WriteStmt(IfElse(c, t, f))|, f)
    ensures ParseStmt(ts, i) == Good(IfElse(c, t, f), i + |WriteStmt(IfElse(c, t, f))|)
    decreases IfElse(c, t, f), 0
  {
    hide ParseStmt, ParseCondition, Standing, RoundTrip.Writable, Condition, Open;
    var rest := [Else] + WriteStmt(f);
    StandingHead(ts, i, If, Condition(c) + (WriteStmt(t) + rest));
    StandingSplit(ts, i + 1, Condition(c), WriteStmt(t) + rest);
    var k := i + 1 + |Condition(c)|;
    StandingSplit(ts, k, WriteStmt(t), rest);
    StandingHead(ts, k + |WriteStmt(t)|, Else, WriteStmt(f));
    ReadCondition(ts, i + 1, c);
    ReadStmt(ts, k, t);
    ReadStmt(ts, k + |WriteStmt(t)| + 1, f);
    IfStep(ts, i, c, k, t, k + |WriteStmt(t)|);
  }

  // ----- declarations -----

  predicate DeclEnds(ts: seq<Token>, i: nat, d: Decl) {
    d.Statement? ==> Ends(ts, i, d.s)
  }

  lemma {:induction false} ReadDecl(ts: seq<Token>, i: nat, d: Decl)
    requires DeclWritable(d) && Standing(ts, i, WriteDecl(d)) && DeclEnds(ts, i + |WriteDecl(d)|, d)
    ensures ParseDecl(ts, i) == Good(d, i + |WriteDecl(d)|)
    decreases d, 2
  {
    hide ParsePrec, ParseExprThen, ParseCondition, ParseDecls, Standing, RoundTrip.Writable, Condition, WriteStmt,
      Render;
    match d
    case Statement(s) =>
      ReadStmt(ts, i, s);
      NoVariable(ts, i);
    case VarDecl(x, None) =>
      StandingHead(ts, i, Var, [Identifier(x)] + [Semicolon]);
      StandingHead(ts, i + 1, Identifier(x), [Semicolon]);
      ReadToken(ts, i + 2, Semicolon);
    case VarDecl(x, Some(e)) =>
      var rest := Render(e, PREC_ASSIGNMENT) + [Semicolon];
      StandingHead(ts, i, Var, [Identifier(x)] + ([Equal] + rest));
      StandingHead(ts, i + 1, Identifier(x), [Equal] + rest);
      StandingHead(ts, i + 2, Equal, rest);
      ReadThen(ts, i + 3, e, Semicolon);
  }

  lemma NoVariable(ts: seq<Token>, i: nat)
    requires ParseStmt(ts, i).Good?
    ensures At(ts, i) != Var
  {
    hide ParsePrec, ParseExprThen, ParseCondition, ParseDecls;
    if At(ts, i) == Var { assert ParseExprThen(ts, i, Semicolon).Good?; ExprBegins(ts, i, Semicolon); }
  }

  lemma {:induction false} ReadDecls(ts: seq<Token>, i: nat, ds: seq<Decl>, close: Token, acc: seq<Decl>)
    requires AllWritable(ds) && Standing(ts, i, WriteDecls(ds)) && At(ts, i + |WriteDecls(ds)|) == close
    requires close == RightBrace || close == Eof
    ensures ParseDecls(ts, i, close, acc) == Good(acc + ds, i + |WriteDecls(ds)|)
    decreases ds, 0
  {
    hide ParseDecl, Standing, WriteDecl, DeclWritable;
    if ds == [] {
      assert acc + ds == acc;
    } else {
      var d, rest := ds[0], ds[1..];
      StandingSplit(ts, i, WriteDecl(d), WriteDecls(rest));
      var k := i + |WriteDecl(d)|;
      ReadDecls(ts, k, rest, close, acc + [d]);
      NoElse(ts, k, rest, close, acc + [d]);
      ReadDecl(ts, i, d);
      DeclBegins(ts, i);
      assert acc + [d] + rest == acc + ds;
    }
  }

  /** No declaration begins with `else`. */
  lemma NoElse(ts: seq<Token>, i: nat, ds: seq<Decl>, close: Token, acc: seq<Decl>)
    requires ParseDecls(ts, i, close, acc).Good? && (close == RightBrace || close == Eof)
    ensures At(ts, i) != Else
  {
    hide ParseDecl;
    if At(ts, i) == Else { DeclBegins(ts, i); }
  }

  /** Every script that has a written form is read back as it is. */
  lemma ScriptTrip(ds: seq<Decl>)
    requires AllWritable(ds)
    ensures ParseScript(WriteDecls(ds)) == Good(ds, |WriteDecls(ds)|)
  {
    hide WriteDecls, AllWritable;
    ReadDecls(WriteDecls(ds), 0, ds, Eof, []);
    assert [] + ds == ds;
  }
}
