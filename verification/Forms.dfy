/** What statements and declarations look like, as a relation between places in a token list and trees; the parser reads
    exactly this, and rejects everything else. */
module Forms {
  import opened Values
  import opened Syntax
  import opened Grammar
  import Ladder
  import Writing

  // ----- the forms -----

  /** An expression with the token behind it. */
  predicate Then(ts: seq<Token>, i: nat, e: Expr, t: Token, j: nat) {
    j > 0 && Ladder.Read(Ladder.Assignment, ts, i) == Good(e, j - 1) && At(ts, j - 1) == t
  }

  /** A condition in parentheses. */
  predicate Guard(ts: seq<Token>, i: nat, c: Expr, j: nat) {
    At(ts, i) == LeftParen && Then(ts, i + 1, c, RightParen, j)
  }

  /** The tokens from `i` up to `j` are the statement. */
  ghost predicate StmtForm(ts: seq<Token>, i: nat, s: Stmt, j: nat)
    decreases s, 1
  {
    match s
    case Expression(e) => Then(ts, i, e, Semicolon, j)
    case PrintStmt(e) => At(ts, i) == Print && Then(ts, i + 1, e, Semicolon, j)
    case Block(ds) => At(ts, i) == LeftBrace && j > 0 && DeclsForm(ts, i + 1, ds, j - 1) && At(ts, j - 1) == RightBrace
    case IfThen(c, t) =>
      At(ts, i) == If && At(ts, j) != Else && exists k :: Guard(ts, i + 1, c, k) && StmtForm(ts, k, t, j)
    case IfElse(c, t, f) =>
      && At(ts, i) == If
      && exists k: nat, l: nat ::
           Guard(ts, i + 1, c, k) && StmtForm(ts, k, t, l) && At(ts, l) == Else && StmtForm(ts, l + 1, f, j)
    case WhileLoop(c, b) => At(ts, i) == While && exists k :: Guard(ts, i + 1, c, k) && StmtForm(ts, k, b, j)
    case ContinueStmt => At(ts, i) == Continue && At(ts, i + 1) == Semicolon && j == i + 2
  }

  ghost predicate DeclForm(ts: seq<Token>, i: nat, d: Decl, j: nat)
    decreases d, 2
  {
    match d
    case Statement(s) => StmtForm(ts, i, s, j)
    case VarDecl(x, None) => NameForm(ts, i, x) && At(ts, i + 2) == Semicolon && j == i + 3
    case VarDecl(x, Some(e)) => NameForm(ts, i, x) && At(ts, i + 2) == Equal && Then(ts, i + 3, e, Semicolon, j)
  }

  predicate NameForm(ts: seq<Token>, i: nat, x: Ident) {
    At(ts, i) == Var && At(ts, i + 1) == Identifier(x)
  }

  ghost predicate DeclsForm(ts: seq<Token>, i: nat, ds: seq<Decl>, j: nat)
    decreases ds, 0
  {
    if ds == [] then i == j else exists k :: DeclForm(ts, i, ds[0], k) && DeclsForm(ts, k, ds[1..], j)
  }

  // ----- expressions -----

  lemma {:induction false} ThenReads(ts: seq<Token>, i: nat, t: Token)
    requires t != Eof
    ensures forall e, j :: ParseExprThen(ts, i, t) == Good(e, j) <==> Then(ts, i, e, t, j)
  {
    hide ParsePrec, Ladder.Read;
    Ladder.ReadsLevel(Ladder.Assignment, ts, i);
    assert Ladder.Precedence(Ladder.Assignment) == PREC_ASSIGNMENT;
  }

  lemma {:induction false} GuardReads(ts: seq<Token>, i: nat)
    ensures forall c, j :: ParseCondition(ts, i) == Good(c, j) <==> Guard(ts, i, c, j)
  {
    hide ParseExprThen, Then;
    ThenReads(ts, i + 1, RightParen);
  }

  /** An expression begins like one. */
  lemma {:induction false} ThenBegins(ts: seq<Token>, i: nat, e: Expr, t: Token, j: nat)
    requires t != Eof && Then(ts, i, e, t, j)
    ensures HasPrefix(At(ts, i)) && ParseExprThen(ts, i, t) == Good(e, j)
  {
    hide ParseExprThen, Then, HasPrefix;
    ThenReads(ts, i, t);
    Writing.ExprBegins(ts, i, t);
  }

  // ----- what is read has the form -----

  lemma {:induction false} ReadIsStmt(ts: seq<Token>, i: nat)
    requires ParseStmt(ts, i).Good?
    ensures var r := ParseStmt(ts, i); StmtForm(ts, i, r.value, r.pos)
    decreases |ts| - i, 0
  {
    hide ParseExprThen, ParseCondition, ParseDecls, Then, Guard, DeclsForm;
    match At(ts, i) {
      case Print => ThenReads(ts, i + 1, Semicolon);
      case If => ReadIsIf(ts, i);
      case While =>
        GuardReads(ts, i + 1);
        ReadIsStmt(ts, ParseCondition(ts, i + 1).pos);
      case Continue =>
      case LeftBrace =>
        ReadAreDecls(ts, i + 1, RightBrace, []);
      case _ => ThenReads(ts, i, Semicolon);
    }
  }

  lemma {:induction false} ReadIsIf(ts: seq<Token>, i: nat)
    requires ParseStmt(ts, i).Good? && At(ts, i) == If
    ensures var r := ParseStmt(ts, i); StmtForm(ts, i, r.value, r.pos)
    decreases |ts| - i, -1
  {
    hide ParseExprThen, ParseCondition, ParseDecls, Then, Guard, DeclsForm;
    GuardReads(ts, i + 1);
    var c := ParseCondition(ts, i + 1);
    ReadIsStmt(ts, c.pos);
    var t := ParseStmt(ts, c.pos);
    assert Guard(ts, i + 1, c.value, c.pos) && StmtForm(ts, c.pos, t.value, t.pos);
    if At(ts, t.pos) == Else { ReadIsStmt(ts, t.pos + 1); }
  }

  lemma {:induction false} ReadIsDecl(ts: seq<Token>, i: nat)
    requires ParseDecl(ts, i).Good?
    ensures var r := ParseDecl(ts, i); DeclForm(ts, i, r.value, r.pos)
    decreases |ts| - i, 1
  {
    hide ParseStmt, ParseExprThen, Then, StmtForm;
    if At(ts, i) != Var {
      ReadIsStmt(ts, i);
    } else {
      ThenReads(ts, i + 3, Semicolon);
    }
  }

  /** The declarations read from `i` on are those behind the ones read before. */
  lemma {:induction false} ReadAreDecls(ts: seq<Token>, i: nat, close: Token, acc: seq<Decl>)
    requires ParseDecls(ts, i, close, acc).Good?
    ensures var r := ParseDecls(ts, i, close, acc);
      acc <= r.value && DeclsForm(ts, i, r.value[|acc|..], r.pos) && At(ts, r.pos) == close
    decreases |ts| - i, 2
  {
    hide ParseDecl, DeclForm;
    if At(ts, i) != close {
      ReadIsDecl(ts, i);
      var d := ParseDecl(ts, i);
      ReadAreDecls(ts, d.pos, close, acc + [d.value]);
      var r := ParseDecls(ts, i, close, acc);
      assert r.value[|acc|..][1..] == r.value[|acc + [d.value]|..] && r.value[|acc|..][0] == d.value;
    }
  }

  // ----- what has the form is read -----

  lemma {:induction false} StmtIsRead(ts: seq<Token>, i: nat, s: Stmt, j: nat)
    requires StmtForm(ts, i, s, j)
    ensures ParseStmt(ts, i) == Good(s, j)
    decreases s, 1
  {
    hide ParseStmt, ParseExprThen, ParseCondition, ParseDecls, Then, Guard, DeclsForm, HasPrefix;
    match s
    case Expression(e) =>
      ThenBegins(ts, i, e, Semicolon, j);
      Writing.PlainBegins(ts, i);
    case PrintStmt(e) =>
      ThenBegins(ts, i + 1, e, Semicolon, j);
      PrintStep(ts, i);
    case Block(ds) =>
      DeclsAreRead(ts, i + 1, ds, j - 1, RightBrace, []);
      assert [] + ds == ds;
      BlockStep(ts, i);
    case IfThen(c, t) =>
      var k :| Guard(ts, i + 1, c, k) && StmtForm(ts, k, t, j);
      GuardReads(ts, i + 1);
      StmtIsRead(ts, k, t, j);
      Writing.IfStep(ts, i, c, k, t, j);
    case IfElse(c, t, f) =>
      var k: nat, l: nat :| Guard(ts, i + 1, c, k) && StmtForm(ts, k, t, l) && At(ts, l) == Else && StmtForm(ts, l + 1,
        f, j);
      GuardReads(ts, i + 1);
      StmtIsRead(ts, k, t, l);
      StmtIsRead(ts, l + 1, f, j);
      Writing.IfStep(ts, i, c, k, t, l);
    case WhileLoop(c, b) =>
      var k :| Guard(ts, i + 1, c, k) && StmtForm(ts, k, b, j);
      GuardReads(ts, i + 1);
      StmtIsRead(ts, k, b, j);
      Writing.WhileStep(ts, i, c, k, b, j);
    case ContinueStmt => ContinueStep(ts, i);
  }

  lemma PrintStep(ts: seq<Token>, i: nat)
    requires At(ts, i) == Print && ParseExprThen(ts, i + 1, Semicolon).Good?
    ensures var e := ParseExprThen(ts, i + 1, Semicolon); ParseStmt(ts, i) == Good(PrintStmt(e.value), e.pos)
  {
    hide ParseExprThen, ParseCondition, ParseDecls;
  }

  lemma BlockStep(ts: seq<Token>, i: nat)
    requires At(ts, i) == LeftBrace && ParseDecls(ts, i + 1, RightBrace, []).Good?
    ensures var b := ParseDecls(ts, i + 1, RightBrace, []); ParseStmt(ts, i) == Good(Block(b.value), b.pos + 1)
  {
    hide ParseExprThen, ParseCondition, ParseDecls;
  }

  lemma ContinueStep(ts: seq<Token>, i: nat)
    requires At(ts, i) == Continue && At(ts, i + 1) == Semicolon
    ensures ParseStmt(ts, i) == Good(ContinueStmt, i + 2)
  {
    hide ParseExprThen, ParseCondition, ParseDecls;
  }

  lemma {:induction false} DeclIsRead(ts: seq<Token>, i: nat, d: Decl, j: nat)
    requires DeclForm(ts, i, d, j)
    ensures ParseDecl(ts, i) == Good(d, j)
    decreases d, 2
  {
    hide ParseStmt, ParseExprThen, Then, StmtForm;
    match d
    case Statement(s) =>
      StmtIsRead(ts, i, s, j);
      Writing.NoVariable(ts, i);
    case VarDecl(x, None) =>
    case VarDecl(x, Some(e)) => ThenReads(ts, i + 3, Semicolon);
  }

  lemma {:induction false} DeclsAreRead(ts: seq<Token>, i: nat, ds: seq<Decl>, j: nat, close: Token, acc: seq<Decl>)
    requires DeclsForm(ts, i, ds, j) && At(ts, j) == close && (close == RightBrace || close == Eof)
    ensures ParseDecls(ts, i, close, acc) == Good(acc + ds, j)
    decreases ds, 0
  {
    hide ParseDecl, DeclForm;
    if ds == [] {
      assert acc + ds == acc;
    } else {
      var k :| DeclForm(ts, i, ds[0], k) && DeclsForm(ts, k, ds[1..], j);
      DeclIsRead(ts, i, ds[0], k);
      Writing.DeclBegins(ts, i);
      DeclsAreRead(ts, k, ds[1..], j, close, acc + [ds[0]]);
      assert acc + [ds[0]] + ds[1..] == acc + ds;
    }
  }

  // ----- scripts -----

  /** A token list parses exactly if it has the form of a script, up to its end; then the script is the one it has the
      form of, and it is the only one. */
  lemma {:induction false} ScriptForm(ts: seq<Token>, ds: seq<Decl>, j: nat)
    ensures ParseScript(ts) == Good(ds, j) <==> DeclsForm(ts, 0, ds, j) && At(ts, j) == Eof
  {
    hide ParseDecls, DeclsForm;
    if ParseScript(ts) == Good(ds, j) {
      ReadAreDecls(ts, 0, Eof, []);
      assert ds[0..] == ds;
    }
    if DeclsForm(ts, 0, ds, j) && At(ts, j) == Eof {
      DeclsAreRead(ts, 0, ds, j, Eof, []);
      assert [] + ds == ds;
    }
  }
}
