/** Scripts without functions: with functions in view their code is that of `Codegen` and their chunk that of
    `Placing`, so everything about sound chunks holds of them, and the machine's runs stay on their instructions. */
module FunctionFree {
  import opened Values
  import opened Bytecode
  import opened Codegen
  import opened Machine
  import opened Functions
  import opened Instructions
  import Lexical
  import Pieces
  import Placing
  import Preservation
  import Regular
  import Scoping
  import SoundCode
  import Statements
  import Syntax

  // ----- trees, slots and constants seen as those of scripts with functions -----

  function EmbedStmt(s: Syntax.Stmt): Statement
    decreases s, 1
  {
    match s
    case Expression(e) => Do(e)
    case PrintStmt(e) => Print(e)
    case Block(ds) => Statement.Block(EmbedDecls(ds))
    case IfThen(e, t) => If(e, EmbedStmt(t), None)
    case IfElse(e, t, f) => If(e, EmbedStmt(t), Some(EmbedStmt(f)))
    case WhileLoop(e, b) => While(e, EmbedStmt(b))
    case ContinueStmt => Continue
  }

  function EmbedDecl(d: Syntax.Decl): Item
    decreases d, 2
  {
    match d
    case VarDecl(x, init) => Var(x, init)
    case Statement(s) => Stat(EmbedStmt(s))
  }

  function EmbedDecls(ds: seq<Syntax.Decl>): (r: seq<Item>)
    ensures |r| == |ds|
    decreases ds, 0
  {
    if ds == [] then [] else EmbedDecls(ds[..|ds| - 1]) + [EmbedDecl(ds[|ds| - 1])]
  }

  /** Slots that no function captures. */
  function Free(locals: seq<Codegen.Local>): (r: seq<Lexical.Local>)
    ensures |r| == |locals|
  {
    seq(|locals|, i requires 0 <= i < |locals| => Lexical.Local(locals[i].name, locals[i].level, false))
  }

  function Alone(locals: seq<Codegen.Local>): Chain {
    [Lexical.Level(Free(locals), [])]
  }

  function Plains(pool: seq<Value>): (r: seq<Constant>)
    ensures |r| == |pool|
  {
    seq(|pool|, i requires 0 <= i < |pool| => Plain(pool[i]))
  }

  function Lift(g: Code, locals: seq<Codegen.Local>): Made {
    if g.Fail? then Failed else Made(g.code, Plains(g.pool), Alone(locals))
  }

  function LiftDecl(g: DeclCode): Made {
    if g.DeclFail? then Failed else Made(g.code, Plains(g.pool), Alone(g.locals))
  }

  function SpotOf(c: Context): Spot {
    Spot(c.level, c.loop)
  }

  // ----- names and constants -----

  lemma {:induction false} NewestFree(locals: seq<Codegen.Local>, x: string)
    ensures Lexical.Newest(Free(locals), x) == Resolve(locals, x)
    decreases |locals|
  {
    if locals != [] {
      assert Free(locals)[..|locals| - 1] == Free(locals[..|locals| - 1]);
      NewestFree(locals[..|locals| - 1], x);
    }
  }

  lemma {:induction false} FirstPlain(pool: seq<Value>, v: Value, i: nat)
    requires i <= |pool|
    ensures FirstSame(Plains(pool), Plain(v), i) == IndexOf(pool, v, i)
    decreases |pool| - i
  {
    if i < |pool| { FirstPlain(pool, v, i + 1); }
  }

  lemma ConstantLift(op: byte, v: Value, pool: seq<Value>, locals: seq<Codegen.Local>)
    ensures Functions.WithConstant(op, Plain(v), Plains(pool), Alone(locals)) ==
      Lift(Codegen.WithConstant(op, v, pool), locals)
  {
    hide FirstSame, IndexOf;
    FirstPlain(pool, v, 0);
    assert Plains(pool + [v]) == Plains(pool) + [Plain(v)];
  }

  lemma AccessLift(ops: Ops, x: Ident, pool: seq<Value>, locals: seq<Codegen.Local>)
    ensures Functions.Access(ops, x, Plains(pool), Alone(locals)) ==
      Lift(Codegen.Access(ops.local, ops.global, x, locals, pool), locals)
  {
    hide Functions.WithConstant, Codegen.WithConstant, Lexical.Newest, Resolve;
    NewestFree(locals, x);
    ConstantLift(ops.global, Str(x), pool, locals);
  }

  // ----- expressions -----

  lemma {:induction false} ExprLift(e: Expr, pool: seq<Value>, locals: seq<Codegen.Local>)
    ensures MakeExpr(e, Plains(pool), Alone(locals)) == Lift(GenExpr(e, locals, pool), locals)
    decreases e, 1
  {
    hide Functions.WithConstant, Codegen.WithConstant, Functions.Access, Codegen.Access, Plains, Alone, BinaryCode,
      ShortCircuit, Short;
    match e
    case Literal(v) => ConstantLift(OP_CONSTANT, v, pool, locals);
    case Variable(x) => AccessLift(GET, x, pool, locals);
    case Assign(x, rhs) =>
      var a := Codegen.Access(OP_SET_LOCAL, OP_SET_GLOBAL, x, locals, pool);
      AccessLift(SET, x, pool, locals);
      if a.Emit? { ExprLift(rhs, a.pool, locals); }
    case Unary(_, a) => ExprLift(a, pool, locals);
    case Binary(_, a, b) =>
      ExprLift(a, pool, locals);
      var g := GenExpr(a, locals, pool);
      if g.Emit? { ExprLift(b, g.pool, locals); }
    case Conj(a, b) =>
      ExprLift(a, pool, locals);
      var g := GenExpr(a, locals, pool);
      if g.Emit? {
        ExprLift(b, g.pool, locals);
        ShortLift(OP_JUMP_IF_FALSE, g.code, GenExpr(b, locals, g.pool), locals);
      }
    case Disj(a, b) =>
      ExprLift(a, pool, locals);
      var g := GenExpr(a, locals, pool);
      if g.Emit? {
        ExprLift(b, g.pool, locals);
        ShortLift(OP_JUMP_IF_TRUE, g.code, GenExpr(b, locals, g.pool), locals);
      }
    case Call(f, args) =>
      ExprLift(f, pool, locals);
      var g := GenExpr(f, locals, pool);
      if g.Emit? { ArgsLift(args, g.pool, locals); }
  }

  lemma ShortLift(jump: byte, left: seq<byte>, right: Code, locals: seq<Codegen.Local>)
    ensures Short(jump, left, Lift(right, locals)) == Lift(ShortCircuit(jump, left, right), locals)
  {
  }

  lemma {:induction false} ArgsLift(args: seq<Expr>, pool: seq<Value>, locals: seq<Codegen.Local>)
    ensures MakeArgs(args, Plains(pool), Alone(locals)) == Lift(GenArgs(args, locals, pool), locals)
    decreases args, 0
  {
    hide MakeExpr, GenExpr, Plains, Alone;
    if args != [] {
      ArgsLift(args[..|args| - 1], pool, locals);
      var g := GenArgs(args[..|args| - 1], locals, pool);
      if g.Emit? { ExprLift(args[|args| - 1], g.pool, locals); }
    }
  }

  // ----- statements and declarations -----

  lemma {:induction false} DeeperFree(locals: seq<Codegen.Local>, level: int)
    ensures Deeper(Free(locals), level) == Above(locals, level)
    ensures EndLocals(Free(locals), level) == Pops(Above(locals, level))
    decreases |locals|
  {
    if locals != [] {
      assert Free(locals)[..|locals| - 1] == Free(locals[..|locals| - 1]);
      DeeperFree(locals[..|locals| - 1], level);
    }
  }

  lemma {:induction false} StmtLift(s: Syntax.Stmt, c: Context, pool: seq<Value>)
    requires Scoping.Settled(c.locals, c.level)
    ensures MakeStmt(EmbedStmt(s), SpotOf(c), Plains(pool), Alone(c.locals)) == Lift(GenStmt(s, c, pool), c.locals)
    decreases s, 1
  {
    hide GenExpr, MakeExpr, GenDecls, MakeItems, Plains, Scoping.Settled, IfCode, WhileCode, Pops, Above, Deeper, Free,
      EndScope;
    match s
    case Expression(e) => ExprLift(e, pool, c.locals);
    case PrintStmt(e) => ExprLift(e, pool, c.locals);
    case Block(ds) => BlockLift(ds, c, pool);
    case IfThen(e, t) => IfLift(e, t, None, c, pool);
    case IfElse(e, t, f) => IfLift(e, t, Some(f), c, pool);
    case WhileLoop(e, b) => WhileLift(e, b, c, pool);
    case ContinueStmt => if c.loop.InLoop? { DeeperFree(c.locals, c.loop.level); }
  }

  function Conditional(e: Expr, t: Syntax.Stmt, f: Option<Syntax.Stmt>): Syntax.Stmt {
    if f.None? then Syntax.IfThen(e, t) else Syntax.IfElse(e, t, f.value)
  }

  lemma {:induction false} IfLift(e: Expr, t: Syntax.Stmt, f: Option<Syntax.Stmt>, c: Context, pool: seq<Value>)
    requires Scoping.Settled(c.locals, c.level)
    ensures var s := Conditional(e, t, f);
      MakeStmt(EmbedStmt(s), SpotOf(c), Plains(pool), Alone(c.locals)) == Lift(GenStmt(s, c, pool), c.locals)
    decreases Conditional(e, t, f), 0
  {
    hide GenExpr, MakeExpr, GenStmt, MakeStmt, Plains, Alone, Scoping.Settled, IfCode, EmbedStmt;
    var s := Conditional(e, t, f);
    var t', f' := EmbedStmt(t), if f.None? then None else Some(EmbedStmt(f.value));
    EmbedsIf(e, t, f);
    IfMade(e, t', f', SpotOf(c), Plains(pool), Alone(c.locals));
    ExprLift(e, pool, c.locals);
    var g := GenExpr(e, c.locals, pool);
    if f.None? { IfThenShape(e, t, c, pool); } else { IfElseShape(e, t, f.value, c, pool); }
    if g.Emit? {
      StmtLift(t, c.Past(|g.code| + 4), g.pool);
      var h := GenStmt(t, c.Past(|g.code| + 4), g.pool);
      if h.Emit? && f.Some? { StmtLift(f.value, c.Past(|g.code| + 4 + |h.code| + 4), h.pool); }
    }
  }

  lemma EmbedsIf(e: Expr, t: Syntax.Stmt, f: Option<Syntax.Stmt>)
    ensures EmbedStmt(Conditional(e, t, f)) ==
      If(e, EmbedStmt(t), if f.None? then None else Some(EmbedStmt(f.value)))
  {
  }

  lemma {:induction false} WhileLift(e: Expr, b: Syntax.Stmt, c: Context, pool: seq<Value>)
    requires Scoping.Settled(c.locals, c.level)
    ensures var s := Syntax.WhileLoop(e, b);
      MakeStmt(EmbedStmt(s), SpotOf(c), Plains(pool), Alone(c.locals)) == Lift(GenStmt(s, c, pool), c.locals)
    decreases Syntax.WhileLoop(e, b), 0
  {
    hide GenExpr, MakeExpr, GenStmt, MakeStmt, Plains, Alone, Scoping.Settled, WhileCode;
    WhileMade(e, EmbedStmt(b), SpotOf(c), Plains(pool), Alone(c.locals));
    WhileShape(e, b, c, pool);
    ExprLift(e, pool, c.locals);
    var g := GenExpr(e, c.locals, pool);
    if g.Emit? {
      DeeperSettled(c.locals, c.level);
      StmtLift(b, LoopContext(c, |g.code|), g.pool);
    }
  }

  lemma DeeperSettled(locals: seq<Codegen.Local>, level: nat)
    requires Scoping.Settled(locals, level)
    ensures Scoping.Settled(locals, level + 1)
  {
  }

  lemma {:induction false} BlockLift(ds: seq<Syntax.Decl>, c: Context, pool: seq<Value>)
    requires Scoping.Settled(c.locals, c.level)
    ensures MakeStmt(EmbedStmt(Syntax.Block(ds)), SpotOf(c), Plains(pool), Alone(c.locals)) ==
      Lift(GenStmt(Syntax.Block(ds), c, pool), c.locals)
    decreases Syntax.Block(ds), 0
  {
    hide GenDecls, MakeItems, Plains, Scoping.Settled, Pops, Above, Deeper, EndLocals;
    var inner := c.(level := c.level + 1);
    DeeperSettled(c.locals, c.level);
    BlockShape(ds, c, pool);
    DeclsLift(ds, inner, pool);
    var g := GenDecls(ds, inner, pool);
    if g.DeclEmit? {
      DeeperFree(g.locals, c.level);
      Statements.DeclsSlots(ds, inner, pool);
      Statements.OuterExtends(g.locals, c.locals, c.level + 1, c.level);
      Scoping.OuterSelf(c.locals, c.level);
      FreeTake(g.locals, |g.locals| - Above(g.locals, c.level));
    }
  }

  lemma FreeTake(locals: seq<Codegen.Local>, n: nat)
    requires n <= |locals|
    ensures Free(locals)[..n] == Free(locals[..n])
  {
  }

  lemma {:induction false} DeclsLift(ds: seq<Syntax.Decl>, c: Context, pool: seq<Value>)
    requires Scoping.Settled(c.locals, c.level)
    ensures MakeItems(EmbedDecls(ds), SpotOf(c), Plains(pool), Alone(c.locals)) == LiftDecl(GenDecls(ds, c, pool))
    decreases ds, 0
  {
    hide GenDecl, MakeItem, Plains, Alone, Scoping.Settled;
    if ds != [] {
      var init, last := ds[..|ds| - 1], ds[|ds| - 1];
      assert EmbedDecls(ds)[..|ds| - 1] == EmbedDecls(init);
      DeclsLift(init, c, pool);
      var g := GenDecls(init, c, pool);
      if g.DeclEmit? {
        Statements.DeclsSlots(init, c, pool);
        SettledAfter(g.locals, c.locals, c.level);
        DeclLift(last, c.Past(|g.code|).(locals := g.locals), g.pool);
      }
    }
  }

  lemma SettledAfter(locals: seq<Codegen.Local>, before: seq<Codegen.Local>, level: nat)
    requires Statements.Extends(locals, before, level) && Scoping.Settled(before, level)
    ensures Scoping.Settled(locals, level)
  {
  }

  lemma {:induction false} DeclLift(d: Syntax.Decl, c: Context, pool: seq<Value>)
    requires Scoping.Settled(c.locals, c.level)
    ensures MakeItem(EmbedDecl(d), SpotOf(c), Plains(pool), Alone(c.locals)) == LiftDecl(GenDecl(d, c, pool))
    decreases d, 2
  {
    hide GenStmt, MakeStmt, GenExpr, MakeExpr, Plains, Scoping.Settled, Functions.WithConstant, Codegen.WithConstant;
    match d
    case Statement(s) => StmtLift(s, c, pool);
    case VarDecl(x, init) =>
      if c.level == 0 {
        ConstantLift(OP_DEFINE_GLOBAL, Str(x), pool, c.locals);
        var def := Codegen.WithConstant(OP_DEFINE_GLOBAL, Str(x), pool);
        if def.Emit? { InitLift(init, def.pool, c.locals); }
      } else {
        DeclaredFree(c.locals, x, c.level);
        FreeLocal(c.locals, x, c.level);
        InitLift(init, pool, c.locals + [Codegen.Local(x, -1)]);
      }
  }

  lemma InitLift(init: Option<Expr>, pool: seq<Value>, locals: seq<Codegen.Local>)
    ensures MakeInit(init, Plains(pool), Alone(locals)) == Lift(GenInit(init, locals, pool), locals)
  {
    hide GenExpr, MakeExpr;
    if init.Some? { ExprLift(init.value, pool, locals); }
  }

  lemma DeclaredFree(locals: seq<Codegen.Local>, x: string, level: nat)
    ensures Declared(Free(locals), x, level) <==> AlreadyDeclared(locals, x, level)
  {
    if i :| 0 <= i < |locals| && locals[i] == Codegen.Local(x, level) {
      assert Free(locals)[i].name == x;
    }
  }

  lemma FreeLocal(locals: seq<Codegen.Local>, x: string, level: nat)
    ensures AddLocal(Alone(locals), x, -1) == Alone(locals + [Codegen.Local(x, -1)])
    ensures Initialized(Alone(locals + [Codegen.Local(x, -1)]), level) == Alone(locals + [Codegen.Local(x, level)])
  {
    var before, after := locals + [Codegen.Local(x, -1)], locals + [Codegen.Local(x, level)];
    assert Free(before) == Free(locals) + [Lexical.Local(x, -1, false)];
    assert Free(after) == Free(before)[|locals| := Lexical.Local(x, level, false)];
  }

  // ----- pieces and outlines -----

  lemma {:induction false} OutlineLift(s: Syntax.Stmt)
    ensures StmtOutline(EmbedStmt(s)) == Placing.StmtOutline(s) && FunctionsTame(EmbedStmt(s))
    decreases s, 1
  {
    match s
    case Block(ds) => OutlinesLift(ds);
    case IfThen(_, t) => OutlineLift(t);
    case IfElse(_, t, f) =>
      OutlineLift(t);
      OutlineLift(f);
    case WhileLoop(_, b) => OutlineLift(b);
    case _ =>
  }

  lemma {:induction false} OutlinesLift(ds: seq<Syntax.Decl>)
    ensures ItemsOutline(EmbedDecls(ds)) == Placing.Outlined(ds) && ItemsTame(EmbedDecls(ds))
    decreases ds, 0
  {
    if ds != [] {
      var init, last := ds[..|ds| - 1], ds[|ds| - 1];
      assert EmbedDecls(ds)[..|ds| - 1] == EmbedDecls(init);
      OutlinesLift(init);
      ItemOutlineLift(last);
    }
  }

  lemma {:induction false} ItemOutlineLift(d: Syntax.Decl)
    ensures ItemOutline(EmbedDecl(d)) == Placing.DeclOutline(d) && ItemTame(EmbedDecl(d))
    decreases d, 2
  {
    if d.Statement? { OutlineLift(d.s); }
  }

  lemma {:induction false} ShapeLift(s: Syntax.Stmt, c: Context, pool: seq<Value>)
    requires Scoping.Settled(c.locals, c.level) && GenStmt(s, c, pool).Emit?
    ensures ShapeStmt(EmbedStmt(s), SpotOf(c), Plains(pool), Alone(c.locals)) == Placing.ShapeStmt(s, c, pool)
    decreases s, 1
  {
    hide GenStmt, MakeStmt, Plains, Alone, Scoping.Settled;
    StmtLift(s, c, pool);
    match s
    case Block(ds) => BlockShapeLift(ds, c, pool);
    case IfThen(e, t) =>
      IfThenShape(e, t, c, pool);
      ThenShapeLift(e, t, c, pool);
    case IfElse(e, t, f) => ElseShapeLift(e, t, f, c, pool);
    case WhileLoop(e, b) => LoopShapeLift(e, b, c, pool);
    case _ =>
  }

  lemma {:induction false} BlockShapeLift(ds: seq<Syntax.Decl>, c: Context, pool: seq<Value>)
    requires Scoping.Settled(c.locals, c.level) && GenStmt(Syntax.Block(ds), c, pool).Emit?
    ensures ShapeStmt(EmbedStmt(Syntax.Block(ds)), SpotOf(c), Plains(pool), Alone(c.locals)) ==
      Placing.ShapeStmt(Syntax.Block(ds), c, pool)
    decreases Syntax.Block(ds), 0
  {
    hide GenDecls, MakeItems, Plains, Scoping.Settled, EndLocals, Pops, Above, Deeper, ShapeItems, Placing.ShapeDecls;
    DeeperSettled(c.locals, c.level);
    DeclsLift(ds, c.(level := c.level + 1), pool);
    ShapesLift(ds, c.(level := c.level + 1), pool);
    EndsLift(GenDecls(ds, c.(level := c.level + 1), pool), c.level);
  }

  lemma {:induction false} ElseShapeLift(e: Expr, t: Syntax.Stmt, f: Syntax.Stmt, c: Context, pool: seq<Value>)
    requires Scoping.Settled(c.locals, c.level) && GenStmt(Syntax.IfElse(e, t, f), c, pool).Emit?
    ensures ShapeStmt(EmbedStmt(Syntax.IfElse(e, t, f)), SpotOf(c), Plains(pool), Alone(c.locals)) ==
      Placing.ShapeStmt(Syntax.IfElse(e, t, f), c, pool)
    decreases Syntax.IfElse(e, t, f), 0
  {
    hide GenExpr, MakeExpr, GenStmt, MakeStmt, Plains, Alone, Scoping.Settled, EmbedStmt, IfCode, ShapeStmt,
      Placing.ShapeStmt;
    EmbedsIf(e, t, Some(f));
    IfElseShape(e, t, f, c, pool);
    ThenShapeLift(e, t, c, pool);
    IfPieces(e, EmbedStmt(t), EmbedStmt(f), SpotOf(c), Plains(pool), Alone(c.locals));
    Placing.IfElsePieces(e, t, f, c, pool);
    var g := GenExpr(e, c.locals, pool);
    var h := GenStmt(t, c.Past(|g.code| + 4), g.pool);
    ShapeLift(f, c.Past(|g.code| + 4 + |h.code| + 4), h.pool);
  }

  lemma {:induction false} LoopShapeLift(e: Expr, b: Syntax.Stmt, c: Context, pool: seq<Value>)
    requires Scoping.Settled(c.locals, c.level) && GenStmt(Syntax.WhileLoop(e, b), c, pool).Emit?
    ensures ShapeStmt(EmbedStmt(Syntax.WhileLoop(e, b)), SpotOf(c), Plains(pool), Alone(c.locals)) ==
      Placing.ShapeStmt(Syntax.WhileLoop(e, b), c, pool)
    decreases Syntax.WhileLoop(e, b), 0
  {
    hide GenExpr, MakeExpr, GenStmt, MakeStmt, Plains, Alone, Scoping.Settled;
    WhileShape(e, b, c, pool);
    ExprLift(e, pool, c.locals);
    DeeperSettled(c.locals, c.level);
    ShapeLift(b, LoopContext(c, |GenExpr(e, c.locals, pool).code|), GenExpr(e, c.locals, pool).pool);
  }

  lemma {:induction false} ThenShapeLift(e: Expr, t: Syntax.Stmt, c: Context, pool: seq<Value>)
    requires Scoping.Settled(c.locals, c.level)
    requires var g := GenExpr(e, c.locals, pool); g.Emit? && GenStmt(t, c.Past(|g.code| + 4), g.pool).Emit?
    ensures var g := GenExpr(e, c.locals, pool);
      var past := c.Past(|g.code| + 4);
      && MakeExpr(e, Plains(pool), Alone(c.locals)) == Lift(g, c.locals)
      && SpotOf(c).Past(|g.code| + 4) == SpotOf(past)
      && MakeStmt(EmbedStmt(t), SpotOf(past), Plains(g.pool), Alone(c.locals)) ==
           Lift(GenStmt(t, past, g.pool), c.locals)
      && ShapeStmt(EmbedStmt(t), SpotOf(past), Plains(g.pool), Alone(c.locals)) ==
           Placing.ShapeStmt(t, past, g.pool)
    decreases t, 2
  {
    hide GenExpr, MakeExpr, GenStmt, MakeStmt, Plains, Alone, Scoping.Settled, ShapeStmt, Placing.ShapeStmt;
    ExprLift(e, pool, c.locals);
    var g := GenExpr(e, c.locals, pool);
    StmtLift(t, c.Past(|g.code| + 4), g.pool);
    ShapeLift(t, c.Past(|g.code| + 4), g.pool);
  }

  lemma EndsLift(g: DeclCode, level: nat)
    requires g.DeclEmit?
    ensures EndLocals(LiftDecl(g).chain[0].locals, level) == Pops(Above(g.locals, level))
  {
    DeeperFree(g.locals, level);
  }

  lemma {:induction false} ShapesLift(ds: seq<Syntax.Decl>, c: Context, pool: seq<Value>)
    requires Scoping.Settled(c.locals, c.level) && GenDecls(ds, c, pool).DeclEmit?
    ensures ShapeItems(EmbedDecls(ds), SpotOf(c), Plains(pool), Alone(c.locals)) == Placing.ShapeDecls(ds, c, pool)
    decreases ds, 0
  {
    hide GenDecl, MakeItem, ShapeItem, Placing.ShapeDecl, Plains, Alone, Scoping.Settled;
    if ds != [] {
      var init, last := ds[..|ds| - 1], ds[|ds| - 1];
      assert EmbedDecls(ds)[..|ds| - 1] == EmbedDecls(init);
      DeclsLift(init, c, pool);
      ShapesLift(init, c, pool);
      var g := GenDecls(init, c, pool);
      Statements.DeclsSlots(init, c, pool);
      SettledAfter(g.locals, c.locals, c.level);
      DeclShapeLift(last, c.Past(|g.code|).(locals := g.locals), g.pool);
    }
  }

  lemma {:induction false} DeclShapeLift(d: Syntax.Decl, c: Context, pool: seq<Value>)
    requires Scoping.Settled(c.locals, c.level) && GenDecl(d, c, pool).DeclEmit?
    ensures ShapeItem(EmbedDecl(d), SpotOf(c), Plains(pool), Alone(c.locals)) == Placing.ShapeDecl(d, c, pool)
    decreases d, 2
  {
    hide GenStmt, MakeStmt, GenExpr, MakeExpr, MakeItem, Plains, Alone, Scoping.Settled, ShapeStmt, Placing.ShapeStmt;
    DeclLift(d, c, pool);
    if d.Statement? { ShapeLift(d.s, c, pool); }
  }

  // ----- scripts and their runs -----

  /** The function with this chunk, at the top level of a script without functions. */
  function ScriptFunction(code: seq<byte>, pool: seq<Value>): Function {
    Function(0, 0, code, Plains(pool))
  }

  /** A script without functions is compiled to the chunk that `Placing` gives, or its compilation never ends. */
  lemma {:induction false} ScriptLift(ds: seq<Syntax.Decl>)
    ensures MakeScript(EmbedDecls(ds)) ==
      if GenScript(ds).Fail? then Rejected
      else if Placing.PlaceScript(ds).Unending? then Endless
      else Accepted(ScriptFunction(Placing.PlaceScript(ds).code, GenScript(ds).pool))
  {
    hide GenDecls, MakeItems, ShapeItems, Placing.ShapeDecls, Placing.PlaceDecls, Pieces.Lay;
    StartLift();
    DeclsLift(ds, TOP_LEVEL, []);
    if GenScript(ds).Emit? {
      ShapesLift(ds, TOP_LEVEL, []);
      Placing.DeclsShaped(ds, TOP_LEVEL, []);
    }
  }

  lemma StartLift()
    ensures Alone(TOP_LEVEL.locals) == SCRIPT && Plains([]) == [] && SpotOf(TOP_LEVEL) == TOP
    ensures Scoping.Settled(TOP_LEVEL.locals, TOP_LEVEL.level)
  {
    assert Free(TOP_LEVEL.locals) == [Lexical.Local("this", 0, false)];
  }

  /** The code of a script without functions is sound, whatever its loops and however long. */
  lemma {:induction false} TreeSound(ds: seq<Syntax.Decl>)
    requires GenScript(ds).Emit?
    ensures SoundCode.FunctionOk(ScriptFunction(GenScript(ds).code, GenScript(ds).pool))
  {
    hide GenDecls, MakeItems, Instructions.Sound, SoundCode.Ready, ItemsTame, Lexical.WellLinked;
    StartLift();
    DeclsLift(ds, TOP_LEVEL, []);
    OutlinesLift(ds);
    SoundCode.ScriptReady();
    SoundCode.ItemsGood(EmbedDecls(ds), TOP, [], SCRIPT);
    SoundCode.EndedOk(0, MakeItems(EmbedDecls(ds), TOP, [], SCRIPT));
  }

  /** A step of the machine leads from an instruction to an instruction that may follow it. */
  lemma {:induction false} StepStays(p: Program, s: Config)
    requires var f := Function(0, 0, p.code, Plains(p.pool)); SoundCode.FunctionOk(f) && SoundCode.Inside(f, s.ip)
    ensures var f, r := Function(0, 0, p.code, Plains(p.pool)), Step(p, s);
      && Whole(f.code, f.pool, s.ip)
      && (r.Running? ==> SoundCode.Follows(f, s.ip, r.s.ip) && SoundCode.Inside(f, r.s.ip))
  {
    hide SoundCode.FunctionOk, SoundCode.Inside, Step, Target, InstrLen;
    var f, r := Function(0, 0, p.code, Plains(p.pool)), Step(p, s);
    SoundCode.StaysInside(f, s.ip, if r.Running? then r.s.ip else 0);
    StepLength(p, s, f.pool);
  }

  lemma StepLength(p: Program, s: Config, pool: seq<Constant>)
    requires Whole(p.code, pool, s.ip)
    ensures var r, f := Step(p, s), Function(0, 0, p.code, pool);
      r.Running? ==> SoundCode.Follows(f, s.ip, r.s.ip)
  {
    hide ReadU16, BinaryOutcome;
  }

  /** Over every run the machine is at an instruction of the script, and never behind its last one. */
  lemma {:induction false} RunStays(p: Program, s: Config, n: nat)
    requires var f := Function(0, 0, p.code, Plains(p.pool)); SoundCode.FunctionOk(f) && SoundCode.Inside(f, s.ip)
    ensures var r := Steps(p, s, n);
      r.Running? ==> SoundCode.Inside(Function(0, 0, p.code, Plains(p.pool)), r.s.ip)
    decreases n
  {
    hide SoundCode.FunctionOk, SoundCode.Inside, Step;
    if n > 0 {
      StepStays(p, s);
      var r := Step(p, s);
      if r.Running? { RunStays(p, r.s, n - 1); }
    }
  }

  /** Over every run of the chunk of a tame script of less than 65535 bytes the machine is at an instruction of it, and
      never behind the last one. */
  lemma TameRunStays(pr: Primitives, ds: seq<Syntax.Decl>, globals: map<string, Value>, n: nat)
    requires GenScript(ds).Emit? && Placing.Outlined(ds).Tame() && |GenScript(ds).code| < UINT16_MAX
    ensures Placing.PlaceScript(ds).Done?
    ensures var code, pool := Placing.PlaceScript(ds).code, GenScript(ds).pool;
      var r := Steps(Program(code, pool, pr), Preservation.Start(globals), n);
      r.Running? ==> SoundCode.Inside(ScriptFunction(code, pool), r.s.ip)
  {
    hide GenScript, Placing.PlaceScript, Placing.Outlined, Steps, SoundCode.FunctionOk, SoundCode.Inside;
    Regular.TameScript(ds);
    TreeSound(ds);
    var g := GenScript(ds);
    FirstInside(ScriptFunction(g.code, g.pool));
    RunStays(Program(g.code, g.pool, pr), Preservation.Start(globals), n);
  }

  lemma FirstInside(f: Function)
    requires SoundCode.FunctionOk(f)
    ensures SoundCode.Inside(f, 0)
  {
  }
}
