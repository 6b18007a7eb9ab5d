/** Placeholders in emitted code: which byte patterns the loop patching can meet. */
module Patching {
  import opened Values
  import opened Syntax
  import opened Bytecode
  import opened Codegen
  import opened ExitSearch
  import opened Pieces

  ghost predicate NoPlaceholder(code: seq<byte>) {
    forall i :: 0 <= i <= |code| - 3 ==>
      !IsPlaceholder(code, i, OP_JUMP_IF_FALSE) && !IsPlaceholder(code, i, OP_JUMP)
  }

  /** No placeholder inside, and no first byte that could complete one begun before. */
  ghost predicate Quiet(code: seq<byte>) {
    NoPlaceholder(code) && (|code| > 0 ==> code[0] != 255)
  }

  lemma QuietConcat(a: seq<byte>, b: seq<byte>)
    requires NoPlaceholder(a) && Quiet(b)
    ensures NoPlaceholder(a + b)
    ensures Quiet(a) ==> Quiet(a + b)
  {
    var c := a + b;
    forall i | 0 <= i <= |c| - 3
      ensures !IsPlaceholder(c, i, OP_JUMP_IF_FALSE) && !IsPlaceholder(c, i, OP_JUMP)
    {
      if i + 3 <= |a| {
        assert !IsPlaceholder(a, i, OP_JUMP_IF_FALSE) && !IsPlaceholder(a, i, OP_JUMP);
      } else if i >= |a| {
        assert !IsPlaceholder(b, i - |a|, OP_JUMP_IF_FALSE) && !IsPlaceholder(b, i - |a|, OP_JUMP);
      }
    }
  }

  /** A finished jump over fewer than 65535 bytes is no placeholder. */
  lemma QuietJump(op: byte, d: nat)
    requires d < UINT16_MAX && op != 255
    ensures Quiet([op] + U16(d))
  {
    assert [op] + U16(d) == [op, d % 256, d / 256 % 256];
  }

  lemma QuietGuard(op: byte, d: nat)
    requires d < UINT16_MAX && op != 255
    ensures Quiet([op] + U16(d) + [OP_POP])
  {
    QuietJump(op, d);
    QuietConcat([op] + U16(d), [OP_POP]);
  }

  /** A backward jump is not a placeholder whatever its distance. */
  lemma QuietLoop(d: nat)
    ensures Quiet(JumpCode(OP_LOOP, d))
  {
  }

  lemma QuietPops(n: nat)
    ensures Quiet(Pops(n))
  {
  }

  lemma QuietBinary(op: BinOp)
    ensures Quiet(BinaryCode(op))
  {
  }

  // ----- emitted code is quiet while it is too short for a full-range jump -----

  lemma {:induction false} ExprQuiet(e: Expr, locals: seq<Local>, pool: seq<Value>)
    requires GenExpr(e, locals, pool).Emit? && |GenExpr(e, locals, pool).code| < UINT16_MAX
    ensures Quiet(GenExpr(e, locals, pool).code) && |GenExpr(e, locals, pool).code| > 0
    decreases e, 1
  {
    hide Quiet, NoPlaceholder;
    match e
    case Literal(v) => LiteralQuiet(v, pool);
    case Variable(x) => AccessQuiet(OP_GET_LOCAL, OP_GET_GLOBAL, x, locals, pool);
    case Assign(x, rhs) =>
      var a := Access(OP_SET_LOCAL, OP_SET_GLOBAL, x, locals, pool);
      ExprQuiet(rhs, locals, a.pool);
      AccessQuiet(OP_SET_LOCAL, OP_SET_GLOBAL, x, locals, pool);
      QuietAppend(GenExpr(rhs, locals, a.pool).code, a.code);
    case Unary(op, a) =>
      ExprQuiet(a, locals, pool);
      OneByteQuiet(UnaryCode(op)[0]);
      QuietAppend(GenExpr(a, locals, pool).code, UnaryCode(op));
    case Binary(op, a, b) =>
      var g := GenExpr(a, locals, pool);
      var h := GenExpr(b, locals, g.pool);
      ExprQuiet(a, locals, pool);
      ExprQuiet(b, locals, g.pool);
      QuietBinary(op);
      QuietAppend(g.code, h.code);
      QuietAppend(g.code + h.code, BinaryCode(op));
    case Conj(a, b) => ShortQuiet(a, b, OP_JUMP_IF_FALSE, locals, pool);
    case Disj(a, b) => ShortQuiet(a, b, OP_JUMP_IF_TRUE, locals, pool);
    case Call(f, args) =>
      var g := GenExpr(f, locals, pool);
      ExprQuiet(f, locals, pool);
      ArgsQuiet(args, locals, g.pool);
      var h := GenArgs(args, locals, g.pool);
      TwoByteQuiet(OP_CALL, |args|);
      QuietAppend(g.code, h.code);
      QuietAppend(g.code + h.code, [OP_CALL, |args|]);
  }

  lemma QuietAppend(a: seq<byte>, b: seq<byte>)
    requires Quiet(a) && Quiet(b)
    ensures Quiet(a + b)
  {
    QuietConcat(a, b);
  }

  lemma OneByteQuiet(op: byte)
    requires op != 255
    ensures Quiet([op])
  {
  }

  lemma TwoByteQuiet(op: byte, a: byte)
    requires op != 255
    ensures Quiet([op, a])
  {
  }

  lemma LiteralQuiet(v: Value, pool: seq<Value>)
    requires LiteralCode(v, pool).Emit?
    ensures Quiet(LiteralCode(v, pool).code) && |LiteralCode(v, pool).code| > 0
  {
  }

  lemma AccessQuiet(l: byte, g: byte, x: Ident, locals: seq<Local>, pool: seq<Value>)
    requires Access(l, g, x, locals, pool).Emit? && l != 255 && g != 255
    ensures Quiet(Access(l, g, x, locals, pool).code) && |Access(l, g, x, locals, pool).code| > 0
  {
  }

  lemma {:induction false} ShortQuiet(a: Expr, b: Expr, jump: byte, locals: seq<Local>, pool: seq<Value>)
    requires jump == OP_JUMP_IF_FALSE || jump == OP_JUMP_IF_TRUE
    requires GenExpr(a, locals, pool).Emit?
    requires var s := ShortCircuit(jump, GenExpr(a, locals, pool).code, GenExpr(b, locals, GenExpr(a, locals,
      pool).pool));
      s.Emit? && |s.code| < UINT16_MAX
    ensures Quiet(ShortCircuit(jump, GenExpr(a, locals, pool).code, GenExpr(b, locals, GenExpr(a, locals,
      pool).pool)).code)
    ensures |GenExpr(a, locals, pool).code| > 0
    decreases if a < b then b else a, 2
  {
    hide Quiet, NoPlaceholder, GenExpr;
    var g := GenExpr(a, locals, pool);
    var h := GenExpr(b, locals, g.pool);
    var guard := [jump] + U16(|h.code| + 1) + [OP_POP];
    ExprQuiet(a, locals, pool);
    ExprQuiet(b, locals, g.pool);
    QuietGuard(jump, |h.code| + 1);
    QuietAppend(g.code, guard);
    QuietAppend(g.code + guard, h.code);
  }

  lemma {:induction false} ArgsQuiet(args: seq<Expr>, locals: seq<Local>, pool: seq<Value>)
    requires GenArgs(args, locals, pool).Emit? && |GenArgs(args, locals, pool).code| < UINT16_MAX
    ensures Quiet(GenArgs(args, locals, pool).code)
    decreases args, 0
  {
    if args != [] {
      hide Quiet, NoPlaceholder, GenExpr;
      var init, last := args[..|args| - 1], args[|args| - 1];
      var g := GenArgs(init, locals, pool);
      ArgsQuiet(init, locals, pool);
      ExprQuiet(last, locals, g.pool);
      QuietAppend(g.code, GenExpr(last, locals, g.pool).code);
    }
  }

  /** Statements of fewer than 65535 bytes, loops among them. */
  lemma {:induction false} StmtQuiet(s: Stmt, c: Context, pool: seq<Value>)
    requires GenStmt(s, c, pool).Emit? && |GenStmt(s, c, pool).code| < UINT16_MAX
    ensures Quiet(GenStmt(s, c, pool).code)
    decreases s, 1
  {
    hide Quiet, NoPlaceholder, GenExpr, Above;
    match s
    case Expression(e) =>
      ExprQuiet(e, c.locals, pool);
      OneByteQuiet(OP_POP);
      QuietAppend(GenExpr(e, c.locals, pool).code, [OP_POP]);
    case PrintStmt(e) =>
      ExprQuiet(e, c.locals, pool);
      OneByteQuiet(OP_PRINT);
      QuietAppend(GenExpr(e, c.locals, pool).code, [OP_PRINT]);
    case Block(ds) =>
      var g := GenDecls(ds, c.(level := c.level + 1), pool);
      DeclsQuiet(ds, c.(level := c.level + 1), pool);
      QuietPops(Above(g.locals, c.level));
      QuietAppend(g.code, Pops(Above(g.locals, c.level)));
    case IfThen(e, t) => IfThenQuiet(e, t, c, pool);
    case IfElse(e, t, f) => IfElseQuiet(e, t, f, c, pool);
    case WhileLoop(e, b) => WhileQuiet(e, b, c, pool);
    case ContinueStmt =>
      var n := Above(c.locals, c.loop.level);
      QuietPops(n);
      QuietLoop(c.loop.distance + n + 3);
      QuietAppend(Pops(n), JumpCode(OP_LOOP, c.loop.distance + n + 3));
  }

  lemma {:induction false} IfThenQuiet(e: Expr, t: Stmt, c: Context, pool: seq<Value>)
    requires GenStmt(IfThen(e, t), c, pool).Emit? && |GenStmt(IfThen(e, t), c, pool).code| < UINT16_MAX
    ensures Quiet(GenStmt(IfThen(e, t), c, pool).code)
    decreases IfThen(e, t), 0
  {
    hide Quiet, NoPlaceholder, GenExpr, IfCode;
    var g := GenExpr(e, c.locals, pool);
    var h := GenStmt(t, c.Past(|g.code| + 4), g.pool);
    IfLength(g.code, h.code, []);
    ExprQuiet(e, c.locals, pool);
    StmtQuiet(t, c.Past(|g.code| + 4), g.pool);
    QuietEmpty();
    IfCodeQuiet(g.code, h.code, []);
  }

  lemma {:induction false} IfElseQuiet(e: Expr, t: Stmt, f: Stmt, c: Context, pool: seq<Value>)
    requires GenStmt(IfElse(e, t, f), c, pool).Emit? && |GenStmt(IfElse(e, t, f), c, pool).code| < UINT16_MAX
    ensures Quiet(GenStmt(IfElse(e, t, f), c, pool).code)
    decreases IfElse(e, t, f), 0
  {
    hide Quiet, NoPlaceholder, GenExpr, GenStmt, IfCode;
    IfElseShape(e, t, f, c, pool);
    var g := GenExpr(e, c.locals, pool);
    var h := GenStmt(t, c.Past(|g.code| + 4), g.pool);
    var k := GenStmt(f, c.Past(|g.code| + 4 + |h.code| + 4), h.pool);
    IfLength(g.code, h.code, k.code);
    ExprQuiet(e, c.locals, pool);
    StmtQuiet(t, c.Past(|g.code| + 4), g.pool);
    StmtQuiet(f, c.Past(|g.code| + 4 + |h.code| + 4), h.pool);
    IfCodeQuiet(g.code, h.code, k.code);
  }

  lemma {:induction false} WhileQuiet(e: Expr, b: Stmt, c: Context, pool: seq<Value>)
    requires GenStmt(WhileLoop(e, b), c, pool).Emit? && |GenStmt(WhileLoop(e, b), c, pool).code| < UINT16_MAX
    ensures Quiet(GenStmt(WhileLoop(e, b), c, pool).code)
    decreases WhileLoop(e, b), 0
  {
    hide Quiet, NoPlaceholder, GenExpr, GenStmt, WhileCode;
    WhileShape(e, b, c, pool);
    var g := GenExpr(e, c.locals, pool);
    var h := GenStmt(b, LoopContext(c, |g.code|), g.pool);
    ExprQuiet(e, c.locals, pool);
    StmtQuiet(b, LoopContext(c, |g.code|), g.pool);
    WhileCodeQuiet(g.code, h.code);
  }

  lemma WhileCodeQuiet(c: seq<byte>, b: seq<byte>)
    requires Quiet(c) && Quiet(b) && |WhileCode(c, b)| < UINT16_MAX
    ensures Quiet(WhileCode(c, b))
  {
    hide Quiet, NoPlaceholder;
    var x := JumpCode(OP_JUMP_IF_FALSE, |b| + 4) + [OP_POP];
    var y := JumpCode(OP_LOOP, |c| + |b| + 7) + [OP_POP];
    QuietGuard(OP_JUMP_IF_FALSE, |b| + 4);
    QuietGuard(OP_LOOP, |c| + |b| + 7);
    QuietAppend(c, x);
    QuietAppend(c + x, b);
    QuietAppend(c + x + b, y);
  }

  lemma IfLength(c: seq<byte>, t: seq<byte>, e: seq<byte>)
    ensures |IfCode(c, t, e)| == |c| + 4 + |t| + 4 + |e|
  {
  }

  lemma QuietEmpty()
    ensures Quiet([])
  {
  }

  lemma IfCodeQuiet(c: seq<byte>, t: seq<byte>, e: seq<byte>)
    requires Quiet(c) && Quiet(t) && Quiet(e) && |IfCode(c, t, e)| < UINT16_MAX
    ensures Quiet(IfCode(c, t, e))
  {
    hide Quiet, NoPlaceholder;
    var a := JumpCode(OP_JUMP_IF_FALSE, |t| + 4) + [OP_POP];
    var b := JumpCode(OP_JUMP, |e| + 1) + [OP_POP];
    QuietGuard(OP_JUMP_IF_FALSE, |t| + 4);
    QuietGuard(OP_JUMP, |e| + 1);
    QuietAppend(c, a);
    QuietAppend(c + a, t);
    QuietAppend(c + a + t, b);
    QuietAppend(c + a + t + b, e);
  }

  lemma {:induction false} DeclQuiet(d: Decl, c: Context, pool: seq<Value>)
    requires GenDecl(d, c, pool).DeclEmit? && |GenDecl(d, c, pool).code| < UINT16_MAX
    ensures Quiet(GenDecl(d, c, pool).code)
    decreases d, 2
  {
    hide Quiet, NoPlaceholder, GenExpr;
    match d
    case Statement(s) => StmtQuiet(s, c, pool);
    case VarDecl(x, init) =>
      var def := WithConstant(OP_DEFINE_GLOBAL, Str(x), pool);
      if c.level == 0 {
        var g := GenInit(init, c.locals, def.pool);
        InitQuiet(init, c.locals, def.pool);
        TwoByteQuiet(def.code[0], def.code[1]);
        QuietAppend(g.code, def.code);
      } else {
        InitQuiet(init, c.locals + [Local(x, -1)], pool);
      }
  }

  lemma InitQuiet(init: Option<Expr>, locals: seq<Local>, pool: seq<Value>)
    requires GenInit(init, locals, pool).Emit? && |GenInit(init, locals, pool).code| < UINT16_MAX
    ensures Quiet(GenInit(init, locals, pool).code)
  {
    if init.Some? { ExprQuiet(init.value, locals, pool); }
  }

  lemma {:induction false} DeclsQuiet(ds: seq<Decl>, c: Context, pool: seq<Value>)
    requires GenDecls(ds, c, pool).DeclEmit? && |GenDecls(ds, c, pool).code| < UINT16_MAX
    ensures Quiet(GenDecls(ds, c, pool).code)
    decreases ds, 0
  {
    if ds != [] {
      hide Quiet, NoPlaceholder;
      var g := GenDecls(ds[..|ds| - 1], c, pool);
      var c' := c.Past(|g.code|).(locals := g.locals);
      DeclsQuiet(ds[..|ds| - 1], c, pool);
      DeclQuiet(ds[|ds| - 1], c', g.pool);
      QuietAppend(g.code, GenDecl(ds[|ds| - 1], c', g.pool).code);
    }
  }

  // ----- one pop after another -----

  lemma PopsNext(n: nat)
    ensures Pops(0) == [] && Pops(n + 1) == Pops(n) + [OP_POP]
  {
  }

  lemma AboveNext(locals: seq<Local>, level: int)
    ensures Above(locals, level) ==
      if |locals| > 0 && locals[|locals| - 1].level > level then 1 + Above(locals[..|locals| - 1], level) else 0
  {
  }

  /** The newest `n` locals have been popped, all of them deeper than `level`. */
  ghost predicate Popped(all: seq<Local>, level: int, n: nat, locals: seq<Local>) {
    n <= |all| && locals == all[..|all| - n] && Above(all, level) == n + Above(locals, level)
  }

  lemma NonePopped(all: seq<Local>, level: int)
    ensures Popped(all, level, 0, all)
  {
    assert all[..|all|] == all;
  }

  lemma OnePopped(all: seq<Local>, level: int, n: nat, locals: seq<Local>)
    requires Popped(all, level, n, locals) && |locals| > 0 && locals[|locals| - 1].level > level
    ensures Popped(all, level, n + 1, locals[..|locals| - 1])
  {
    AboveNext(locals, level);
    hide Above;
    assert all[..|all| - n][..|all| - n - 1] == all[..|all| - (n + 1)];
  }

  lemma AllPopped(all: seq<Local>, level: int, n: nat, locals: seq<Local>)
    requires Popped(all, level, n, locals) && (|locals| > 0 ==> locals[|locals| - 1].level <= level)
    ensures Above(all, level) == n && locals == all[..|all| - n]
  {
    AboveNext(locals, level);
  }

  // ----- patched jumps -----

  lemma PatchedJump(x: seq<byte>, op: byte, y: seq<byte>, d: nat)
    requires d <= UINT16_MAX
    ensures Patch(x + OpenJump(op) + y, |x| + 1, d) == x + JumpCode(op, d) + y
  {
    assert JumpCode(op, d) == [op, d % 256, d / 256 % 256];
  }

  lemma ShortPatched(code: seq<byte>, op: byte, e: seq<byte>)
    requires |e| + 1 <= UINT16_MAX
    ensures Patch(code + [op, 255, 255] + [OP_POP] + e, |code| + 1,
      |e| + 1) == code + ([op] + U16(|e| + 1) + [OP_POP] + e)
  {
    PatchedJump(code, op, [OP_POP] + e, |e| + 1);
    assert code + [op, 255, 255] + [OP_POP] + e == code + [op, 255, 255] + ([OP_POP] + e);
  }
}
