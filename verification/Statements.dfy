/** The code of a statement does what the statement does. */
module Statements {
  import opened Values
  import opened Syntax
  import opened Semantics
  import opened Bytecode
  import opened Codegen
  import opened Machine
  import opened Expressions
  import opened Scoping

  /** Where a piece of code can be left: at its end, with the slots described by `locals`, or by
      `continue` at the top of the enclosing loop. */
  datatype Exits = Exits(end: nat, locals: seq<Local>, level: nat, top: Option<(nat, seq<Local>, nat)>)

  ghost function ExitsOf(c: Context, at: nat, len: nat, locals: seq<Local>): Exits
    requires c.loop.InLoop? ==> c.loop.distance <= at
  {
    Exits(at + len, locals, c.level,
      if c.loop.NoLoop? then None else Some((at - c.loop.distance, Outer(c.locals, c.loop.level), c.loop.level)))
  }

  /** After `n` steps from `s` the machine is where the result `r` says, at a statement boundary
      of the right scope.  Running out of fuel means running for at least `fuel` steps. */
  ghost predicate Runs(p: Program, x: Exits, s: Config, r: Result, n: nat, t: Config, fuel: nat) {
    match r
    case Normal(st) => Steps(p, s, n) == Running(t) && t.ip == x.end && Boundary(x.locals, x.level, t, st)
    case Continued(st) =>
      && x.top.Some? && Steps(p, s, n) == Running(t) && t.ip == x.top.value.0
      && Boundary(x.top.value.1, x.top.value.2, t, Unwind(st, x.top.value.2 + 1))
    case Failed(st) => Steps(p, s, n) == Status.Error(t) && t.globals == st.globals && t.output == st.output
    case OutOfFuel => Steps(p, s, n) == Running(t) && n >= fuel
  }

  /** Steps before a run. */
  lemma {:induction false} RunsAfter(p: Program, x: Exits, s: Config, n: nat, t: Config, r: Result, m: nat,
      t2: Config, fuel: nat)
    requires Steps(p, s, n) == Running(t) && Runs(p, x, t, r, m, t2, fuel)
    ensures Runs(p, x, s, r, n + m, t2, fuel)
  {
    hide Steps, Boundary;
    StepsCompose(p, s, n, m);
  }

  lemma RunsFault(p: Program, locals: seq<Local>, x: Exits, s: Config, len: nat, r: ExprResult, n: nat, t: Config,
      fuel: nat)
    requires Computes(p, locals, s, len, r, n, t) && r.Fault?
    ensures Runs(p, x, s, Failed(r.st), n, t, fuel)
  {
  }

  // ----- the constant pool only grows -----

  lemma {:induction false} StmtGrows(s: Stmt, c: Context, pool: seq<Value>)
    ensures var g := GenStmt(s, c, pool); g.Emit? ==> pool <= g.pool
    decreases s, 1
  {
    hide GenExpr, IfCode, WhileCode;
    match s
    case Expression(e) => ExprGrows(e, c.locals, pool);
    case PrintStmt(e) => ExprGrows(e, c.locals, pool);
    case Block(ds) => DeclsGrow(ds, c.(level := c.level + 1), pool);
    case IfThen(e, t) =>
      ExprGrows(e, c.locals, pool);
      var g := GenExpr(e, c.locals, pool);
      if g.Emit? { StmtGrows(t, c.Past(|g.code| + 4), g.pool); }
    case IfElse(e, t, f) =>
      ExprGrows(e, c.locals, pool);
      var g := GenExpr(e, c.locals, pool);
      if g.Emit? {
        StmtGrows(t, c.Past(|g.code| + 4), g.pool);
        var h := GenStmt(t, c.Past(|g.code| + 4), g.pool);
        if h.Emit? { StmtGrows(f, c.Past(|g.code| + 4 + |h.code| + 4), h.pool); }
      }
    case WhileLoop(e, b) =>
      ExprGrows(e, c.locals, pool);
      var g := GenExpr(e, c.locals, pool);
      if g.Emit? { StmtGrows(b, LoopContext(c, |g.code|), g.pool); }
    case ContinueStmt =>
  }

  lemma {:induction false} DeclGrows(d: Decl, c: Context, pool: seq<Value>)
    ensures var g := GenDecl(d, c, pool); g.DeclEmit? ==> pool <= g.pool
    decreases d, 2
  {
    match d
    case Statement(s) => StmtGrows(s, c, pool);
    case VarDecl(x, init) =>
      var p := if c.level == 0 then AddConstant(pool, Str(x)) else pool;
      var locals := if c.level == 0 then c.locals else c.locals + [Local(x, -1)];
      if init.Some? { ExprGrows(init.value, locals, p); }
  }

  lemma {:induction false} DeclsGrow(ds: seq<Decl>, c: Context, pool: seq<Value>)
    ensures var g := GenDecls(ds, c, pool); g.DeclEmit? ==> pool <= g.pool
    decreases ds, 0
  {
    if ds != [] {
      DeclsGrow(ds[..|ds| - 1], c, pool);
      var g := GenDecls(ds[..|ds| - 1], c, pool);
      if g.DeclEmit? { DeclGrows(ds[|ds| - 1], c.Past(|g.code|).(locals := g.locals), g.pool); }
    }
  }

  // ----- the slots only grow, in the current scope -----

  lemma DeclSlots(d: Decl, c: Context, pool: seq<Value>)
    requires GenDecl(d, c, pool).DeclEmit? && Settled(c.locals, c.level)
    ensures var g := GenDecl(d, c, pool);
      Settled(g.locals, c.level) && Extends(g.locals, c.locals, c.level)
  {
  }

  ghost predicate Extends(locals: seq<Local>, base: seq<Local>, level: nat) {
    base <= locals && forall i :: |base| <= i < |locals| ==> locals[i].level == level
  }

  lemma {:induction false} DeclsSlots(ds: seq<Decl>, c: Context, pool: seq<Value>)
    requires GenDecls(ds, c, pool).DeclEmit? && Settled(c.locals, c.level)
    ensures var g := GenDecls(ds, c, pool);
      Settled(g.locals, c.level) && Extends(g.locals, c.locals, c.level)
    decreases ds
  {
    if ds != [] {
      DeclsSlots(ds[..|ds| - 1], c, pool);
      var g := GenDecls(ds[..|ds| - 1], c, pool);
      DeclSlots(ds[|ds| - 1], c.Past(|g.code|).(locals := g.locals), g.pool);
    }
  }

  /** New slots of the current scope are not outside it. */
  lemma {:induction false} OuterExtends(locals: seq<Local>, base: seq<Local>, level: nat, outer: int)
    requires Extends(locals, base, level) && outer < level
    ensures Outer(locals, outer) == Outer(base, outer)
    decreases |locals|
  {
    if |locals| > |base| {
      var init := locals[..|locals| - 1];
      OuterExtends(init, base, level, outer);
      assert Outer(locals, outer) == Outer(init, outer);
    } else {
      assert locals == base;
    }
  }

  // ----- single instructions -----

  lemma PopStep(p: Program, s: Config)
    requires s.ip < |p.code| && p.code[s.ip] == OP_POP && |s.stack| > 0
    ensures Steps(p, s, 1) == Running(s.(ip := s.ip + 1, stack := s.stack[..|s.stack| - 1]))
  {
    assert Steps(p, s, 1) == Step(p, s);
  }

  lemma PrintStep(p: Program, s: Config)
    requires s.ip < |p.code| && p.code[s.ip] == OP_PRINT && |s.stack| > 0
    ensures Steps(p, s, 1) ==
      Running(Config(s.ip + 1, s.stack[..|s.stack| - 1], s.globals, s.output + [Top(s, 0)]))
  {
    assert Steps(p, s, 1) == Step(p, s);
  }

  lemma JumpStep(p: Program, d: nat, s: Config)
    requires d <= UINT16_MAX && Holds(p.code, s.ip, JumpCode(OP_JUMP, d))
    ensures Steps(p, s, 1) == Running(s.(ip := s.ip + 3 + d))
  {
    assert JumpCode(OP_JUMP, d) + [] == JumpCode(OP_JUMP, d);
    HoldsJump(p.code, s.ip, OP_JUMP, d, []);
    assert Steps(p, s, 1) == Step(p, s);
  }

  lemma LoopStep(p: Program, d: nat, s: Config)
    requires d <= UINT16_MAX && d <= s.ip + 3 && Holds(p.code, s.ip, JumpCode(OP_LOOP, d))
    ensures Steps(p, s, 1) == Running(s.(ip := s.ip + 3 - d))
  {
    assert JumpCode(OP_LOOP, d) + [] == JumpCode(OP_LOOP, d);
    HoldsJump(p.code, s.ip, OP_LOOP, d, []);
    assert Steps(p, s, 1) == Step(p, s);
  }

  lemma {:induction false} PopsStep(p: Program, k: nat, s: Config)
    requires Holds(p.code, s.ip, Pops(k)) && k <= |s.stack|
    ensures Steps(p, s, k) == Running(s.(ip := s.ip + k, stack := s.stack[..|s.stack| - k]))
    decreases k
  {
    if k == 0 {
      assert s.stack[..|s.stack|] == s.stack;
    } else {
      assert p.code[s.ip] == p.code[s.ip..s.ip + k][0] == OP_POP;
      assert Pops(k) == [OP_POP] + Pops(k - 1);
      HoldsSplit(p.code, s.ip, [OP_POP], Pops(k - 1));
      PopStep(p, s);
      var t := s.(ip := s.ip + 1, stack := s.stack[..|s.stack| - 1]);
      PopsStep(p, k - 1, t);
      StepsCompose(p, s, 1, k - 1);
      assert t.stack[..|t.stack| - (k - 1)] == s.stack[..|s.stack| - k];
    }
  }

  // ----- from an expression back to a statement boundary -----

  lemma {:induction false} Discard(p: Program, locals: seq<Local>, level: nat, s: Config, st0: State, k: nat,
      v: Value, st: State, n: nat, t: Config)
    returns (t2: Config)
    requires Boundary(locals, level, s, st0) && |st.scopes| == level + 1
    requires Computes(p, locals, s, k, Done(v, st), n, t)
    requires t.ip < |p.code| && p.code[t.ip] == OP_POP
    ensures Steps(p, s, n + 1) == Running(t2) && t2.ip == s.ip + k + 1 && Boundary(locals, level, t2, st)
  {
    hide Step, Steps, Match, Kept;
    PopStep(p, t);
    StepsCompose(p, s, n, 1);
    DropAgrees(locals, s, st0, t, st);
    t2 := t.(ip := t.ip + 1, stack := t.stack[..|t.stack| - 1]);
  }

  lemma {:induction false} Output(p: Program, locals: seq<Local>, level: nat, s: Config, st0: State, k: nat, v: Value,
      st: State, n: nat, t: Config)
    returns (t2: Config)
    requires Boundary(locals, level, s, st0) && |st.scopes| == level + 1
    requires Computes(p, locals, s, k, Done(v, st), n, t)
    requires t.ip < |p.code| && p.code[t.ip] == OP_PRINT
    ensures Steps(p, s, n + 1) == Running(t2) && t2.ip == s.ip + k + 1
    ensures Boundary(locals, level, t2, st.(output := st.output + [v]))
  {
    hide Step, Steps, Match, Kept;
    PrintStep(p, t);
    StepsCompose(p, s, n, 1);
    DropAgrees(locals, s, st0, t, st);
    t2 := Config(t.ip + 1, t.stack[..|t.stack| - 1], t.globals, t.output + [v]);
  }

  /** A false condition: the jump is taken to the pop at its target. */
  lemma {:induction false} CondFalse(p: Program, d: nat, locals: seq<Local>, level: nat, s: Config, st0: State,
      k: nat, v: Value, st: State, n: nat, t: Config)
    returns (t2: Config)
    requires Boundary(locals, level, s, st0) && |st.scopes| == level + 1
    requires Computes(p, locals, s, k, Done(v, st), n, t) && IsFalsey(v)
    requires d <= UINT16_MAX && Holds(p.code, t.ip, JumpCode(OP_JUMP_IF_FALSE, d) + [OP_POP])
    requires t.ip + 3 + d < |p.code| && p.code[t.ip + 3 + d] == OP_POP
    ensures Steps(p, s, n + 2) == Running(t2) && t2.ip == s.ip + k + 4 + d && Boundary(locals, level, t2, st)
  {
    hide Step, Steps, Match, Kept, Holds;
    ShortTaken(p, OP_JUMP_IF_FALSE, d, locals, s, k, v, st, n, t);
    t2 := Discard(p, locals, level, s, st0, k + 3 + d, v, st, n + 1, t.(ip := t.ip + 3 + d));
  }

  lemma {:induction false} CondTrue(p: Program, d: nat, locals: seq<Local>, level: nat, s: Config, st0: State, k: nat,
      v: Value, st: State, n: nat, t: Config)
    returns (t2: Config)
    requires Boundary(locals, level, s, st0) && |st.scopes| == level + 1
    requires Computes(p, locals, s, k, Done(v, st), n, t) && !IsFalsey(v)
    requires d <= UINT16_MAX && Holds(p.code, t.ip, JumpCode(OP_JUMP_IF_FALSE, d) + [OP_POP])
    ensures Steps(p, s, n + 2) == Running(t2) && t2.ip == s.ip + k + 4 && Boundary(locals, level, t2, st)
  {
    hide Step, Steps, Match, Kept, Holds;
    t2 := FallThrough(p, OP_JUMP_IF_FALSE, d, locals, s, st0, k, v, st, n, t);
  }

  /** One more instruction that only moves the instruction pointer, at a normal exit. */
  lemma ThenGoto(p: Program, x: Exits, y: Exits, s: Config, r: Result, n: nat, t: Config, fuel: nat)
    requires Runs(p, x, s, r, n, t, fuel)
    requires x.top == y.top && x.locals == y.locals && x.level == y.level
    requires r.Normal? ==> Steps(p, t, 1) == Running(t.(ip := y.end))
    ensures Runs(p, y, s, r, if r.Normal? then n + 1 else n, if r.Normal? then t.(ip := y.end) else t, fuel)
  {
    hide Step, Steps, Match, Settled;
    if r.Normal? { StepsCompose(p, s, n, 1); }
  }

  // ----- statements -----

  ghost predicate Ready(c: Context, s: Config, st: State) {
    && Boundary(c.locals, c.level, s, st)
    && (c.loop.InLoop? ==> c.loop.distance <= s.ip && c.loop.level < c.level)
  }

  ghost predicate Placed(p: Program, at: nat, g: Code) {
    g.Emit? && Holds(p.code, at, g.code) && g.pool <= p.pool
  }

  lemma {:induction false} SimpleSim(p: Program, s0: Stmt, e: Expr, c: Context, pool: seq<Value>, s: Config,
      st: State, fuel: nat)
    returns (n: nat, t: Config)
    requires s0 == Expression(e) || s0 == PrintStmt(e)
    requires Ready(c, s, st) && Placed(p, s.ip, GenStmt(s0, c, pool))
    ensures Runs(p, ExitsOf(c, s.ip, |GenStmt(s0, c, pool).code|, c.locals), s, Exec(p.pr, s0, st, fuel), n, t, fuel)
  {
    hide Step, Steps, Boundary, Agree, GenExpr, Eval;
    BoundaryAgrees(c.locals, c.level, s, st);
    var g := GenExpr(e, c.locals, pool);
    var op := if s0.Expression? then OP_POP else OP_PRINT;
    HoldsSplit(p.code, s.ip, g.code, [op]);
    OneByte(p.code, s.ip + |g.code|, op);
    n, t := ExprSim(p, e, c.locals, pool, s, st);
    var r := Eval(p.pr, e, st);
    if r.Done? {
      assert t.ip == s.ip + |g.code|;
      if s0.Expression? {
        t := Discard(p, c.locals, c.level, s, st, |g.code|, r.v, r.st, n, t);
      } else {
        t := Output(p, c.locals, c.level, s, st, |g.code|, r.v, r.st, n, t);
      }
      n := n + 1;
    }
  }

  lemma BoundaryAgrees(locals: seq<Local>, level: nat, s: Config, st: State)
    requires Boundary(locals, level, s, st)
    ensures Agree(locals, s, st) && |st.scopes| == level + 1 && |s.stack| == |locals|
  {
  }

  lemma {:induction false} ContinueSim(p: Program, c: Context, pool: seq<Value>, s: Config, st: State, fuel: nat)
    returns (n: nat, t: Config)
    requires Ready(c, s, st) && Placed(p, s.ip, GenStmt(ContinueStmt, c, pool))
    ensures Runs(p, ExitsOf(c, s.ip, |GenStmt(ContinueStmt, c, pool).code|, c.locals), s, Continued(st), n, t, fuel)
  {
    hide Step, Steps, Agree, Settled;
    var k := Above(c.locals, c.loop.level);
    var back := c.loop.distance + k + 3;
    HoldsSplit(p.code, s.ip, Pops(k), JumpCode(OP_LOOP, back));
    PopsStep(p, k, s);
    var s1 := s.(ip := s.ip + k, stack := s.stack[..|s.stack| - k]);
    LoopStep(p, back, s1);
    StepsCompose(p, s, k, 1);
    n, t := k + 1, s1.(ip := s.ip - c.loop.distance);
    LeaveScopes(c.locals, c.level, c.loop.level, s, st, t.ip);
  }

  lemma BoundaryDepth(locals: seq<Local>, level: nat, s: Config, st: State)
    requires Boundary(locals, level, s, st)
    ensures |st.scopes| == level + 1 && Settled(locals, level) && |s.stack| == |locals|
  {
  }

  lemma OuterLength(locals: seq<Local>, level: int)
    ensures |Outer(locals, level)| + Above(locals, level) == |locals|
  {
  }

  /** What a block makes of the result of its declarations. */
  lemma {:induction false} BlockFinish(p: Program, c: Context, s: Config, len: nat, locals: seq<Local>, r: Result,
      n: nat, t: Config, fuel: nat)
    returns (n2: nat, t2: Config)
    requires c.loop.InLoop? ==> c.loop.distance <= s.ip && c.loop.level < c.level
    requires Settled(c.locals, c.level) && Extends(locals, c.locals, c.level + 1)
    requires Runs(p, ExitsOf(c.(level := c.level + 1), s.ip, len, locals), s, r, n, t, fuel)
    requires Holds(p.code, s.ip + len, Pops(Above(locals, c.level)))
    ensures Runs(p, ExitsOf(c, s.ip, len + Above(locals, c.level), c.locals), s, UnwindResult(r, c.level + 1), n2,
      t2, fuel)
  {
    hide Step, Steps, Boundary, Holds, Settled, Extends, Outer, Above, Pops;
    n2, t2 := n, t;
    if r.Normal? {
      var k := Above(locals, c.level);
      BoundaryDepth(locals, c.level + 1, t, r.st);
      OuterLength(locals, c.level);
      PopsStep(p, k, t);
      StepsCompose(p, s, n, k);
      LeaveScopes(locals, c.level + 1, c.level, t, r.st, t.ip + k);
      OuterExtends(locals, c.locals, c.level + 1, c.level);
      OuterSelf(c.locals, c.level);
      n2, t2 := n + k, t.(ip := t.ip + k, stack := t.stack[..|t.stack| - k]);
    } else if r.Continued? {
      assert Unwind(Unwind(r.st, c.level + 1), c.loop.level + 1) == Unwind(r.st, c.loop.level + 1);
    }
  }

  lemma {:induction false} BlockExec(pr: Primitives, ds: seq<Decl>, st: State, fuel: nat)
    ensures Exec(pr, Block(ds), st, fuel) == UnwindResult(ExecAll(pr, ds, Push(st), fuel), |st.scopes|)
  {
    hide ExecAll;
  }

  lemma {:induction false} BlockSim(p: Program, ds: seq<Decl>, c: Context, pool: seq<Value>, s: Config, st: State,
      fuel: nat)
    returns (n: nat, t: Config)
    requires Ready(c, s, st) && Placed(p, s.ip, GenStmt(Block(ds), c, pool))
    ensures Runs(p, ExitsOf(c, s.ip, |GenStmt(Block(ds), c, pool).code|, c.locals), s, Exec(p.pr, Block(ds), st,
      fuel), n, t, fuel)
    decreases fuel, Block(ds), 0
  {
    hide Step, Steps, Boundary, Runs, GenStmt, GenDecls, Exec, ExecAll, Extends, Settled, Holds, Above, Pops, Outer;
    var inner := c.(level := c.level + 1);
    var g := GenDecls(ds, inner, pool);
    BlockShape(ds, c, pool);
    BlockExec(p.pr, ds, st, fuel);
    BoundaryDepth(c.locals, c.level, s, st);
    HoldsSplit(p.code, s.ip, g.code, Pops(Above(g.locals, c.level)));
    EnterScope(c.locals, c.level, s, st);
    DeclsSlots(ds, inner, pool);
    n, t := DeclsSim(p, ds, inner, pool, s, Push(st), fuel);
    n, t := BlockFinish(p, c, s, |g.code|, g.locals, ExecAll(p.pr, ds, Push(st), fuel), n, t, fuel);
  }

  lemma {:induction false} DeclsSim(p: Program, ds: seq<Decl>, c: Context, pool: seq<Value>, s: Config, st: State,
      fuel: nat)
    returns (n: nat, t: Config)
    requires Ready(c, s, st)
    requires GenDecls(ds, c, pool).DeclEmit?
    requires Holds(p.code, s.ip, GenDecls(ds, c, pool).code) && GenDecls(ds, c, pool).pool <= p.pool
    ensures var g := GenDecls(ds, c, pool);
      Runs(p, ExitsOf(c, s.ip, |g.code|, g.locals), s, ExecAll(p.pr, ds, st, fuel), n, t, fuel)
    decreases fuel, ds, 0
  {
    hide Step, Agree, GenDecl, ExecDecl, Extends, Settled, Outer;
    if ds == [] {
      n, t := 0, s;
    } else {
      hide Steps, Boundary;
      var init, last := ds[..|ds| - 1], ds[|ds| - 1];
      var g := GenDecls(init, c, pool);
      var c' := c.Past(|g.code|).(locals := g.locals);
      var h := GenDecl(last, c', g.pool);
      HoldsSplit(p.code, s.ip, g.code, h.code);
      DeclGrows(last, c', g.pool);
      n, t := DeclsSim(p, init, c, pool, s, st, fuel);
      var r := ExecAll(p.pr, init, st, fuel);
      assert Settled(c.locals, c.level) by { BoundarySettled(c.locals, c.level, s, st); }
      DeclsSlots(init, c, pool);
      if c.loop.InLoop? { OuterExtends(g.locals, c.locals, c.level, c.loop.level); }
      if r.Normal? {
        var m, t2 := DeclSim(p, last, c', g.pool, t, r.st, fuel);
        RunsAfter(p, ExitsOf(c', t.ip, |h.code|, h.locals), s, n, t, ExecDecl(p.pr, last, r.st, fuel), m, t2, fuel);
        n, t := n + m, t2;
      }
    }
  }

  lemma BoundarySettled(locals: seq<Local>, level: nat, s: Config, st: State)
    requires Boundary(locals, level, s, st)
    ensures Settled(locals, level)
  {
  }

  lemma {:induction false} DeclSim(p: Program, d: Decl, c: Context, pool: seq<Value>, s: Config, st: State, fuel: nat)
    returns (n: nat, t: Config)
    requires Ready(c, s, st)
    requires GenDecl(d, c, pool).DeclEmit?
    requires Holds(p.code, s.ip, GenDecl(d, c, pool).code) && GenDecl(d, c, pool).pool <= p.pool
    ensures var g := GenDecl(d, c, pool);
      Runs(p, ExitsOf(c, s.ip, |g.code|, g.locals), s, ExecDecl(p.pr, d, st, fuel), n, t, fuel)
    decreases fuel, d, 2
  {
    match d
    case Statement(x) => n, t := StmtSim(p, x, c, pool, s, st, fuel);
    case VarDecl(x, init) =>
      if c.level == 0 {
        n, t := GlobalSim(p, x, init, c, pool, s, st, fuel);
      } else {
        n, t := LocalSim(p, x, init, c, pool, s, st, fuel);
      }
  }

  /** The value an initializer leaves on the stack: nil when there is none. */
  function InitResult(pr: Primitives, init: Option<Expr>, st: State): ExprResult {
    if init.None? then Done(Value.Nil, st) else Eval(pr, init.value, st)
  }

  lemma {:induction false} InitSim(p: Program, init: Option<Expr>, locals: seq<Local>, pool: seq<Value>, s: Config,
      st: State)
    returns (n: nat, t: Config)
    requires Agree(locals, s, st)
    requires Placed(p, s.ip, GenInit(init, locals, pool))
    ensures Computes(p, locals, s, |GenInit(init, locals, pool).code|, InitResult(p.pr, init, st), n, t)
  {
    hide Step, Steps, Agree;
    match init
    case None =>
      assert GenInit(init, locals, pool) == LiteralCode(Value.Nil, pool);
      n := 1;
      t := LiteralSim(p, Value.Nil, locals, pool, s, st);
    case Some(e) => n, t := ExprSim(p, e, locals, pool, s, st);
  }

  lemma {:induction false} GlobalSim(p: Program, x: Ident, init: Option<Expr>, c: Context, pool: seq<Value>,
      s: Config, st: State, fuel: nat)
    returns (n: nat, t: Config)
    requires Ready(c, s, st) && c.level == 0
    requires GenDecl(VarDecl(x, init), c, pool).DeclEmit?
    requires Holds(p.code, s.ip, GenDecl(VarDecl(x, init), c, pool).code)
    requires GenDecl(VarDecl(x, init), c, pool).pool <= p.pool
    ensures var g := GenDecl(VarDecl(x, init), c, pool);
      Runs(p, ExitsOf(c, s.ip, |g.code|, g.locals), s, ExecDecl(p.pr, VarDecl(x, init), st, fuel), n, t, fuel)
  {
    hide Step, Steps, Match, Settled, Kept, GenExpr, Eval, WithConstant, AddConstant;
    var def := WithConstant(OP_DEFINE_GLOBAL, Str(x), pool);
    var g := GenInit(init, c.locals, def.pool);
    HoldsSplit(p.code, s.ip, g.code, def.code);
    InitGrows(init, c.locals, def.pool);
    n, t := InitSim(p, init, c.locals, def.pool, s, st);
    var r := InitResult(p.pr, init, st);
    if r.Done? {
      var t1 := t;
      t := DefineStep(p, x, pool, t1);
      StepsCompose(p, s, n, 1);
      assert t1.stack[..|t1.stack| - 1] == t1.stack[..|s.stack|];
      DefineGlobalAgrees(c.locals, x, r.v, s, st, t1, r.st, t.ip);
      n := n + 1;
    }
  }

  lemma InitGrows(init: Option<Expr>, locals: seq<Local>, pool: seq<Value>)
    ensures var g := GenInit(init, locals, pool); g.Emit? ==> pool <= g.pool
  {
    if init.Some? { ExprGrows(init.value, locals, pool); }
  }

  lemma DefineStep(p: Program, x: Ident, pool: seq<Value>, s: Config) returns (t: Config)
    requires Placed(p, s.ip, WithConstant(OP_DEFINE_GLOBAL, Str(x), pool)) && |s.stack| > 0
    ensures t == Config(s.ip + 2, s.stack[..|s.stack| - 1], s.globals[x := Top(s, 0)], s.output)
    ensures Steps(p, s, 1) == Running(t)
    ensures |WithConstant(OP_DEFINE_GLOBAL, Str(x), pool).code| == 2
  {
    var g := WithConstant(OP_DEFINE_GLOBAL, Str(x), pool);
    PoolIndex(OP_DEFINE_GLOBAL, Str(x), pool, p.pool);
    TwoBytes(p.code, s.ip, g.code[0], g.code[1]);
    t := Config(s.ip + 2, s.stack[..|s.stack| - 1], s.globals[x := Top(s, 0)], s.output);
    assert Steps(p, s, 1) == Step(p, s);
  }

  lemma {:induction false} LocalSim(p: Program, x: Ident, init: Option<Expr>, c: Context, pool: seq<Value>, s: Config,
      st: State, fuel: nat)
    returns (n: nat, t: Config)
    requires Ready(c, s, st) && c.level > 0
    requires GenDecl(VarDecl(x, init), c, pool).DeclEmit?
    requires Holds(p.code, s.ip, GenDecl(VarDecl(x, init), c, pool).code)
    requires GenDecl(VarDecl(x, init), c, pool).pool <= p.pool
    ensures var g := GenDecl(VarDecl(x, init), c, pool);
      Runs(p, ExitsOf(c, s.ip, |g.code|, g.locals), s, ExecDecl(p.pr, VarDecl(x, init), st, fuel), n, t, fuel)
  {
    hide Step, Steps, Match, Settled, Kept, GenExpr, Eval, Agree, AlreadyDeclared;
    BeginInit(c.locals, x, s, st);
    n, t := InitSim(p, init, c.locals + [Local(x, -1)], pool, s, st);
    var r := InitResult(p.pr, init, st);
    if r.Done? {
      EndInit(c.locals, c.level, x, r.v, t, r.st);
    }
  }

  // ----- branches -----

  lemma GuardLayout(code: seq<byte>, at: nat, op: byte, d: nat)
    requires Holds(code, at, JumpCode(op, d) + [OP_POP])
    ensures Holds(code, at, JumpCode(op, d)) && at + 4 <= |code| && code[at + 3] == OP_POP
  {
    HoldsSplit(code, at, JumpCode(op, d), [OP_POP]);
    assert code[at + 3] == code[at + 3..at + 4][0];
  }

  lemma IfLayout(code: seq<byte>, at: nat, c: seq<byte>, t: seq<byte>, e: seq<byte>)
    requires Holds(code, at, IfCode(c, t, e))
    ensures Holds(code, at, c)
    ensures Holds(code, at + |c|, JumpCode(OP_JUMP_IF_FALSE, |t| + 4) + [OP_POP])
    ensures Holds(code, at + |c| + 4, t)
    ensures var j := at + |c| + 4 + |t|;
      Holds(code, j, JumpCode(OP_JUMP, |e| + 1)) && j + 3 < |code| && code[j + 3] == OP_POP
    ensures Holds(code, at + |c| + 4 + |t| + 4, e)
    ensures |IfCode(c, t, e)| == |c| + 4 + |t| + 4 + |e|
  {
    var a := JumpCode(OP_JUMP_IF_FALSE, |t| + 4) + [OP_POP];
    var b := JumpCode(OP_JUMP, |e| + 1) + [OP_POP];
    HoldsSplit(code, at, c + a + t + b, e);
    HoldsSplit(code, at, c + a + t, b);
    HoldsSplit(code, at, c + a, t);
    HoldsSplit(code, at, c, a);
    GuardLayout(code, at + |c| + 4 + |t|, OP_JUMP, |e| + 1);
  }

  lemma {:induction false} IfThenExec(pr: Primitives, e: Expr, x: Stmt, st: State, fuel: nat)
    ensures var r := Eval(pr, e, st);
      Exec(pr, IfThen(e, x), st, fuel) ==
        if r.Fault? then Failed(r.st) else if IsFalsey(r.v) then Normal(r.st) else Exec(pr, x, r.st, fuel)
  {
    hide Eval;
  }

  lemma {:induction false} IfThenSim(p: Program, e: Expr, x: Stmt, c: Context, pool: seq<Value>, s: Config,
      st: State, fuel: nat)
    returns (n: nat, t: Config)
    requires Ready(c, s, st) && Placed(p, s.ip, GenStmt(IfThen(e, x), c, pool))
    ensures Runs(p, ExitsOf(c, s.ip, |GenStmt(IfThen(e, x), c, pool).code|, c.locals), s, Exec(p.pr, IfThen(e, x),
      st, fuel), n, t, fuel)
    decreases fuel, IfThen(e, x), 0
  {
    hide Step, Steps, Boundary, Agree, GenExpr, GenStmt, Eval, Exec, Holds, IfCode, JumpCode, Outer, Runs;
    BoundaryAgrees(c.locals, c.level, s, st);
    IfThenShape(e, x, c, pool);
    IfThenExec(p.pr, e, x, st, fuel);
    var exits := ExitsOf(c, s.ip, |GenStmt(IfThen(e, x), c, pool).code|, c.locals);
    var g := GenExpr(e, c.locals, pool);
    var h := GenStmt(x, c.Past(|g.code| + 4), g.pool);
    IfLayout(p.code, s.ip, g.code, h.code, []);
    StmtGrows(x, c.Past(|g.code| + 4), g.pool);
    n, t := ExprSim(p, e, c.locals, pool, s, st);
    var r := Eval(p.pr, e, st);
    if r.Fault? {
      RunsFault(p, c.locals, exits, s, |g.code|, r, n, t, fuel);
    } else {
      var d := |h.code| + 4;
      assert t.ip == s.ip + |g.code|;
      if IsFalsey(r.v) {
        t := CondFalse(p, d, c.locals, c.level, s, st, |g.code|, r.v, r.st, n, t);
        n := n + 2;
        RunsNormal(p, exits, s, r.st, n, t, fuel);
      } else {
        t := CondTrue(p, d, c.locals, c.level, s, st, |g.code|, r.v, r.st, n, t);
        var m, t2 := StmtSim(p, x, c.Past(|g.code| + 4), g.pool, t, r.st, fuel);
        n, t := ThenBranch(p, c, s, n + 2, t, |g.code| + 4, |h.code|, [], Exec(p.pr, x, r.st, fuel), m, t2, fuel);
      }
    }
  }

  lemma RunsNormal(p: Program, x: Exits, s: Config, st: State, n: nat, t: Config, fuel: nat)
    requires Steps(p, s, n) == Running(t) && t.ip == x.end && Boundary(x.locals, x.level, t, st)
    ensures Runs(p, x, s, Normal(st), n, t, fuel)
  {
  }

  /** A branch reached after `n` steps, `skip` bytes into the statement, and the jump over the
      other branch after it. */
  lemma ThenBranch(p: Program, c: Context, s: Config, n: nat, t: Config, skip: nat, len: nat, other: seq<byte>,
                   r: Result, m: nat, t2: Config, fuel: nat)
    returns (n3: nat, t3: Config)
    requires c.loop.InLoop? ==> c.loop.distance <= s.ip
    requires Steps(p, s, n) == Running(t) && t.ip == s.ip + skip
    requires Runs(p, ExitsOf(c.Past(skip), t.ip, len, c.locals), t, r, m, t2, fuel)
    requires |other| + 1 <= UINT16_MAX && Holds(p.code, t.ip + len, JumpCode(OP_JUMP, |other| + 1))
    ensures Runs(p, ExitsOf(c, s.ip, skip + len + 4 + |other|, c.locals), s, r, n3, t3, fuel)
  {
    hide Step, Steps, Boundary, Holds, JumpCode, Outer;
    var x, y := ExitsOf(c.Past(skip), t.ip, len, c.locals), ExitsOf(c, s.ip, skip + len + 4 + |other|, c.locals);
    RunsAfter(p, x, s, n, t, r, m, t2, fuel);
    if r.Normal? { JumpStep(p, |other| + 1, t2); }
    ThenGoto(p, x, y, s, r, n + m, t2, fuel);
    n3, t3 := if r.Normal? then n + m + 1 else n + m, if r.Normal? then t2.(ip := y.end) else t2;
  }

  lemma {:induction false} IfElseExec(pr: Primitives, e: Expr, x: Stmt, y: Stmt, st: State, fuel: nat)
    ensures var r := Eval(pr, e, st);
      Exec(pr, IfElse(e, x, y), st, fuel) ==
        if r.Fault? then Failed(r.st)
        else if IsFalsey(r.v) then Exec(pr, y, r.st, fuel) else Exec(pr, x, r.st, fuel)
  {
    hide Eval;
  }

  lemma {:induction false} IfElseSim(p: Program, e: Expr, x: Stmt, y: Stmt, c: Context, pool: seq<Value>, s: Config,
      st: State, fuel: nat)
    returns (n: nat, t: Config)
    requires Ready(c, s, st) && Placed(p, s.ip, GenStmt(IfElse(e, x, y), c, pool))
    ensures Runs(p, ExitsOf(c, s.ip, |GenStmt(IfElse(e, x, y), c, pool).code|, c.locals), s, Exec(p.pr, IfElse(e, x,
      y), st, fuel), n, t, fuel)
    decreases fuel, IfElse(e, x, y), 0
  {
    hide Step, Steps, Boundary, Agree, GenExpr, GenStmt, Eval, Exec, Holds, IfCode, JumpCode, Outer, Runs;
    BoundaryAgrees(c.locals, c.level, s, st);
    IfElseShape(e, x, y, c, pool);
    IfElseExec(p.pr, e, x, y, st, fuel);
    var g := GenExpr(e, c.locals, pool);
    var h := GenStmt(x, c.Past(|g.code| + 4), g.pool);
    var skip := |g.code| + 4 + |h.code| + 4;
    var f := GenStmt(y, c.Past(skip), h.pool);
    IfLayout(p.code, s.ip, g.code, h.code, f.code);
    StmtGrows(x, c.Past(|g.code| + 4), g.pool);
    StmtGrows(y, c.Past(skip), h.pool);
    n, t := ExprSim(p, e, c.locals, pool, s, st);
    var r := Eval(p.pr, e, st);
    if r.Fault? {
      RunsFault(p, c.locals, ExitsOf(c, s.ip, |GenStmt(IfElse(e, x, y), c, pool).code|, c.locals), s, |g.code|, r, n,
        t, fuel);
    } else {
      var d := |h.code| + 4;
      assert t.ip == s.ip + |g.code|;
      if IsFalsey(r.v) {
        t := CondFalse(p, d, c.locals, c.level, s, st, |g.code|, r.v, r.st, n, t);
        var m, t2 := StmtSim(p, y, c.Past(skip), h.pool, t, r.st, fuel);
        RunsAfter(p, ExitsOf(c.Past(skip), t.ip, |f.code|, c.locals), s, n + 2, t, Exec(p.pr, y, r.st, fuel), m,
          t2, fuel);
        n, t := n + 2 + m, t2;
      } else {
        t := CondTrue(p, d, c.locals, c.level, s, st, |g.code|, r.v, r.st, n, t);
        var m, t2 := StmtSim(p, x, c.Past(|g.code| + 4), g.pool, t, r.st, fuel);
        n, t := ThenBranch(p, c, s, n + 2, t, |g.code| + 4, |h.code|, f.code, Exec(p.pr, x, r.st, fuel), m, t2, fuel);
      }
    }
  }

  // ----- loops -----

  lemma WhileLayout(code: seq<byte>, at: nat, c: seq<byte>, b: seq<byte>)
    requires Holds(code, at, WhileCode(c, b))
    ensures Holds(code, at, c)
    ensures Holds(code, at + |c|, JumpCode(OP_JUMP_IF_FALSE, |b| + 4) + [OP_POP])
    ensures Holds(code, at + |c| + 4, b)
    ensures var j := at + |c| + 4 + |b|;
      Holds(code, j, JumpCode(OP_LOOP, |c| + |b| + 7)) && j + 3 < |code| && code[j + 3] == OP_POP
    ensures |WhileCode(c, b)| == |c| + 4 + |b| + 4
  {
    var x := JumpCode(OP_JUMP_IF_FALSE, |b| + 4) + [OP_POP];
    var y := JumpCode(OP_LOOP, |c| + |b| + 7) + [OP_POP];
    HoldsSplit(code, at, c + x + b, y);
    HoldsSplit(code, at, c + x, b);
    HoldsSplit(code, at, c, x);
    GuardLayout(code, at + |c| + 4 + |b|, OP_LOOP, |c| + |b| + 7);
  }

  /** The end of one iteration, normal or by `continue`: back at the top of the loop. */
  lemma {:induction false} BackToTop(p: Program, c: Context, s: Config, n: nat, t: Config, ce: nat, cb: nat,
      r: Result, m: nat, t2: Config, fuel: nat)
    returns (n3: nat, t3: Config)
    requires Settled(c.locals, c.level)
    requires Steps(p, s, n) == Running(t) && t.ip == s.ip + ce + 4
    requires Runs(p, ExitsOf(LoopContext(c, ce), t.ip, cb, c.locals), t, r, m, t2, fuel)
    requires r.Normal? || r.Continued?
    requires ce + cb + 7 <= UINT16_MAX && Holds(p.code, t.ip + cb, JumpCode(OP_LOOP, ce + cb + 7))
    ensures Steps(p, s, n3) == Running(t3) && n3 >= n && t3.ip == s.ip
    ensures Boundary(c.locals, c.level, t3, Unwind(r.st, c.level + 1))
  {
    hide Step, Steps, Agree, Holds, JumpCode, Settled;
    StepsCompose(p, s, n, m);
    OuterSelf(c.locals, c.level);
    n3, t3 := n + m, t2;
    if r.Normal? {
      LoopStep(p, ce + cb + 7, t2);
      StepsCompose(p, s, n + m, 1);
      LeaveScopes(c.locals, c.level + 1, c.level, t2, r.st, s.ip);
      n3, t3 := n + m + 1, t2.(ip := s.ip);
      assert t2.stack[..|c.locals|] == t2.stack;
    }
  }

  lemma {:induction false} WhileExec(pr: Primitives, e: Expr, b: Stmt, st: State, fuel: nat)
    requires fuel > 0
    ensures var r := Eval(pr, e, Push(st));
      Exec(pr, WhileLoop(e, b), st, fuel) ==
        if r.Fault? then Failed(r.st)
        else if IsFalsey(r.v) then Normal(Unwind(r.st, |st.scopes|))
        else
          var q := UnwindResult(Exec(pr, b, r.st, fuel), |st.scopes|);
          if q.Failed? || q.OutOfFuel? then q else Exec(pr, WhileLoop(e, b), q.st, fuel - 1)
  {
    hide Eval;
  }

  lemma NoFuel(p: Program, e: Expr, b: Stmt, x: Exits, s: Config, st: State)
    ensures Runs(p, x, s, Exec(p.pr, WhileLoop(e, b), st, 0), 0, s, 0)
  {
  }

  lemma {:induction false} WhileSim(p: Program, e: Expr, b: Stmt, c: Context, pool: seq<Value>, s: Config, st: State,
      fuel: nat)
    returns (n: nat, t: Config)
    requires Ready(c, s, st) && Placed(p, s.ip, GenStmt(WhileLoop(e, b), c, pool))
    ensures Runs(p, ExitsOf(c, s.ip, |GenStmt(WhileLoop(e, b), c, pool).code|, c.locals), s, Exec(p.pr, WhileLoop(e,
      b), st, fuel), n, t, fuel)
    decreases fuel, WhileLoop(e, b), 0
  {
    hide Step, Steps, Boundary, Agree, GenExpr, GenStmt, Eval, Exec, Holds, WhileCode, JumpCode, Outer, Settled, Runs;
    var x := ExitsOf(c, s.ip, |GenStmt(WhileLoop(e, b), c, pool).code|, c.locals);
    if fuel == 0 {
      NoFuel(p, e, b, x, s, st);
      return 0, s;
    }
    WhileShape(e, b, c, pool);
    WhileExec(p.pr, e, b, st, fuel);
    BoundaryDepth(c.locals, c.level, s, st);
    var g := GenExpr(e, c.locals, pool);
    var h := GenStmt(b, LoopContext(c, |g.code|), g.pool);
    WhileLayout(p.code, s.ip, g.code, h.code);
    StmtGrows(b, LoopContext(c, |g.code|), g.pool);
    EnterScope(c.locals, c.level, s, st);
    BoundaryAgrees(c.locals, c.level + 1, s, Push(st));
    n, t := ExprSim(p, e, c.locals, pool, s, Push(st));
    var r := Eval(p.pr, e, Push(st));
    if r.Fault? {
      RunsFault(p, c.locals, x, s, |g.code|, r, n, t, fuel);
    } else if IsFalsey(r.v) {
      t := CondFalse(p, |h.code| + 4, c.locals, c.level + 1, s, Push(st), |g.code|, r.v, r.st, n, t);
      LoopLeft(p, x, c.locals, c.level, s, n + 2, t, r.st, fuel);
      n := n + 2;
    } else {
      t := CondTrue(p, |h.code| + 4, c.locals, c.level + 1, s, Push(st), |g.code|, r.v, r.st, n, t);
      n, t := Iteration(p, e, b, c, pool, s, st, n + 2, t, r.st, fuel);
    }
  }

  /** The condition was false: the loop's own scope is left. */
  lemma LoopLeft(p: Program, x: Exits, locals: seq<Local>, level: nat, s: Config, n: nat, t: Config, st: State,
      fuel: nat)
    requires Steps(p, s, n) == Running(t) && Boundary(locals, level + 1, t, st) && Settled(locals, level)
    requires x.end == t.ip && x.locals == locals && x.level == level
    ensures Runs(p, x, s, Normal(Unwind(st, level + 1)), n, t, fuel)
  {
    hide Steps, Boundary;
    LeaveSame(locals, level, t, st);
  }

  /** The condition was true: the body, and from the top of the loop the rest of the iterations. */
  lemma {:induction false} Iteration(p: Program, e: Expr, b: Stmt, c: Context, pool: seq<Value>, s: Config, st: State,
                                     n: nat, t: Config, st1: State, fuel: nat)
    returns (n2: nat, t2: Config)
    requires Ready(c, s, st) && Placed(p, s.ip, GenStmt(WhileLoop(e, b), c, pool)) && fuel > 0 && n > 0
    requires Steps(p, s, n) == Running(t) && t.ip == s.ip + |GenExpr(e, c.locals, pool).code| + 4
    requires Boundary(c.locals, c.level + 1, t, st1)
    ensures var q := UnwindResult(Exec(p.pr, b, st1, fuel), |st.scopes|);
      Runs(p, ExitsOf(c, s.ip, |GenStmt(WhileLoop(e, b), c, pool).code|, c.locals), s,
        if q.Failed? || q.OutOfFuel? then q else Exec(p.pr, WhileLoop(e, b), q.st, fuel - 1), n2, t2, fuel)
    decreases fuel, b, 2
  {
    hide Step, Steps, Boundary, Agree, GenExpr, GenStmt, Eval, Exec, Holds, WhileCode, JumpCode, Outer, Settled, Runs;
    WhileShape(e, b, c, pool);
    var x := ExitsOf(c, s.ip, |GenStmt(WhileLoop(e, b), c, pool).code|, c.locals);
    var g := GenExpr(e, c.locals, pool);
    var inside := LoopContext(c, |g.code|);
    var h := GenStmt(b, inside, g.pool);
    BoundaryDepth(c.locals, c.level, s, st);
    WhileLayout(p.code, s.ip, g.code, h.code);
    var m, t1 := StmtSim(p, b, inside, g.pool, t, st1, fuel);
    var q := Exec(p.pr, b, st1, fuel);
    if q.Normal? || q.Continued? {
      var n3, t3 := BackToTop(p, c, s, n, t, |g.code|, |h.code|, q, m, t1, fuel);
      var st3 := Unwind(q.st, c.level + 1);
      var m4, t4 := WhileSim(p, e, b, c, pool, t3, st3, fuel - 1);
      Iterated(p, x, s, n3, t3, Exec(p.pr, WhileLoop(e, b), st3, fuel - 1), m4, t4, fuel);
      n2, t2 := n3 + m4, t4;
    } else {
      RunsAfter(p, ExitsOf(inside, t.ip, |h.code|, c.locals), s, n, t, q, m, t1, fuel);
      n2, t2 := n + m, t1;
      Abandoned(p, ExitsOf(inside, t.ip, |h.code|, c.locals), x, s, q, n2, t2, fuel);
    }
  }

  /** A failure, or the end of the fuel, does not depend on where the code can be left. */
  lemma Abandoned(p: Program, x: Exits, y: Exits, s: Config, r: Result, n: nat, t: Config, fuel: nat)
    requires Runs(p, x, s, r, n, t, fuel) && (r.Failed? || r.OutOfFuel?)
    ensures Runs(p, y, s, r, n, t, fuel)
  {
  }

  /** An iteration costs at least one step, so fuel bounds the steps from below. */
  lemma {:induction false} Iterated(p: Program, x: Exits, s: Config, n: nat, t: Config, r: Result, m: nat, t2: Config,
      fuel: nat)
    requires fuel > 0 && n > 0
    requires Steps(p, s, n) == Running(t) && Runs(p, x, t, r, m, t2, fuel - 1)
    ensures Runs(p, x, s, r, n + m, t2, fuel)
  {
    hide Steps, Boundary;
    StepsCompose(p, s, n, m);
  }

  lemma LeaveSame(locals: seq<Local>, level: nat, s: Config, st: State)
    requires Boundary(locals, level + 1, s, st) && Settled(locals, level)
    ensures Boundary(locals, level, s, Unwind(st, level + 1))
  {
    LeaveScopes(locals, level + 1, level, s, st, s.ip);
    OuterSelf(locals, level);
    assert s.stack[..|locals|] == s.stack;
  }

  /** The main lemma on statements. */
  lemma {:induction false} StmtSim(p: Program, x: Stmt, c: Context, pool: seq<Value>, s: Config, st: State, fuel: nat)
    returns (n: nat, t: Config)
    requires Ready(c, s, st) && Placed(p, s.ip, GenStmt(x, c, pool))
    ensures Runs(p, ExitsOf(c, s.ip, |GenStmt(x, c, pool).code|, c.locals), s, Exec(p.pr, x, st, fuel), n, t, fuel)
    decreases fuel, x, 1
  {
    hide GenStmt, Runs, Ready, Placed;
    match x
    case Expression(e) => n, t := SimpleSim(p, x, e, c, pool, s, st, fuel);
    case PrintStmt(e) => n, t := SimpleSim(p, x, e, c, pool, s, st, fuel);
    case Block(ds) => n, t := BlockSim(p, ds, c, pool, s, st, fuel);
    case IfThen(e, a) => n, t := IfThenSim(p, e, a, c, pool, s, st, fuel);
    case IfElse(e, a, b) => n, t := IfElseSim(p, e, a, b, c, pool, s, st, fuel);
    case WhileLoop(e, b) => n, t := WhileSim(p, e, b, c, pool, s, st, fuel);
    case ContinueStmt => n, t := ContinueSim(p, c, pool, s, st, fuel);
  }
}
