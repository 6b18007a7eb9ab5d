/** The statements without statements inside, conditions and the ends of scopes, in a script with functions. */
module SimpleRuns {
  import opened Values
  import opened Bytecode
  import opened Functions
  import opened Meaning
  import opened Agreement
  import opened Engine
  import opened Running
  import opened ExprRuns
  import opened Boundaries
  import CellMachine
  import Codegen
  import Discipline
  import Lexical
  import SoundCode

  // ----- expressions as statements -----

  lemma {:induction false} SimpleShape(w: World, x: Statement, e: Expr, at: Spot, pool: seq<Constant>, chain: Chain,
      env: Env, st: State, fuel: nat, depth: nat)
    requires depth <= DEEPEST && (x == Do(e) || x == Statement.Print(e))
    ensures MakeStmt(x, at, pool, chain) ==
      MakeExpr(e, pool, chain).Append([if x.Do? then OP_POP else OP_PRINT])
    ensures Exec(w, x, env, st, fuel, depth) ==
      var r := Eval(w, e, env, st, fuel, depth);
      if !r.Done? then Abort(r)
      else Normal(env, if x.Do? then r.st else r.st.(output := r.st.output + [r.v]))
  {
    hide MakeExpr, Eval;
  }

  lemma PrintMirrors(s: Config, st: State, m: seq<nat>, v: Datum)
    requires Mirrors(s, st, m)
    ensures Mirrors(s.(output := s.output + [v]), st.(output := st.output + [v]), m)
  {
    hide RoutinesMatch, StoreMatch;
  }

  lemma KeepsOutput(s: Config, t: Config, m: seq<nat>, n: seq<nat>, output: seq<Datum>)
    requires Keeps(s, t, m, n)
    ensures Keeps(s, t.(output := output), m, n)
  {
  }

  lemma {:induction false} PlainRuns(w: World, c: Scene, at: Spot, x: Statement, e: Expr, s: Config, st: State,
      m: seq<nat>, fuel: nat)
    returns (k: nat, t: Config, n: seq<nat>)
    requires x == Do(e) || x == Statement.Print(e)
    requires Begins(c, s, st, m) && Callable(w, c.depth) && Ahead(c.h, Ip(s), MakeStmt(x, at, c.pool, c.chain))
    ensures Runs(w, c, at, |MakeStmt(x, at, c.pool, c.chain).code|, s, m, Exec(w, x, c.Env(), st, fuel, c.depth), k, t,
      n, fuel)
  {
    hide Mirrors, Steps, StateOk, OwnMatch, OuterMatch, Callable, KeepsHeap, SoundCode.Ready, MakeExpr, MakeStmt, Exec,
      Eval, Toward;
    SimpleShape(w, x, e, at, c.pool, c.chain, c.Env(), st, fuel, c.depth);
    var g, op := MakeExpr(e, c.pool, c.chain), if x.Do? then OP_POP else OP_PRINT;
    HoldsSplit(c.h.f.code, Ip(s), g.code, [op]);
    k, t, n := ExprRuns.ExprRuns(w, c, e, s, st, m, fuel);
    var r := Eval(w, e, c.Env(), st, fuel, c.depth);
    if r.Done? {
      PushedKeeps(s, t, n, r.v);
      PushedPeek(s, t, n, r.v);
      InKept(c.h, s, t, m, n);
      SimpleAt(w, t, c.h, op);
      StepsCompose(w, s, k, 1);
      var u := Popped(t, Ip(t) + 1, 1);
      PopMirrors(t, r.st, n, Ip(t) + 1, 1);
      KeepsOn(s, t, u, m, n, n);
      k, t := k + 1, u;
      if x.Print? {
        PrintMirrors(u, r.st, n, r.v);
        KeepsOutput(s, u, m, n, u.output + [r.v]);
        t := u.(output := u.output + [r.v]);
      }
    } else {
      ExprLeaves(w, c, at, s, m, |g.code|, r, k, t, n, fuel, |g.code| + 1);
    }
  }

  // ----- jumps -----

  lemma {:induction false} PopsRun(w: World, h: Here, d: nat, s: Config, st: State, m: seq<nat>)
    returns (t: Config)
    requires In(h, s) && Mirrors(s, st, m) && d <= Height(s) - Base(s) && Holds(h.f.code, Ip(s), Codegen.Pops(d))
    ensures Steps(w, s, d) == Running(t) && Keeps(s, t, m, m) && Mirrors(t, st, m) && In(h, t)
    ensures Ip(t) == Ip(s) + d && t.cells.locals == s.cells.locals[..Height(s) - d]
    decreases d
  {
    hide Mirrors, Steps, KeepsHeap;
    if d == 0 {
      t := s;
      ZeroSteps(w, s);
      KeepsSelf(s, m);
      assert s.cells.locals[..Height(s)] == s.cells.locals;
    } else {
      assert Codegen.Pops(d) == [OP_POP] + Codegen.Pops(d - 1);
      HoldsSplit(h.f.code, Ip(s), [OP_POP], Codegen.Pops(d - 1));
      SimpleAt(w, s, h, OP_POP);
      var u := Popped(s, Ip(s) + 1, 1);
      PopMirrors(s, st, m, Ip(s) + 1, 1);
      InKept(h, s, u, m, m);
      t := PopsRun(w, h, d - 1, u, st, m);
      StepsCompose(w, s, 1, d - 1);
      KeepsOn(s, u, t, m, m, m);
      assert u.cells.locals[..Height(u) - (d - 1)] == s.cells.locals[..Height(s) - d];
    }
  }

  lemma {:induction false} LoopsBack(w: World, h: Here, d: nat, s: Config, st: State, m: seq<nat>)
    returns (t: Config)
    requires In(h, s) && Mirrors(s, st, m) && d <= UINT16_MAX && d <= Ip(s) + 3
    requires Holds(h.f.code, Ip(s), Codegen.JumpCode(OP_LOOP, d))
    ensures Steps(w, s, 1) == Running(t) && Keeps(s, t, m, m) && Mirrors(t, st, m) && In(h, t)
    ensures Ip(t) == Ip(s) + 3 - d && t.cells == s.cells
  {
    hide Mirrors, Steps, KeepsHeap, Codegen.JumpCode;
    JumpAt(w, s, h, OP_LOOP, d);
    t := At(s, Ip(s) + 3 - d);
    AtMirrors(s, st, m, Ip(s) + 3 - d);
    InKept(h, s, t, m, m);
  }

  lemma {:induction false} ContinueRuns(w: World, c: Scene, at: Spot, s: Config, st: State, m: seq<nat>, fuel: nat)
    returns (k: nat, t: Config, n: seq<nat>)
    requires Stands(c, at, s, st, m) && Ahead(c.h, Ip(s), MakeStmt(Statement.Continue, at, c.pool, c.chain))
    ensures Runs(w, c, at, |MakeStmt(Statement.Continue, at, c.pool, c.chain).code|, s, m, Continued(st), k, t, n, fuel)
  {
    hide Mirrors, Steps, StateOk, OwnMatch, OuterMatch, KeepsHeap, SoundCode.Ready, Toward, Deeper, Codegen.JumpCode,
      Codegen.Pops, Discipline.Scoped;
    var locals := c.chain[0].locals;
    var d := Deeper(locals, at.loop.level);
    var back := at.loop.distance + d + 3;
    HoldsSplit(c.h.f.code, Ip(s), Codegen.Pops(d), Codegen.JumpCode(OP_LOOP, back));
    t := PopsRun(w, c.h, d, s, st, m);
    var u := LoopsBack(w, c.h, back, t, st, m);
    StepsCompose(w, s, d, 1);
    KeepsOn(s, t, u, m, m, m);
    k, t, n := d + 1, u, m;
  }

  /** The jump over the second branch. */
  lemma {:induction false} SkipsElse(w: World, h: Here, d: nat, s: Config, st: State, m: seq<nat>)
    returns (t: Config)
    requires In(h, s) && Mirrors(s, st, m) && d <= UINT16_MAX && Holds(h.f.code, Ip(s), Codegen.JumpCode(OP_JUMP, d))
    ensures Steps(w, s, 1) == Running(t) && Keeps(s, t, m, m) && Mirrors(t, st, m)
    ensures Ip(t) == Ip(s) + 3 + d && t.cells == s.cells
  {
    hide Mirrors, Steps, KeepsHeap, Codegen.JumpCode;
    JumpAt(w, s, h, OP_JUMP, d);
    t := At(s, Ip(s) + 3 + d);
    AtMirrors(s, st, m, Ip(s) + 3 + d);
  }

  // ----- returns -----

  lemma {:induction false} ReturnShape(w: World, value: Option<Expr>, at: Spot, pool: seq<Constant>, chain: Chain,
      env: Env, st: State, fuel: nat, depth: nat)
    requires depth <= DEEPEST
    ensures var g := MakeInit(value, pool, chain);
      MakeStmt(Statement.Return(value), at, pool, chain) ==
        if |chain| == 1 then Functions.Failed else g.Append([OP_RETURN])
    ensures var r := InitValue(w, value, env, st, fuel, depth);
      Exec(w, Statement.Return(value), env, st, fuel, depth) ==
        if !r.Done? then Abort(r) else Meaning.Returned(r.v, r.st)
  {
    hide MakeExpr, Eval;
  }

  /** The value of an initializer or a return: nil when there is none. */
  function InitValue(w: World, init: Option<Expr>, env: Env, st: State, fuel: nat, depth: nat): ExprResult
    requires depth <= DEEPEST
  {
    if init.None? then Done(Basic(Value.Nil), st) else Eval(w, init.value, env, st, fuel, depth)
  }

  lemma {:induction false} InitRuns(w: World, c: Scene, init: Option<Expr>, s: Config, st: State, m: seq<nat>,
      fuel: nat)
    returns (k: nat, t: Config, n: seq<nat>)
    requires Begins(c, s, st, m) && Callable(w, c.depth) && Ahead(c.h, Ip(s), MakeInit(init, c.pool, c.chain))
    ensures Computes(w, s, m, |MakeInit(init, c.pool, c.chain).code|, InitValue(w, init, c.Env(), st, fuel, c.depth), k,
      t, n, fuel)
  {
    hide Mirrors, Steps, StateOk, OwnMatch, OuterMatch, Callable, KeepsHeap, SoundCode.Ready, MakeExpr, Eval, Toward;
    if init.None? {
      assert MakeInit(init, c.pool, c.chain) == MakeLiteral(Value.Nil, c.pool, c.chain);
      k, n := 1, m;
      t := LiteralRuns(w, c.h, Value.Nil, c.pool, c.chain, s, st, m, fuel);
    } else {
      k, t, n := ExprRuns.ExprRuns(w, c, init.value, s, st, m, fuel);
    }
  }

  lemma InitOk(w: World, init: Option<Expr>, env: Env, st: State, fuel: nat, depth: nat)
    requires depth <= DEEPEST && StateOk(st)
    ensures ExprOk(st, InitValue(w, init, env, st, fuel, depth))
  {
    hide Eval;
    if init.Some? { EvalOk(w, init.value, env, st, fuel, depth); }
  }

  /** The slots of the call give way to the value on top. */
  lemma {:induction false} ReturnsNow(w: World, h: Here, s: Config, st: State, m: seq<nat>, v: Datum)
    returns (t: Config)
    requires In(h, s) && Mirrors(s, st, m) && Base(s) < Height(s) && |s.cells.frames| > 1 && Peek(s, 0) == v
    requires Holds(h.f.code, Ip(s), [OP_RETURN])
    ensures Steps(w, s, 1) == Running(t) && Mirrors(t, st, m) && Gone(s, m, v, t, m)
  {
    hide Steps, RoutinesMatch, StoreMatch;
    SimpleAt(w, s, h, OP_RETURN);
    var below := s.cells.(locals := s.cells.locals[..Base(s)], frames := s.cells.frames[..|s.cells.frames| - 1]);
    t := s.(cells := CellMachine.Grow(below, v), ips := s.ips[..|s.ips| - 1]);
    GrownStore(s.cells.store, st.store, m, v);
  }

  lemma {:induction false} ReturnRuns(w: World, c: Scene, at: Spot, value: Option<Expr>, s: Config, st: State,
      m: seq<nat>, fuel: nat)
    returns (k: nat, t: Config, n: seq<nat>)
    requires Begins(c, s, st, m) && Callable(w, c.depth) && |s.cells.frames| > 1
    requires Ahead(c.h, Ip(s), MakeStmt(Statement.Return(value), at, c.pool, c.chain))
    ensures Runs(w, c, at, |MakeStmt(Statement.Return(value), at, c.pool, c.chain).code|, s, m,
      Exec(w, Statement.Return(value), c.Env(), st, fuel, c.depth), k, t, n, fuel)
  {
    hide Mirrors, Steps, StateOk, OwnMatch, OuterMatch, Callable, KeepsHeap, SoundCode.Ready, MakeInit, MakeStmt, Exec,
      InitValue, Toward;
    ReturnShape(w, value, at, c.pool, c.chain, c.Env(), st, fuel, c.depth);
    var g := MakeInit(value, c.pool, c.chain);
    HoldsSplit(c.h.f.code, Ip(s), g.code, [OP_RETURN]);
    k, t, n := InitRuns(w, c, value, s, st, m, fuel);
    var r := InitValue(w, value, c.Env(), st, fuel, c.depth);
    if r.Done? {
      PushedKeeps(s, t, n, r.v);
      PushedPeek(s, t, n, r.v);
      InKept(c.h, s, t, m, n);
      var u := ReturnsNow(w, c.h, t, r.st, n, r.v);
      StepsCompose(w, s, k, 1);
      assert t.cells.locals[..Base(s)] == s.cells.locals[..Base(s)];
      GoneAfter(s, t, m, n, r.v, u, n);
      k, t := k + 1, u;
    } else {
      ExprLeaves(w, c, at, s, m, |g.code|, r, k, t, n, fuel, |g.code| + 1);
    }
  }

  // ----- conditions -----

  /** A condition with the jump past what it guards: its value is popped on both ways. */
  lemma {:induction false} CondRuns(w: World, c: Scene, e: Expr, d: nat, s: Config, st: State, m: seq<nat>, fuel: nat)
    returns (k: nat, t: Config, n: seq<nat>)
    requires Begins(c, s, st, m) && Callable(w, c.depth) && Ahead(c.h, Ip(s), MakeExpr(e, c.pool, c.chain))
    requires d <= UINT16_MAX
    requires var len := |MakeExpr(e, c.pool, c.chain).code|;
      && Holds(c.h.f.code, Ip(s) + len, Codegen.JumpCode(OP_JUMP_IF_FALSE, d) + [OP_POP])
      && Holds(c.h.f.code, Ip(s) + len + 3 + d, [OP_POP])
    ensures var len, r := |MakeExpr(e, c.pool, c.chain).code|, Eval(w, e, c.Env(), st, fuel, c.depth);
      if r.Done? then
        && k >= 1 && Steps(w, s, k) == Running(t) && Keeps(s, t, m, n) && Mirrors(t, r.st, n) && StateOk(r.st)
        && t.cells.locals == s.cells.locals && Ip(t) == Ip(s) + len + 4 + if Untrue(r.v) then d else 0
      else Computes(w, s, m, len, r, k, t, n, fuel)
  {
    hide Mirrors, Steps, StateOk, OwnMatch, OuterMatch, Callable, KeepsHeap, SoundCode.Ready, MakeExpr, Eval, Toward,
      Codegen.JumpCode;
    k, t, n := ExprRuns.ExprRuns(w, c, e, s, st, m, fuel);
    var r := Eval(w, e, c.Env(), st, fuel, c.depth);
    if r.Done? {
      EvalOk(w, e, c.Env(), st, fuel, c.depth);
      PushedKeeps(s, t, n, r.v);
      PushedPeek(s, t, n, r.v);
      InKept(c.h, s, t, m, n);
      var j, u := GuardRuns(w, c.h, OP_JUMP_IF_FALSE, d, t, r.st, n);
      StepsCompose(w, s, k, j);
      KeepsOn(s, t, u, m, n, n);
      k := k + j;
      if Untrue(r.v) {
        SimpleAt(w, u, c.h, OP_POP);
        StepsCompose(w, s, k, 1);
        var x := Popped(u, Ip(u) + 1, 1);
        PopMirrors(u, r.st, n, Ip(u) + 1, 1);
        KeepsOn(s, u, x, m, n, n);
        k, t := k + 1, x;
      } else {
        NotNothing(w, s, k, u);
        t := u;
      }
      assert t.cells.locals == s.cells.locals;
    }
  }

  lemma NotNothing(w: World, s: Config, k: nat, t: Config)
    requires Steps(w, s, k) == Running(t) && t != s
    ensures k >= 1
  {
  }

  // ----- ends of scopes -----

  /** The end of a scope pops or closes its slots. */
  lemma {:induction false} EndsRun(w: World, h: Here, locals: seq<Lexical.Local>, level: int, s: Config, st: State,
      m: seq<nat>)
    returns (t: Config)
    requires In(h, s) && Mirrors(s, st, m) && |locals| <= Height(s) - Base(s)
    requires Holds(h.f.code, Ip(s), EndLocals(locals, level))
    ensures var d := Deeper(locals, level);
      && Steps(w, s, d) == Running(t) && Keeps(s, t, m, m) && Mirrors(t, st, m)
      && Ip(t) == Ip(s) + d && t.cells.locals == s.cells.locals[..Height(s) - d]
    decreases |locals|
  {
    hide Mirrors, Steps, KeepsHeap;
    if locals == [] || locals[|locals| - 1].level <= level {
      t := s;
      ZeroSteps(w, s);
      KeepsSelf(s, m);
      assert s.cells.locals[..Height(s)] == s.cells.locals;
    } else {
      var op := if locals[|locals| - 1].captured then OP_CLOSE_UPVALUE else OP_POP;
      var rest := locals[..|locals| - 1];
      var d := Deeper(rest, level);
      HoldsSplit(h.f.code, Ip(s), [op], EndLocals(rest, level));
      SimpleAt(w, s, h, op);
      var u := Popped(s, Ip(s) + 1, 1);
      PopMirrors(s, st, m, Ip(s) + 1, 1);
      InKept(h, s, u, m, m);
      t := EndsRun(w, h, rest, level, u, st, m);
      StepsCompose(w, s, 1, d);
      KeepsOn(s, u, t, m, m, m);
      assert u.cells.locals[..Height(u) - d] == s.cells.locals[..Height(s) - (d + 1)];
    }
  }
}
