/** The code of a statement, in a script with functions, does what the statement does, if every call it makes does what
    the routine's body does. */
module StmtRuns {
  import opened Values
  import opened Bytecode
  import opened Functions
  import opened Meaning
  import opened Agreement
  import opened Engine
  import opened Running
  import opened ExprRuns
  import opened Declaring
  import opened Boundaries
  import opened SimpleRuns
  import opened DeclRuns
  import Codegen
  import Discipline
  import ExprTypes
  import Growth
  import Lexical
  import SoundCode

  // ----- conditionals -----

  lemma {:induction false} IfShape(w: World, e: Expr, x: Statement, y: Option<Statement>, env: Env, st: State,
      fuel: nat, depth: nat)
    requires depth <= DEEPEST
    ensures Exec(w, Statement.If(e, x, y), env, st, fuel, depth) ==
      var r := Eval(w, e, env, st, fuel, depth);
      if !r.Done? then Abort(r)
      else if !Untrue(r.v) then Exec(w, x, env, r.st, fuel, depth)
      else if y.Some? then Exec(w, y.value, env, r.st, fuel, depth)
      else Normal(env, r.st)
  {
    hide Eval;
  }

  /** The parts of a conditional's code. */
  lemma IfHolds(code: seq<byte>, ip: nat, c: seq<byte>, t: seq<byte>, e: seq<byte>)
    requires Holds(code, ip, Codegen.IfCode(c, t, e))
    ensures Holds(code, ip, c)
    ensures Holds(code, ip + |c|, Codegen.JumpCode(OP_JUMP_IF_FALSE, |t| + 4) + [OP_POP])
    ensures Holds(code, ip + |c| + 4, t)
    ensures Holds(code, ip + |c| + 4 + |t|, Codegen.JumpCode(OP_JUMP, |e| + 1))
    ensures Holds(code, ip + |c| + 4 + |t| + 3, [OP_POP])
    ensures Holds(code, ip + |c| + 4 + |t| + 4, e)
  {
    hide Codegen.JumpCode, Holds;
    var guard, skip := Codegen.JumpCode(OP_JUMP_IF_FALSE, |t| + 4) + [OP_POP], Codegen.JumpCode(OP_JUMP, |e| + 1);
    HoldsSplit(code, ip, c + guard + t + (skip + [OP_POP]), e);
    HoldsSplit(code, ip, c + guard + t, skip + [OP_POP]);
    HoldsSplit(code, ip + |c| + 4 + |t|, skip, [OP_POP]);
    HoldsSplit(code, ip, c + guard, t);
    HoldsSplit(code, ip, c, guard);
  }

  /** The code of the first branch of a conditional, and that of the second. */
  function FirstBranch(c: Scene, at: Spot, e: Expr, x: Statement): Made {
    var g := MakeExpr(e, c.pool, c.chain);
    if !g.Made? then g else MakeStmt(x, at.Past(|g.code| + 4), g.pool, g.chain)
  }

  function SecondBranch(c: Scene, at: Spot, e: Expr, x: Statement, y: Option<Statement>): Made {
    var g, h := MakeExpr(e, c.pool, c.chain), FirstBranch(c, at, e, x);
    if !g.Made? || !h.Made? then h
    else if y.None? then Made([], h.pool, h.chain)
    else MakeStmt(y.value, at.Past(|g.code| + 4 + |h.code| + 4), h.pool, h.chain)
  }

  lemma {:induction false} IfCodes(c: Scene, at: Spot, e: Expr, x: Statement, y: Option<Statement>)
    requires MakeStmt(Statement.If(e, x, y), at, c.pool, c.chain).Made?
    ensures var g, h, f := MakeExpr(e, c.pool, c.chain), FirstBranch(c, at, e, x), SecondBranch(c, at, e, x, y);
      && g.Made? && h.Made? && f.Made? && |h.code| + 4 <= UINT16_MAX && |f.code| + 1 <= UINT16_MAX
      && MakeStmt(Statement.If(e, x, y), at, c.pool, c.chain)
           == Made(Codegen.IfCode(g.code, h.code, f.code), f.pool, f.chain)
  {
    hide MakeExpr, MakeStmt, Codegen.IfCode;
    IfMade(e, x, y, at, c.pool, c.chain);
  }

  /** A piece is ready to be executed, and nothing is lost of what was known before it. */
  ghost predicate Linked(c: Scene, g: Made) {
    g.Made? && SoundCode.Ready(g.pool, g.chain) && Lexical.Grows(c.chain, g.chain) && g.pool <= c.h.f.pool
    && Toward(g.chain, c.h.last)
  }

  lemma {:induction false} IfAhead(c: Scene, at: Spot, e: Expr, x: Statement, y: Option<Statement>, ip: nat)
    requires SoundCode.Ready(c.pool, c.chain) && FunctionsTame(Statement.If(e, x, y))
    requires Discipline.Scoped(c.chain[0].locals, at.level)
    requires Ahead(c.h, ip, MakeStmt(Statement.If(e, x, y), at, c.pool, c.chain))
    ensures Linked(c, MakeExpr(e, c.pool, c.chain)) && Linked(c, FirstBranch(c, at, e, x))
    ensures Linked(c, SecondBranch(c, at, e, x, y))
  {
    hide SoundCode.Ready, MakeExpr, MakeStmt, Toward, Lexical.Grows, Discipline.Scoped, Holds;
    IfCodes(c, at, e, x, y);
    var g, h, f := MakeExpr(e, c.pool, c.chain), FirstBranch(c, at, e, x), SecondBranch(c, at, e, x, y);
    Growth.ExprGrows(e, c.pool, c.chain);
    ExprTypes.ExprReady(e, c.pool, c.chain);
    Growth.GrowsScoped(c.chain, g.chain, at.level);
    Growth.StmtGrows(x, at.Past(|g.code| + 4), g.pool, g.chain);
    Discipline.StmtReady(x, at.Past(|g.code| + 4), g.pool, g.chain);
    ExprTypes.GrowsOn(c.chain, g.chain, h.chain);
    if y.Some? {
      var past := at.Past(|g.code| + 4 + |h.code| + 4);
      Growth.GrowsScoped(c.chain, h.chain, at.level);
      Growth.StmtGrows(y.value, past, h.pool, h.chain);
      Discipline.StmtReady(y.value, past, h.pool, h.chain);
      ExprTypes.GrowsOn(c.chain, h.chain, f.chain);
      TowardBefore(h.chain, f.chain, c.h.last);
    }
    TowardBefore(g.chain, h.chain, c.h.last);
  }

  /** A first branch, with the jump behind it. */
  lemma {:induction false} ThenBranch(w: World, c: Scene, at: Spot, s: Config, m: seq<nat>, k: nat, t: Config,
      n: seq<nat>, c': Scene, at': Spot, len: nat, d: nat, r: Result, j: nat, u: Config, o: seq<nat>, fuel: nat)
    returns (i: nat, x: Config, p: seq<nat>)
    requires In(c.h, s) && Active(t) && Steps(w, s, k) == Running(t) && Keeps(s, t, m, n) && Base(s) <= Height(s)
    requires t.cells.locals == s.cells.locals && Ip(s) <= Ip(t) && c'.Env() == c.Env() && d <= UINT16_MAX
    requires at'.loop.NoLoop? == at.loop.NoLoop?
    requires at.loop.InLoop? ==>
      && at'.loop.distance == at.loop.distance + (Ip(t) - Ip(s)) && at.loop.distance <= Ip(s)
      && AtTop(c', at') == AtTop(c, at) && Base(s) + AtTop(c, at) <= Height(s)
    requires Runs(w, c', at', len, t, n, r, j, u, o, fuel)
    requires Holds(c.h.f.code, Ip(t) + len, Codegen.JumpCode(OP_JUMP, d))
    ensures Runs(w, c, at, Ip(t) - Ip(s) + len + 3 + d, s, m, r, i, x, p, fuel)
  {
    hide Steps, AtTop, KeepsHeap, Mirrors, Codegen.JumpCode;
    i, x, p := k + j, u, o;
    if r.Normal? {
      StepsCompose(w, s, k, j);
      KeepsOn(s, t, u, m, n, o);
      InKept(c.h, s, u, m, o);
      x := SkipsElse(w, c.h, d, u, r.st, o);
      StepsCompose(w, s, k + j, 1);
      KeepsOn(s, u, x, m, o, o);
      i := k + j + 1;
    } else {
      ThenLeaves(w, c, at, s, m, k, t, n, c', at', len, r, j, u, o, fuel, Ip(t) - Ip(s) + len + 3 + d);
    }
  }

  lemma {:induction false} IfRuns(w: World, c: Scene, at: Spot, e: Expr, x: Statement, y: Option<Statement>, s: Config,
      st: State, m: seq<nat>, fuel: nat)
    returns (k: nat, t: Config, n: seq<nat>)
    requires Stands(c, at, s, st, m) && Callable(w, c.depth) && FunctionsTame(Statement.If(e, x, y))
    requires (|c.chain| > 1) == (|s.cells.frames| > 1)
    requires Ahead(c.h, Ip(s), MakeStmt(Statement.If(e, x, y), at, c.pool, c.chain))
    ensures Runs(w, c, at, |MakeStmt(Statement.If(e, x, y), at, c.pool, c.chain).code|, s, m,
      Exec(w, Statement.If(e, x, y), c.Env(), st, fuel, c.depth), k, t, n, fuel)
    decreases fuel, Statement.If(e, x, y), 0
  {
    hide Mirrors, Steps, StateOk, OwnMatch, OuterMatch, Callable, KeepsHeap, SoundCode.Ready, MakeExpr, MakeStmt, Exec,
      Eval, Toward, Stands, Begins, Lexical.Grows, Codegen.IfCode, AtTop, Runs, Holds;
    StandsBegins(c, at, s, st, m);
    ReadyHere(c, s, st, m);
    IfShape(w, e, x, y, c.Env(), st, fuel, c.depth);
    IfAhead(c, at, e, x, y, Ip(s));
    IfCodes(c, at, e, x, y);
    var g, h, f := MakeExpr(e, c.pool, c.chain), FirstBranch(c, at, e, x), SecondBranch(c, at, e, x, y);
    var past, after := at.Past(|g.code| + 4), at.Past(|g.code| + 4 + |h.code| + 4);
    IfHolds(c.h.f.code, Ip(s), g.code, h.code, f.code);
    k, t, n := CondRuns(w, c, e, |h.code| + 4, s, st, m, fuel);
    var r := Eval(w, e, c.Env(), st, fuel, c.depth);
    var all := |g.code| + |h.code| + |f.code| + 8;
    if !r.Done? {
      ExprLeaves(w, c, at, s, m, |g.code|, r, k, t, n, fuel, all);
    } else if !Untrue(r.v) {
      PastSpot(c, at, g, |g.code| + 4);
      ThenStands(c, at, s, st, m, t, r.st, n, g, past);
      InKept(c.h, s, t, m, n);
      KeepsSize(s, t, m, n);
      var j, u, o := StmtRuns(w, c.To(g), past, x, t, r.st, n, fuel);
      k, t, n := ThenBranch(w, c, at, s, m, k, t, n, c.To(g), past, |h.code|, |f.code| + 1,
        Exec(w, x, c.Env(), r.st, fuel, c.depth), j, u, o, fuel);
    } else if y.Some? {
      PastSpot(c, at, h, |g.code| + 4 + |h.code| + 4);
      ThenStands(c, at, s, st, m, t, r.st, n, h, after);
      InKept(c.h, s, t, m, n);
      KeepsSize(s, t, m, n);
      var j, u, o := StmtRuns(w, c.To(h), after, y.value, t, r.st, n, fuel);
      Continues(w, c, at, s, m, k, t, n, c.To(h), after, |f.code|, Exec(w, y.value, c.Env(), r.st, fuel, c.depth), j, u,
        o, fuel);
      k, t, n := k + j, u, o;
    } else {
      NormalHere(w, c, at, s, m, r.st, k, t, n, fuel, all);
    }
  }

  // ----- loops -----

  lemma {:induction false} WhileShape(w: World, e: Expr, b: Statement, env: Env, st: State, fuel: nat, depth: nat)
    requires depth <= DEEPEST
    ensures Exec(w, Statement.While(e, b), env, st, fuel, depth) ==
      if fuel == 0 then OutOfFuel
      else
        var r := Eval(w, e, env, st, fuel, depth);
        if !r.Done? then Abort(r)
        else if Untrue(r.v) then Normal(env, r.st)
        else
          var q := Exec(w, b, env + [map[]], r.st, fuel, depth);
          if q.Normal? || q.Continued? then Exec(w, Statement.While(e, b), env, q.st, fuel - 1, depth) else q
  {
    hide Eval;
  }

  /** The parts of a loop's code. */
  lemma WhileHolds(code: seq<byte>, ip: nat, c: seq<byte>, b: seq<byte>)
    requires Holds(code, ip, Codegen.WhileCode(c, b))
    ensures Holds(code, ip, c)
    ensures Holds(code, ip + |c|, Codegen.JumpCode(OP_JUMP_IF_FALSE, |b| + 4) + [OP_POP])
    ensures Holds(code, ip + |c| + 4, b)
    ensures Holds(code, ip + |c| + 4 + |b|, Codegen.JumpCode(OP_LOOP, |c| + |b| + 7))
    ensures Holds(code, ip + |c| + 4 + |b| + 3, [OP_POP])
  {
    hide Codegen.JumpCode, Holds;
    var guard, back := Codegen.JumpCode(OP_JUMP_IF_FALSE, |b| + 4) + [OP_POP], Codegen.JumpCode(OP_LOOP, |c| + |b| + 7);
    HoldsSplit(code, ip, c + guard + b, back + [OP_POP]);
    HoldsSplit(code, ip + |c| + 4 + |b|, back, [OP_POP]);
    HoldsSplit(code, ip, c + guard, b);
    HoldsSplit(code, ip, c, guard);
  }

  lemma {:induction false} WhileAhead(c: Scene, at: Spot, e: Expr, b: Statement, ip: nat)
    requires SoundCode.Ready(c.pool, c.chain) && FunctionsTame(Statement.While(e, b))
    requires Discipline.Scoped(c.chain[0].locals, at.level)
    requires Ahead(c.h, ip, MakeStmt(Statement.While(e, b), at, c.pool, c.chain))
    ensures var g := MakeExpr(e, c.pool, c.chain);
      && Ahead(c.h, ip, g) && SoundCode.Ready(g.pool, g.chain) && Lexical.Grows(c.chain, g.chain)
      && var h := MakeStmt(b, at.Inside(|g.code|), g.pool, g.chain);
        && Ahead(c.h, ip + |g.code| + 4, h) && |g.code| + |h.code| + 7 <= UINT16_MAX
        && Holds(c.h.f.code, ip, Codegen.WhileCode(g.code, h.code))
        && MakeStmt(Statement.While(e, b), at, c.pool, c.chain).code == Codegen.WhileCode(g.code, h.code)
  {
    hide SoundCode.Ready, MakeExpr, MakeStmt, Toward, Lexical.Grows, Discipline.Scoped, Codegen.WhileCode, Holds;
    WhileMade(e, b, at, c.pool, c.chain);
    var g := MakeExpr(e, c.pool, c.chain);
    var h := MakeStmt(b, at.Inside(|g.code|), g.pool, g.chain);
    Growth.ExprGrows(e, c.pool, c.chain);
    ExprTypes.ExprReady(e, c.pool, c.chain);
    Growth.GrowsScoped(c.chain, g.chain, at.level);
    Growth.DeeperScoped(g.chain[0].locals, at.level);
    Growth.StmtGrows(b, at.Inside(|g.code|), g.pool, g.chain);
    Discipline.StmtReady(b, at.Inside(|g.code|), g.pool, g.chain);
    TowardBefore(g.chain, h.chain, c.h.last);
    WhileHolds(c.h.f.code, ip, g.code, h.code);
  }

  lemma InsideSpot(c: Scene, at: Spot, s: Config, st: State, m: seq<nat>, g: Made, len: nat)
    requires Stands(c, at, s, st, m) && g.Made? && Lexical.Grows(c.chain, g.chain)
    ensures Discipline.InScope(at.Inside(len)) && at.Inside(len).level == at.level + 1
    ensures at.Inside(len).loop == Codegen.InLoop(len + 4, at.level)
    ensures AtTop(Deeper1(c.To(g)), at.Inside(len)) == |c.chain[0].locals|
  {
    Discipline.GrowsFlagged(c.chain, g.chain);
    Discipline.WholeFrame(c.chain[0].locals, g.chain[0].locals, at);
  }

  lemma OutOfFuelHere(w: World, c: Scene, at: Spot, s: Config, m: seq<nat>, fuel: nat, len: nat)
    requires Active(s) && fuel == 0 && Steps(w, s, 0) == Running(s)
    ensures Runs(w, c, at, len, s, m, OutOfFuel, 0, s, m, fuel)
  {
  }

  /** Both ends of a turn arrive at the top of the loop, with its slots. */
  lemma {:induction false} BackToTop(w: World, h: Here, s: Config, m: seq<nat>, k: nat, t: Config, n: seq<nat>,
      d: Scene, inside: Spot, len: nat, cond: nat, q: Result, j: nat, u: Config, o: seq<nat>, fuel: nat)
    returns (i: nat, y: Config)
    requires In(h, s) && Active(t) && k >= 1 && Steps(w, s, k) == Running(t) && Keeps(s, t, m, n)
    requires t.cells.locals == s.cells.locals && Ip(t) == Ip(s) + cond + 4 && (q.Normal? || q.Continued?)
    requires inside.loop.InLoop? && inside.loop.distance == cond + 4
    requires Base(s) + AtTop(d, inside) == Height(s)
    requires Runs(w, d, inside, len, t, n, q, j, u, o, fuel)
    requires cond + len + 7 <= UINT16_MAX
    requires Holds(h.f.code, Ip(s) + cond + 4 + len, Codegen.JumpCode(OP_LOOP, cond + len + 7))
    ensures i >= 1 && Steps(w, s, i) == Running(y) && Keeps(s, y, m, o) && Mirrors(y, q.st, o)
    ensures Ip(y) == Ip(s) && y.cells.locals == s.cells.locals
  {
    hide Steps, AtTop, KeepsHeap, Mirrors, Codegen.JumpCode;
    StepsCompose(w, s, k, j);
    KeepsOn(s, t, u, m, n, o);
    i, y := k + j, u;
    if q.Normal? {
      InKept(h, s, u, m, o);
      y := LoopsBack(w, h, cond + len + 7, u, q.st, o);
      StepsCompose(w, s, k + j, 1);
      KeepsOn(s, u, y, m, o, o);
      i := k + j + 1;
    } else {
      assert t.cells.locals[..Height(s)] == s.cells.locals;
    }
  }

  lemma {:induction false} StandsAgain(c: Scene, at: Spot, s: Config, st: State, m: seq<nat>, y: Config, st': State,
      o: seq<nat>)
    requires Stands(c, at, s, st, m) && Keeps(s, y, m, o) && Mirrors(y, st', o) && StateOk(st')
    requires y.cells.locals == s.cells.locals && Ip(y) == Ip(s)
    ensures Stands(c, at, y, st', o)
  {
    hide SoundCode.Ready, Mirrors, StateOk, KeepsHeap, Fits, Lexical.Grows, Discipline.Scoped;
    ExprTypes.GrowsSelf(c.chain);
    ThenStands(c, at, s, st, m, y, st', o, Made([], c.pool, c.chain), at);
  }

  lemma NextTurn(w: World, c: Scene, at: Spot, len: nat, s: Config, m: seq<nat>, k: nat, y: Config, o: seq<nat>,
      r: Result, j: nat, z: Config, p: seq<nat>, fuel: nat)
    requires Active(s) && Active(y) && k >= 1 && fuel > 0 && Steps(w, s, k) == Running(y) && Keeps(s, y, m, o)
    requires y.cells.locals == s.cells.locals && Ip(y) == Ip(s) && Base(s) <= Height(s)
    requires at.loop.InLoop? ==> at.loop.distance <= Ip(s) && Base(s) + AtTop(c, at) <= Height(s)
    requires Runs(w, c, at, len, y, o, r, j, z, p, fuel - 1)
    ensures Runs(w, c, at, len, s, m, r, k + j, z, p, fuel)
  {
    hide Steps, KeepsHeap, Mirrors, AtTop;
    if r.OutOfFuel? {
      StepsCompose(w, s, k, j);
    } else {
      assert Runs(w, c, at, len, y, o, r, j, z, p, fuel);
      Continues(w, c, at, s, m, k, y, o, c, at, len, r, j, z, p, fuel);
    }
  }

  /** The rest of a turn of the loop after its condition, and all further turns. */
  lemma {:induction false} TurnRuns(w: World, c: Scene, at: Spot, e: Expr, b: Statement, s: Config, st: State,
      m: seq<nat>, k: nat, t: Config, n: seq<nat>, st': State, fuel: nat)
    returns (i: nat, x: Config, p: seq<nat>)
    requires Stands(c, at, s, st, m) && Callable(w, c.depth) && FunctionsTame(Statement.While(e, b)) && fuel > 0
    requires (|c.chain| > 1) == (|s.cells.frames| > 1)
    requires Ahead(c.h, Ip(s), MakeStmt(Statement.While(e, b), at, c.pool, c.chain))
    requires k >= 1 && Steps(w, s, k) == Running(t) && Keeps(s, t, m, n) && Mirrors(t, st', n) && StateOk(st')
    requires t.cells.locals == s.cells.locals && Ip(t) == Ip(s) + |MakeExpr(e, c.pool, c.chain).code| + 4
    ensures var q := Exec(w, b, c.Env() + [map[]], st', fuel, c.depth);
      Runs(w, c, at, |MakeStmt(Statement.While(e, b), at, c.pool, c.chain).code|, s, m,
        if q.Normal? || q.Continued? then Exec(w, Statement.While(e, b), c.Env(), q.st, fuel - 1, c.depth) else q,
        i, x, p, fuel)
    decreases fuel, Statement.While(e, b), -1
  {
    hide Mirrors, Steps, StateOk, OwnMatch, OuterMatch, Callable, KeepsHeap, SoundCode.Ready, MakeExpr, MakeStmt, Exec,
      Eval, Toward, Stands, Begins, Lexical.Grows, Codegen.WhileCode, AtTop, Runs, Holds;
    StandsBegins(c, at, s, st, m);
    ReadyHere(c, s, st, m);
    WhileAhead(c, at, e, b, Ip(s));
    var g := MakeExpr(e, c.pool, c.chain);
    var inside := at.Inside(|g.code|);
    var h := MakeStmt(b, inside, g.pool, g.chain);
    WhileHolds(c.h.f.code, Ip(s), g.code, h.code);
    KeepsSize(s, t, m, n);
    ThenStands(c, at, s, st, m, t, st', n, g, at.(loop := TOP.loop));
    InsideSpot(c, at, s, st, m, g, |g.code|);
    ScopeEntered(c.To(g), at.(loop := TOP.loop), t, st', n, inside);
    var d := Deeper1(c.To(g));
    StandsBegins(d, inside, t, st', n);
    var j, u, o := StmtRuns(w, d, inside, b, t, st', n, fuel);
    var q := Exec(w, b, c.Env() + [map[]], st', fuel, c.depth);
    if q.Normal? || q.Continued? {
      ExecOk(w, b, c.Env() + [map[]], st', fuel, c.depth);
      var l, y := BackToTop(w, c.h, s, m, k, t, n, d, inside, |h.code|, |g.code|, q, j, u, o, fuel);
      StandsAgain(c, at, s, st, m, y, q.st, o);
      InKept(c.h, s, y, m, o);
      KeepsSize(s, y, m, o);
      var l', z, p' := WhileRuns(w, c, at, e, b, y, q.st, o, fuel - 1);
      i, x, p := l + l', z, p';
      NextTurn(w, c, at, |g.code| + |h.code| + 8, s, m, l, y, o,
        Exec(w, Statement.While(e, b), c.Env(), q.st, fuel - 1, c.depth), l', z, p', fuel);
    } else {
      i, x, p := k + j, u, o;
      ThenLeaves(w, c, at, s, m, k, t, n, d, inside, |h.code|, q, j, u, o, fuel, |g.code| + |h.code| + 8);
    }
  }

  lemma {:induction false} WhileRuns(w: World, c: Scene, at: Spot, e: Expr, b: Statement, s: Config, st: State,
      m: seq<nat>, fuel: nat)
    returns (k: nat, t: Config, n: seq<nat>)
    requires Stands(c, at, s, st, m) && Callable(w, c.depth) && FunctionsTame(Statement.While(e, b))
    requires (|c.chain| > 1) == (|s.cells.frames| > 1)
    requires Ahead(c.h, Ip(s), MakeStmt(Statement.While(e, b), at, c.pool, c.chain))
    ensures Runs(w, c, at, |MakeStmt(Statement.While(e, b), at, c.pool, c.chain).code|, s, m,
      Exec(w, Statement.While(e, b), c.Env(), st, fuel, c.depth), k, t, n, fuel)
    decreases fuel, Statement.While(e, b), 0
  {
    hide Mirrors, Steps, StateOk, OwnMatch, OuterMatch, Callable, KeepsHeap, SoundCode.Ready, MakeExpr, MakeStmt, Exec,
      Eval, Toward, Stands, Begins, Lexical.Grows, Codegen.WhileCode, AtTop, Runs, Holds;
    StandsBegins(c, at, s, st, m);
    ReadyHere(c, s, st, m);
    WhileShape(w, e, b, c.Env(), st, fuel, c.depth);
    WhileAhead(c, at, e, b, Ip(s));
    var g := MakeExpr(e, c.pool, c.chain);
    var inside := at.Inside(|g.code|);
    var h := MakeStmt(b, inside, g.pool, g.chain);
    WhileHolds(c.h.f.code, Ip(s), g.code, h.code);
    var all := |g.code| + |h.code| + 8;
    if fuel == 0 {
      k, t, n := 0, s, m;
      ZeroSteps(w, s);
      assert Runs(w, c, at, all, s, m, OutOfFuel, k, t, n, fuel) by { OutOfFuelHere(w, c, at, s, m, fuel, all); }
    } else {
      k, t, n := CondRuns(w, c, e, |h.code| + 4, s, st, m, fuel);
      var r := Eval(w, e, c.Env(), st, fuel, c.depth);
      if !r.Done? {
        ExprLeaves(w, c, at, s, m, |g.code|, r, k, t, n, fuel, all);
      } else if Untrue(r.v) {
        NormalHere(w, c, at, s, m, r.st, k, t, n, fuel, all);
      } else {
        k, t, n := TurnRuns(w, c, at, e, b, s, st, m, k, t, n, r.st, fuel);
      }
    }
  }

  // ----- blocks -----

  lemma {:induction false} BlockShape(w: World, items: seq<Item>, at: Spot, pool: seq<Constant>, chain: Chain, env: Env,
      st: State, fuel: nat, depth: nat)
    requires depth <= DEEPEST
    ensures MakeStmt(Statement.Block(items), at, pool, chain) ==
      EndScope(MakeItems(items, at.(level := at.level + 1), pool, chain), at.level)
    ensures Exec(w, Statement.Block(items), env, st, fuel, depth) ==
      Leave(ExecAll(w, items, env + [map[]], st, fuel, depth), env)
  {
    hide MakeItems, ExecAll, EndScope;
  }

  lemma {:induction false} BlockAhead(c: Scene, at: Spot, items: seq<Item>, ip: nat)
    requires SoundCode.Ready(c.pool, c.chain) && ItemsTame(items) && Discipline.Scoped(c.chain[0].locals, at.level)
    requires Ahead(c.h, ip, EndScope(MakeItems(items, at.(level := at.level + 1), c.pool, c.chain), at.level))
    ensures var g := MakeItems(items, at.(level := at.level + 1), c.pool, c.chain);
      && Ahead(c.h, ip, g) && Holds(c.h.f.code, ip + |g.code|, EndLocals(g.chain[0].locals, at.level))
      && Deeper(g.chain[0].locals, at.level) == |g.chain[0].locals| - |c.chain[0].locals|
      && |EndScope(g, at.level).code| == |g.code| + Deeper(g.chain[0].locals, at.level)
  {
    hide SoundCode.Ready, MakeItems, Lexical.Grows, Discipline.Scoped, Holds, EndLocals, Deeper, Discipline.GrowsOut;
    var inner := at.(level := at.level + 1);
    var g := MakeItems(items, inner, c.pool, c.chain);
    Growth.DeeperScoped(c.chain[0].locals, at.level);
    Growth.ItemsGrow(items, inner, c.pool, c.chain);
    Growth.BlockEnds(c.chain, g, at);
    HoldsSplit(c.h.f.code, ip, g.code, EndLocals(g.chain[0].locals, at.level));
    TowardUnlocal(g.chain, g.chain[0].locals[..|c.chain[0].locals|], c.h.last);
  }

  lemma TowardUnlocal(chain: Chain, locals: seq<Lexical.Local>, last: Chain)
    requires Toward(WithLocals(chain, locals), last)
    ensures Toward(chain, last)
  {
    forall d | 1 <= d < |chain|
      ensures Lexical.LevelGrows(chain[d], last[d])
    {
      assert WithLocals(chain, locals)[d] == chain[d];
    }
  }

  /** In a new scope the loop around is the same. */
  lemma SameTop(c: Scene, at: Spot)
    ensures AtTop(Deeper1(c), at.(level := at.level + 1)) == AtTop(c, at)
    ensures Discipline.InScope(at) ==> Discipline.InScope(at.(level := at.level + 1))
  {
  }

  lemma {:induction false} BlockEnds(w: World, c: Scene, at: Spot, inner: Spot, g: Made, s: Config, m: seq<nat>,
      r: Result, k: nat, t: Config, n: seq<nat>, own: Env, fuel: nat)
    returns (i: nat, x: Config, p: seq<nat>)
    requires In(c.h, s) && g.Made? && inner == at.(level := at.level + 1)
    requires Base(s) + |c.chain[0].locals| == Height(s) && AtTop(Deeper1(c), inner) == AtTop(c, at)
    requires at.loop.InLoop? ==> at.loop.distance <= Ip(s) && Base(s) + AtTop(c, at) <= Height(s)
    requires RunsItems(w, Deeper1(c), inner, g, s, m, r, k, t, n, own, fuel)
    requires Holds(c.h.f.code, Ip(s) + |g.code|, EndLocals(g.chain[0].locals, at.level))
    requires Deeper(g.chain[0].locals, at.level) == |g.chain[0].locals| - |c.chain[0].locals|
    ensures Runs(w, c, at, |g.code| + Deeper(g.chain[0].locals, at.level), s, m, Leave(r, c.Env()), i, x, p, fuel)
  {
    hide Mirrors, Steps, KeepsHeap, AtTop, Holds, EndLocals, Deeper, Begins, StateOk;
    i, x, p := k, t, n;
    if r.Normal? {
      StandsBegins(Deeper1(c).To(g).(own := own), inner.Past(|g.code|), t, r.st, n);
      ReadyHere(Deeper1(c).To(g).(own := own), t, r.st, n);
      x := EndsRun(w, c.h, g.chain[0].locals, at.level, t, r.st, n);
      var d := Deeper(g.chain[0].locals, at.level);
      StepsCompose(w, s, k, d);
      KeepsOn(s, t, x, m, n, n);
      i := k + d;
      assert x.cells.locals == s.cells.locals;
    }
  }

  lemma {:induction false} BlockRuns(w: World, c: Scene, at: Spot, items: seq<Item>, s: Config, st: State, m: seq<nat>,
      fuel: nat)
    returns (k: nat, t: Config, n: seq<nat>)
    requires Stands(c, at, s, st, m) && Callable(w, c.depth) && ItemsTame(items)
    requires (|c.chain| > 1) == (|s.cells.frames| > 1)
    requires Ahead(c.h, Ip(s), MakeStmt(Statement.Block(items), at, c.pool, c.chain))
    ensures Runs(w, c, at, |MakeStmt(Statement.Block(items), at, c.pool, c.chain).code|, s, m,
      Exec(w, Statement.Block(items), c.Env(), st, fuel, c.depth), k, t, n, fuel)
    decreases fuel, Statement.Block(items), 0
  {
    hide Mirrors, Steps, StateOk, Callable, KeepsHeap, SoundCode.Ready, Toward, Begins, Lexical.Grows, AtTop, Runs,
      Holds, ExecAll, MakeItems, MakeStmt, Exec, Stands, RunsItems, EndScope, EndLocals, Deeper, OwnMatch, OuterMatch;
    StandsBegins(c, at, s, st, m);
    ReadyHere(c, s, st, m);
    BlockShape(w, items, at, c.pool, c.chain, c.Env(), st, fuel, c.depth);
    BlockAhead(c, at, items, Ip(s));
    var inner := at.(level := at.level + 1);
    var g := MakeItems(items, inner, c.pool, c.chain);
    SameTop(c, at);
    ScopeEntered(c, at, s, st, m, inner);
    var own;
    k, t, n, own := ItemsRun(w, Deeper1(c), inner, items, s, st, m, fuel);
    k, t, n := BlockEnds(w, c, at, inner, g, s, m, ExecAll(w, items, c.Env() + [map[]], st, fuel, c.depth), k, t, n,
      own, fuel);
  }

  // ----- statements -----

  lemma {:induction false} StmtRuns(w: World, c: Scene, at: Spot, x: Statement, s: Config, st: State, m: seq<nat>,
      fuel: nat)
    returns (k: nat, t: Config, n: seq<nat>)
    requires Stands(c, at, s, st, m) && Callable(w, c.depth) && FunctionsTame(x)
    requires (|c.chain| > 1) == (|s.cells.frames| > 1)
    requires Ahead(c.h, Ip(s), MakeStmt(x, at, c.pool, c.chain))
    ensures Runs(w, c, at, |MakeStmt(x, at, c.pool, c.chain).code|, s, m, Exec(w, x, c.Env(), st, fuel, c.depth), k, t,
      n, fuel)
    decreases fuel, x, 1
  {
    hide Mirrors, Steps, StateOk, Callable, KeepsHeap, SoundCode.Ready, Toward, Begins, Lexical.Grows, AtTop, Runs,
      Holds, Eval, ExecAll, MakeExpr, MakeItems;
    StandsBegins(c, at, s, st, m);
    ReadyHere(c, s, st, m);
    match x
    case Do(e) => k, t, n := PlainRuns(w, c, at, x, e, s, st, m, fuel);
    case Print(e) => k, t, n := PlainRuns(w, c, at, x, e, s, st, m, fuel);
    case Block(items) => k, t, n := BlockRuns(w, c, at, items, s, st, m, fuel);
    case If(e, a, b) => k, t, n := IfRuns(w, c, at, e, a, b, s, st, m, fuel);
    case While(e, b) => k, t, n := WhileRuns(w, c, at, e, b, s, st, m, fuel);
    case Continue => k, t, n := ContinueRuns(w, c, at, s, st, m, fuel);
    case Return(value) => k, t, n := ReturnRuns(w, c, at, value, s, st, m, fuel);
  }

  // ----- declarations -----

  /** A statement among declarations. */
  lemma {:induction false} StatStands(w: World, c: Scene, at: Spot, x: Statement, s: Config, st: State, m: seq<nat>,
      r: Result, k: nat, t: Config, n: seq<nat>, fuel: nat)
    requires Stands(c, at, s, st, m) && FunctionsTame(x) && MakeStmt(x, at, c.pool, c.chain).Made?
    requires r == Exec(w, x, c.Env(), st, fuel, c.depth)
    requires Runs(w, c, at, |MakeStmt(x, at, c.pool, c.chain).code|, s, m, r, k, t, n, fuel)
    ensures RunsItems(w, c, at, MakeStmt(x, at, c.pool, c.chain), s, m, r, k, t, n, c.own, fuel)
  {
    hide Mirrors, Steps, StateOk, KeepsHeap, SoundCode.Ready, Lexical.Grows, AtTop, MakeStmt, Exec, Begins,
      Discipline.Scoped, Compact;
    if r.Normal? {
      var g := MakeStmt(x, at, c.pool, c.chain);
      ReadyHere(c, s, st, m);
      ExecOk(w, x, c.Env(), st, fuel, c.depth);
      Growth.StmtGrows(x, at, c.pool, c.chain);
      Discipline.StmtReady(x, at, c.pool, c.chain);
      PastSpot(c, at, g, |g.code|);
      ThenStands(c, at, s, st, m, t, r.st, n, g, at.Past(|g.code|));
    }
  }

  lemma {:induction false} ItemRuns(w: World, c: Scene, at: Spot, d: Item, s: Config, st: State, m: seq<nat>, fuel: nat)
    returns (k: nat, t: Config, n: seq<nat>, own: Env)
    requires Stands(c, at, s, st, m) && Callable(w, c.depth) && ItemTame(d)
    requires (|c.chain| > 1) == (|s.cells.frames| > 1)
    requires Ahead(c.h, Ip(s), MakeItem(d, at, c.pool, c.chain))
    ensures RunsItems(w, c, at, MakeItem(d, at, c.pool, c.chain), s, m, ExecItem(w, d, c.Env(), st, fuel, c.depth), k,
      t, n, own, fuel)
    decreases fuel, d, 2
  {
    hide Mirrors, Steps, StateOk, Callable, KeepsHeap, SoundCode.Ready, Toward, Begins, Lexical.Grows, AtTop, Runs,
      Holds, Exec, MakeStmt, MakeInit, MakeFunction, Stands, RunsItems;
    match d
    case Stat(x) =>
      k, t, n := StmtRuns(w, c, at, x, s, st, m, fuel);
      own := c.own;
      StandsBegins(c, at, s, st, m);
      StatStands(w, c, at, x, s, st, m, Exec(w, x, c.Env(), st, fuel, c.depth), k, t, n, fuel);
    case Var(x, init) =>
      if at.level == 0 {
        k, t, n, own := GlobalRuns(w, c, at, x, init, s, st, m, fuel);
      } else {
        k, t, n, own := LocalRuns(w, c, at, x, init, s, st, m, fuel);
      }
    case Fun(x, params, body) =>
      if at.level == 0 {
        k, t, n, own := GlobalFunRuns(w, c, at, x, params, body, s, st, m, fuel);
      } else {
        k, t, n, own := LocalFunRuns(w, c, at, x, params, body, s, st, m, fuel);
      }
  }

  lemma {:induction false} ItemsShape(w: World, ds: seq<Item>, at: Spot, pool: seq<Constant>, chain: Chain, env: Env,
      st: State, fuel: nat, depth: nat)
    requires depth <= DEEPEST && ds != []
    ensures MakeItems(ds, at, pool, chain) ==
      var g := MakeItems(ds[..|ds| - 1], at, pool, chain);
      if !g.Made? then g
      else
        var h := MakeItem(ds[|ds| - 1], at.Past(|g.code|), g.pool, g.chain);
        if !h.Made? then h else Made(g.code + h.code, h.pool, h.chain)
    ensures ExecAll(w, ds, env, st, fuel, depth) ==
      var r := ExecAll(w, ds[..|ds| - 1], env, st, fuel, depth);
      if r.Normal? then ExecItem(w, ds[|ds| - 1], r.env, r.st, fuel, depth) else r
  {
    hide MakeItem, ExecItem;
  }

  /** The code of the first declarations, and where the last one begins. */
  lemma {:induction false} ItemsAhead(c: Scene, at: Spot, ds: seq<Item>, ip: nat, g: Made, h: Made)
    requires SoundCode.Ready(c.pool, c.chain) && Discipline.Scoped(c.chain[0].locals, at.level)
      && Discipline.InScope(at)
    requires ds != [] && ItemsTame(ds) && g == MakeItems(ds[..|ds| - 1], at, c.pool, c.chain) && g.Made?
    requires h == MakeItem(ds[|ds| - 1], at.Past(|g.code|), g.pool, g.chain) && h.Made?
    requires Ahead(c.h, ip, Made(g.code + h.code, h.pool, h.chain))
    ensures ItemsTame(ds[..|ds| - 1]) && ItemTame(ds[|ds| - 1])
    ensures Ahead(c.h, ip, g) && Ahead(c.h, ip + |g.code|, h) && AtTop(c.To(g), at.Past(|g.code|)) == AtTop(c, at)
  {
    hide SoundCode.Ready, MakeItems, MakeItem, Discipline.Scoped, Discipline.GrowsOut, Toward, Holds, Discipline.Base;
    var init, last := ds[..|ds| - 1], ds[|ds| - 1];
    Discipline.ItemsReady(init, at, c.pool, c.chain);
    Growth.ItemsGrow(init, at, c.pool, c.chain);
    ItemReady(last, at.Past(|g.code|), g.pool, g.chain);
    Growth.ItemGrows(last, at.Past(|g.code|), g.pool, g.chain);
    TowardOut(g.chain, h.chain, c.h.last, at.level);
    HoldsSplit(c.h.f.code, ip, g.code, h.code);
    Discipline.OutExtends(c.chain, g.chain, at.level);
    Discipline.ExtendsBase(c.chain[0].locals, g.chain[0].locals, at);
    Discipline.SameBase(g.chain[0].locals, at, |g.code|);
  }

  /** Nothing to do. */
  lemma {:induction false} NoItems(w: World, c: Scene, at: Spot, s: Config, st: State, m: seq<nat>, fuel: nat)
    requires Stands(c, at, s, st, m)
    ensures RunsItems(w, c, at, Made([], c.pool, c.chain), s, m, Normal(c.Env(), st), 0, s, m, c.own, fuel)
  {
    hide Stands, Steps;
    StandsBegins(c, at, s, st, m);
    KeepsSelf(s, m);
    ZeroSteps(w, s);
    assert c.To(Made([], c.pool, c.chain)).(own := c.own) == c && at.Past(0) == at;
  }

  /** What comes after the first declarations. */
  lemma {:induction false} ThenItem(w: World, c: Scene, at: Spot, g: Made, h: Made, s: Config, st: State, m: seq<nat>,
      k: nat, t: Config, n: seq<nat>, own: Env, st': State, r: Result, j: nat, u: Config, o: seq<nat>, own': Env,
      fuel: nat)
    requires Stands(c, at, s, st, m) && g.Made? && h.Made?
    requires RunsItems(w, c, at, g, s, m, Normal(c.h.outer + own, st'), k, t, n, own, fuel)
    requires AtTop(c.To(g), at.Past(|g.code|)) == AtTop(c, at) && Active(t)
    requires RunsItems(w, c.To(g).(own := own), at.Past(|g.code|), h, t, n, r, j, u, o, own', fuel)
    ensures RunsItems(w, c, at, Made(g.code + h.code, h.pool, h.chain), s, m, r, k + j, u, o, own', fuel)
  {
    hide Steps, Mirrors, KeepsHeap, AtTop, Stands;
    StandsBegins(c, at, s, st, m);
    var d, past := c.To(g).(own := own), at.Past(|g.code|);
    if r.Normal? {
      StepsCompose(w, s, k, j);
      KeepsOn(s, t, u, m, n, o);
      assert d.To(h).(own := own') == c.To(Made(g.code + h.code, h.pool, h.chain)).(own := own');
      assert past.Past(|h.code|) == at.Past(|g.code + h.code|);
    } else {
      SameScene(c, d, past, g, own);
      ThenLeaves(w, c, at, s, m, k, t, n, d, past, 0, r, j, u, o, fuel, 0);
    }
  }

  lemma SameScene(c: Scene, d: Scene, at: Spot, g: Made, own: Env)
    requires g.Made? && d == c.To(g).(own := own)
    ensures AtTop(d, at) == AtTop(c.To(g), at)
  {
  }

  lemma {:induction false} ItemsRun(w: World, c: Scene, at: Spot, ds: seq<Item>, s: Config, st: State, m: seq<nat>,
      fuel: nat)
    returns (k: nat, t: Config, n: seq<nat>, own: Env)
    requires Stands(c, at, s, st, m) && Callable(w, c.depth) && ItemsTame(ds)
    requires (|c.chain| > 1) == (|s.cells.frames| > 1)
    requires Ahead(c.h, Ip(s), MakeItems(ds, at, c.pool, c.chain))
    ensures RunsItems(w, c, at, MakeItems(ds, at, c.pool, c.chain), s, m, ExecAll(w, ds, c.Env(), st, fuel, c.depth), k,
      t, n, own, fuel)
    decreases fuel, ds, 0
  {
    hide Mirrors, Steps, StateOk, Callable, KeepsHeap, SoundCode.Ready, Toward, Begins, Lexical.Grows, AtTop, Runs,
      Holds, MakeItem, ExecItem, Stands, OwnMatch, OuterMatch, Discipline.Scoped;
    StandsBegins(c, at, s, st, m);
    if ds == [] {
      k, t, n, own := 0, s, m, c.own;
      NoItems(w, c, at, s, st, m, fuel);
    } else {
      k, t, n, own := LastRuns(w, c, at, ds, s, st, m, fuel);
    }
  }

  /** The last declaration, after the others. */
  lemma {:induction false} LastRuns(w: World, c: Scene, at: Spot, ds: seq<Item>, s: Config, st: State, m: seq<nat>,
      fuel: nat)
    returns (k: nat, t: Config, n: seq<nat>, own: Env)
    requires Stands(c, at, s, st, m) && Callable(w, c.depth) && ItemsTame(ds) && ds != []
    requires (|c.chain| > 1) == (|s.cells.frames| > 1)
    requires Ahead(c.h, Ip(s), MakeItems(ds, at, c.pool, c.chain))
    ensures RunsItems(w, c, at, MakeItems(ds, at, c.pool, c.chain), s, m, ExecAll(w, ds, c.Env(), st, fuel, c.depth), k,
      t, n, own, fuel)
    decreases fuel, ds, -1
  {
    hide Mirrors, Steps, StateOk, Callable, KeepsHeap, SoundCode.Ready, Toward, Begins, Lexical.Grows, AtTop, Runs,
      Holds, MakeItem, MakeItems, ExecItem, ExecAll, Stands, OwnMatch, OuterMatch, Discipline.Scoped, ItemsTame;
    StandsBegins(c, at, s, st, m);
    ReadyHere(c, s, st, m);
    StandsScope(c, at, s, st, m);
    ItemsShape(w, ds, at, c.pool, c.chain, c.Env(), st, fuel, c.depth);
    var init, last := ds[..|ds| - 1], ds[|ds| - 1];
    var g := MakeItems(init, at, c.pool, c.chain);
    var h := MakeItem(last, at.Past(|g.code|), g.pool, g.chain);
    ItemsAhead(c, at, ds, Ip(s), g, h);
    k, t, n, own := ItemsRun(w, c, at, init, s, st, m, fuel);
    var r := ExecAll(w, init, c.Env(), st, fuel, c.depth);
    if r.Normal? {
      var d, past := c.To(g).(own := own), at.Past(|g.code|);
      StandsBegins(d, past, t, r.st, n);
      KeepsSize(s, t, m, n);
      var j, u, o, own' := ItemRuns(w, d, past, last, t, r.st, n, fuel);
      ThenItem(w, c, at, g, h, s, st, m, k, t, n, own, r.st, ExecItem(w, last, r.env, r.st, fuel, c.depth), j, u, o,
        own', fuel);
      k, t, n, own := k + j, u, o, own';
    }
  }

  lemma StandsScope(c: Scene, at: Spot, s: Config, st: State, m: seq<nat>)
    requires Stands(c, at, s, st, m)
    ensures Discipline.InScope(at)
  {
  }
}
