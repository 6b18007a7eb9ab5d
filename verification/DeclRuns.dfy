/** The code of declarations, in a script with functions: variables and functions, global and local. */
module DeclRuns {
  import opened Values
  import opened Bytecode
  import opened Functions
  import opened Meaning
  import opened Agreement
  import opened Engine
  import opened Running
  import opened ExprRuns
  import opened Declaring
  import opened Boundaries
  import opened SimpleRuns
  import CellMachine
  import ClosureCode
  import Discipline
  import ExprTypes
  import Growth
  import Lexical
  import SoundCode

  // ----- new variables -----

  /** A new variable: the value on top of the stack. */
  lemma VariableMirrors(t: Config, st: State, n: seq<nat>, c: nat, v: Datum)
    requires Mirrors(t, st, n) && c < |t.cells.store| && c !in n && t.cells.store[c] == v
    ensures Mirrors(t, st.(store := st.store + [v]), n + [c])
  {
    hide RoutinesMatch;
    RoutinesMore(t.cells.closures, t.codes, st.routines, n, n + [c]);
  }

  lemma KeepsMore(s: Config, t: Config, m: seq<nat>, n: seq<nat>, c: nat)
    requires Keeps(s, t, m, n) && |s.cells.store| <= c
    ensures Keeps(s, t, m, n + [c])
  {
    forall l | |m| <= l < |n + [c]|
      ensures (n + [c])[l] >= |s.cells.store|
    {
      if l < |n| { assert (n + [c])[l] == n[l]; }
    }
  }

  lemma {:induction false} ItemReady(d: Item, at: Spot, pool: seq<Constant>, chain: Chain)
    requires SoundCode.Ready(pool, chain) && ItemTame(d) && MakeItem(d, at, pool, chain).Made?
    ensures var g := MakeItem(d, at, pool, chain); SoundCode.Ready(g.pool, g.chain) && pool <= g.pool
  {
    hide MakeItem, ItemTame, SoundCode.PoolOk, Lexical.WellLinked;
    SoundCode.ItemGood(d, at, pool, chain);
  }

  // ----- local variables -----

  lemma {:induction false} VarShape(w: World, x: Ident, init: Option<Expr>, at: Spot, pool: seq<Constant>, chain: Chain,
      env: Env, st: State, fuel: nat, depth: nat)
    requires depth <= DEEPEST
    ensures at.level == 0 ==>
      MakeItem(Var(x, init), at, pool, chain) ==
        var def := Functions.WithConstant(OP_DEFINE_GLOBAL, Plain(Str(x)), pool, chain);
        if !def.Made? then def else Define(def, MakeInit(init, def.pool, def.chain))
    ensures at.level > 0 && MakeItem(Var(x, init), at, pool, chain).Made? ==>
      && !Declared(chain[0].locals, x, at.level) && |chain[0].locals| <= UINT8_MAX
      && MakeItem(Var(x, init), at, pool, chain)
           == Functions.Finish(MakeInit(init, pool, AddLocal(chain, x, -1)), at.level)
    ensures ExecItem(w, Var(x, init), env, st, fuel, depth) ==
      var r := InitValue(w, init, env, st, fuel, depth);
      if !r.Done? then Abort(r) else Declare(env, x, r.v, r.st)
  {
    hide MakeInit, Eval, Functions.WithConstant, Define, Functions.Finish, Declare;
  }

  /** The value of the initializer becomes the slot of the new local. */
  lemma LocalStands(c: Scene, at: Spot, x: Ident, s: Config, st: State, m: seq<nat>, t: Config, n: seq<nat>, v: Datum,
      st': State, g: Made)
    requires Stands(c, at, s, st, m) && at.level > 0 && !Declared(c.chain[0].locals, x, at.level)
    requires Keeps(s, t, m, n) && Pushed(s, t, n, v) && Mirrors(t, st', n) && StateOk(st') && Known(v, |st'.routines|)
    requires g.Made? && SoundCode.Ready(g.pool, g.chain) && Ip(t) == Ip(s) + |g.code|
    requires g.chain[0].locals == c.chain[0].locals + [Lexical.Local(x, at.level, false)]
    ensures var o, own, after := n + [t.cells.locals[Height(s)]], Bind(c.own, x, |n|), st'.(store := st'.store + [v]);
      && Keeps(s, t, m, o) && s.cells.locals <= t.cells.locals
      && Stands(c.To(g).(own := own), at.Past(|g.code|), t, after, o)
  {
    hide SoundCode.Ready, Mirrors, StateOk, KeepsHeap, OwnMatch, OuterMatch, Compact;
    var cell, locals := t.cells.locals[Height(s)], c.chain[0].locals;
    var o, own, after := n + [cell], Bind(c.own, x, |n|), st'.(store := st'.store + [v]);
    PushedKeeps(s, t, n, v);
    KeepsMore(s, t, m, n, cell);
    VariableMirrors(t, st', n, cell, v);
    DeclareOk(c.own, x, v, st');
    HeapSize(s, t, m, n);
    InKept(c.h, s, t, m, n);
    OwnMore(locals, c.own, Slots(s), Slots(s), m, n);
    DeclareMatch(locals, x, at.level, c.own, Slots(s), n, cell);
    assert Slots(t) == Slots(s) + [cell];
    ScopedMore(locals, x, at.level);
    OuterMore(c.h.last, c.h.ups, c.h.outer, m, o);
    PastHere(at, |g.code|);
  }

  lemma ScopedMore(locals: seq<Lexical.Local>, x: string, level: nat)
    requires Discipline.Scoped(locals, level)
    ensures forall captured :: Discipline.Scoped(locals + [Lexical.Local(x, level, captured)], level)
  {
  }

  lemma {:induction false} LocalRuns(w: World, c: Scene, at: Spot, x: Ident, init: Option<Expr>, s: Config, st: State,
      m: seq<nat>, fuel: nat)
    returns (k: nat, t: Config, n: seq<nat>, own: Env)
    requires Stands(c, at, s, st, m) && Callable(w, c.depth) && at.level > 0
    requires Ahead(c.h, Ip(s), MakeItem(Var(x, init), at, c.pool, c.chain))
    ensures RunsItems(w, c, at, MakeItem(Var(x, init), at, c.pool, c.chain), s, m,
      ExecItem(w, Var(x, init), c.Env(), st, fuel, c.depth), k, t, n, own, fuel)
  {
    hide Mirrors, Steps, StateOk, Callable, KeepsHeap, SoundCode.Ready, Toward, Lexical.Grows, Holds, MakeInit,
      ExecItem, MakeItem, Stands, InitValue, OwnMatch, OuterMatch, AddLocal, Functions.Finish, Compact,
      Discipline.Scoped;
    StandsBegins(c, at, s, st, m);
    ReadyHere(c, s, st, m);
    VarShape(w, x, init, at, c.pool, c.chain, c.Env(), st, fuel, c.depth);
    ItemReady(Var(x, init), at, c.pool, c.chain);
    var between := AddLocal(c.chain, x, -1);
    var g, h := MakeInit(init, c.pool, between), MakeItem(Var(x, init), at, c.pool, c.chain);
    FinishParts(g, at.level);
    Growth.LocalAdded(c.pool, c.chain, x, -1);
    Growth.InitWider(init, c.pool, between);
    Growth.LocalGrows(c.chain, x, at.level, g);
    var d := c.(chain := between);
    EarlyBegins(c, d, x, s, st, m);
    FinishToward(g, at.level, c.h.last);
    k, t, n := InitRuns(w, d, init, s, st, m, fuel);
    var r := InitValue(w, init, c.Env(), st, fuel, c.depth);
    own := c.own;
    if r.Done? {
      InitOk(w, init, c.Env(), st, fuel, c.depth);
      LocalStands(c, at, x, s, st, m, t, n, r.v, r.st, h);
      MirrorsSize(t, r.st, n);
      BindJoined(c.h.outer, c.own, x, |n|);
      n, own := n + [t.cells.locals[Height(s)]], Bind(c.own, x, |n|);
    } else {
      ItemLeaves(w, c, at, h, s, m, |g.code|, r, k, t, n, own, fuel);
    }
  }

  lemma FinishParts(m: Made, level: nat)
    requires Functions.Finish(m, level).Made?
    ensures m.Made? && Functions.Finish(m, level).code == m.code && Functions.Finish(m, level).pool == m.pool
  {
  }

  lemma FinishToward(m: Made, level: nat, last: Chain)
    requires m.Made? && Toward(Functions.Finish(m, level).chain, last)
    ensures Toward(m.chain, last)
  {
    var after := Functions.Finish(m, level).chain;
    forall d | 1 <= d < |m.chain|
      ensures Lexical.LevelGrows(m.chain[d], last[d])
    {
      assert after[d] == m.chain[d];
    }
  }

  lemma EarlyBegins(c: Scene, d: Scene, x: Ident, s: Config, st: State, m: seq<nat>)
    requires Begins(c, s, st, m) && d == c.(chain := AddLocal(c.chain, x, -1)) && SoundCode.Ready(d.pool, d.chain)
    requires d.chain[0].locals == c.chain[0].locals + [Lexical.Local(x, -1, false)]
    ensures Begins(d, s, st, m)
  {
    hide SoundCode.Ready, Mirrors, StateOk, OwnMatch, OuterMatch;
    EarlyMatch(c.chain[0].locals, x, c.own, Slots(s), m);
  }

  // ----- global variables -----

  /** The definition takes its value off the stack. */
  lemma {:induction false} DefineRuns(w: World, c: Scene, x: Ident, pool: seq<Constant>, chain: Chain, s: Config,
      st: State, m: seq<nat>, v: Datum)
    returns (t: Config)
    requires In(c.h, s) && Mirrors(s, st, m) && Base(s) < Height(s) && Peek(s, 0) == v
    requires var def := Functions.WithConstant(OP_DEFINE_GLOBAL, Plain(Str(x)), pool, chain);
      def.Made? && def.pool <= c.h.f.pool && Holds(c.h.f.code, Ip(s), def.code)
    ensures Steps(w, s, 1) == Running(t) && Keeps(s, t, m, m) && Mirrors(t, st.(globals := st.globals[x := v]), m)
    ensures Ip(t) == Ip(s) + 2 && t.cells.locals == s.cells.locals[..Height(s) - 1]
  {
    hide Mirrors, Steps, KeepsHeap, Functions.WithConstant;
    GlobalName(c.h, OP_DEFINE_GLOBAL, x, pool, chain);
    OperandAt(w, s, c.h, OP_DEFINE_GLOBAL, FirstSame(pool, Plain(Str(x)), 0));
    var u := Popped(s, Ip(s) + 2, 1);
    PopMirrors(s, st, m, Ip(s) + 2, 1);
    SameGlobals(s, st, m);
    GlobalsMirror(u, st, m, x, v);
    KeepsGlobals(s, u, m, u.globals[x := v]);
    t := u.(globals := u.globals[x := v]);
  }

  /** A value has been pushed and taken off again to become a global. */
  lemma {:induction false} GlobalStands(w: World, c: Scene, at: Spot, x: Ident, s: Config, st: State, m: seq<nat>,
      k: nat, t: Config, n: seq<nat>, v: Datum, st': State, def: Made, g: Made)
    returns (u: Config)
    requires Stands(c, at, s, st, m) && at.level == 0 && Steps(w, s, k) == Running(t)
    requires Keeps(s, t, m, n) && Pushed(s, t, n, v) && Mirrors(t, st', n) && StateOk(st') && Known(v, |st'.routines|)
    requires g.Made? && SoundCode.Ready(g.pool, g.chain) && Lexical.Grows(c.chain, g.chain)
    requires def == Functions.WithConstant(OP_DEFINE_GLOBAL, Plain(Str(x)), c.pool, c.chain) && def.Made?
    requires def.pool <= c.h.f.pool && Holds(c.h.f.code, Ip(t), def.code) && Ip(t) + 2 == Ip(s) + |g.code|
    ensures var after := st'.(globals := st'.globals[x := v]);
      && Steps(w, s, k + 1) == Running(u) && Keeps(s, u, m, n) && Ip(u) == Ip(s) + |g.code|
      && u.cells.locals == s.cells.locals && Stands(c.To(g), at.Past(|g.code|), u, after, n)
  {
    hide SoundCode.Ready, Mirrors, StateOk, KeepsHeap, Fits, Lexical.Grows, Discipline.Scoped, Steps, Compact,
      Functions.WithConstant;
    StandsBegins(c, at, s, st, m);
    PushedKeeps(s, t, n, v);
    PushedPeek(s, t, n, v);
    InKept(c.h, s, t, m, n);
    u := DefineRuns(w, c, x, c.pool, c.chain, t, st', n, v);
    StepsCompose(w, s, k, 1);
    KeepsOn(s, t, u, m, n, n);
    assert u.cells.locals == s.cells.locals;
    DeclareOk([], x, v, st');
    PastHere(at, |g.code|);
    ThenStands(c, at, s, st, m, u, st'.(globals := st'.globals[x := v]), n, g, at.Past(|g.code|));
  }

  lemma DefineParts(def: Made, value: Made)
    requires def.Made? && Define(def, value).Made?
    ensures value.Made? && Define(def, value) == Made(value.code + def.code, value.pool, value.chain)
  {
  }

  lemma {:induction false} DefAhead(c: Scene, x: Ident)
    requires SoundCode.Ready(c.pool, c.chain)
    requires Functions.WithConstant(OP_DEFINE_GLOBAL, Plain(Str(x)), c.pool, c.chain).Made?
    ensures var def := Functions.WithConstant(OP_DEFINE_GLOBAL, Plain(Str(x)), c.pool, c.chain);
      && def.chain == c.chain && |def.code| == 2 && SoundCode.Ready(def.pool, c.chain)
  {
    hide SoundCode.Ready, Functions.WithConstant;
    ExprTypes.ConstantForm(OP_DEFINE_GLOBAL, Plain(Str(x)), c.pool, c.chain);
    Discipline.DefReady(x, c.pool, c.chain);
  }

  lemma {:induction false} GlobalRuns(w: World, c: Scene, at: Spot, x: Ident, init: Option<Expr>, s: Config, st: State,
      m: seq<nat>, fuel: nat)
    returns (k: nat, t: Config, n: seq<nat>, own: Env)
    requires Stands(c, at, s, st, m) && Callable(w, c.depth) && at.level == 0
    requires Ahead(c.h, Ip(s), MakeItem(Var(x, init), at, c.pool, c.chain))
    ensures RunsItems(w, c, at, MakeItem(Var(x, init), at, c.pool, c.chain), s, m,
      ExecItem(w, Var(x, init), c.Env(), st, fuel, c.depth), k, t, n, own, fuel)
  {
    hide Mirrors, Steps, StateOk, Callable, KeepsHeap, SoundCode.Ready, Toward, Lexical.Grows, MakeInit, ExecItem,
      MakeItem, Stands, InitValue, OwnMatch, OuterMatch, Compact, Discipline.Scoped, Functions.WithConstant, Define;
    StandsBegins(c, at, s, st, m);
    ReadyHere(c, s, st, m);
    VarShape(w, x, init, at, c.pool, c.chain, c.Env(), st, fuel, c.depth);
    ItemReady(Var(x, init), at, c.pool, c.chain);
    var def := Functions.WithConstant(OP_DEFINE_GLOBAL, Plain(Str(x)), c.pool, c.chain);
    DefAhead(c, x);
    var g, h := MakeInit(init, def.pool, c.chain), MakeItem(Var(x, init), at, c.pool, c.chain);
    DefineParts(def, g);
    HoldsSplit(c.h.f.code, Ip(s), g.code, def.code);
    Growth.InitWider(init, def.pool, c.chain);
    Growth.WiderGrows(c.chain, g.chain);
    TopLevel(c, at, s, st, m);
    var d := c.(pool := def.pool);
    assert Begins(d, s, st, m);
    k, t, n := InitRuns(w, d, init, s, st, m, fuel);
    var r := InitValue(w, init, c.Env(), st, fuel, c.depth);
    own := c.own;
    if r.Done? {
      InitOk(w, init, c.Env(), st, fuel, c.depth);
      var u := GlobalStands(w, c, at, x, s, st, m, k, t, n, r.v, r.st, def, h);
      k, t := k + 1, u;
    } else {
      ItemLeaves(w, c, at, h, s, m, |g.code|, r, k, t, n, own, fuel);
    }
  }

  lemma TopLevel(c: Scene, at: Spot, s: Config, st: State, m: seq<nat>)
    requires Stands(c, at, s, st, m) && at.level == 0
    ensures c.Env() == [] && c.own == [] && c.h.outer == []
  {
  }

  // ----- functions -----

  /** A closure instruction: the new closure is on top of the stack, and has captured the variables around it. */
  lemma {:induction false} ClosureRuns(w: World, h: Here, params: seq<Ident>, body: seq<Item>, pool: seq<Constant>,
      around: Chain, own: Env, s: Config, m: seq<nat>)
    returns (t: Config, f: Function, cells: seq<nat>)
    requires In(h, s) && SoundCode.Ready(pool, around) && Compact(h.f)
    requires ItemsOutline(body).Tame() && ItemsTame(body)
    requires Ahead(h, Ip(s), MakeFunction(params, body, pool, around))
    requires OwnMatch(around[0].locals, own, Slots(s) + [|s.cells.store|], m) && OuterMatch(h.last, h.ups, h.outer, m)
    requires |around[0].locals| <= |Slots(s)| + 1
    requires forall i :: 0 <= i < |around[0].locals| ==> around[0].locals[i].level != -1
    ensures |MakeFunction(params, body, pool, around).chain[0].locals| == |around[0].locals| && pool <= h.f.pool
    ensures f.arity == |params| && t == Closing(s, f, cells, Ip(s) + |MakeFunction(params, body, pool, around).code|)
    ensures Steps(w, s, 1) == Running(t)
    ensures MadeFrom(Routine(params, body, h.outer + own), CellMachine.Function.Function(|params|, cells), f, m, around)
    ensures OwnMatch(MakeFunction(params, body, pool, around).chain[0].locals, own, Slots(s) + [|s.cells.store|], m)
  {
    hide SoundCode.Ready, MakeItems, MakeFunction, OwnMatch, OuterMatch, Compact, ItemsTame, ItemsOutline, Toward,
      Steps, Lexical.WellLinked, InReach, CellFor, Holds, ClosureCode.Operands, Lexical.Grows, Functions.Distinct,
      StepByte;
    PoolCompact(h.f);
    ClosureMade(params, body, pool, around, h.f.pool);
    var k, g := MakeItems(body, BODY, [], Enter(params, around)), MakeFunction(params, body, pool, around);
    var entries := k.chain[0].upvalues;
    f := Ended(|params|, k);
    cells := CellsFor(Slots(s), |s.cells.store|, h.ups, entries);
    t := Closing(s, f, cells, Ip(s) + |g.code|);
    Growth.FunctionGrows(params, body, pool, around);
    Discipline.GrowsFlagged(around, g.chain);
    OwnFlagged(around[0].locals, g.chain[0].locals, own, Slots(s) + [|s.cells.store|], m);
    FlaggedLevels(around[0].locals, g.chain[0].locals);
    UpsMatch(h.last, h.ups, h.outer, m);
    ClosureReach(h, k.chain, |Slots(s)|);
    ClosureOuter(h, k.chain, own, Slots(s), m, |s.cells.store|);
    HoldsSplit(h.f.code, Ip(s), [OP_CLOSURE, |pool|], ClosureCode.Operands(entries));
    CapturesRead(s, h.f.code, Ip(s) + 2, entries, |entries|);
    assert cells[..|entries|] == cells;
    OperandAt(w, s, h, OP_CLOSURE, |pool|);
    ClosureSteps(w, s, h, |pool|, f, cells);
  }

  lemma ClosureSteps(w: World, s: Config, h: Here, i: byte, f: Function, cells: seq<nat>)
    requires In(h, s) && i < |h.f.pool| && h.f.pool[i] == Compiled(f) && Ip(s) + 2 + 2 * f.upvalues <= |h.f.code|
    requires CaptureAll(s, h.f.code, Ip(s) + 2, f.upvalues) == Some(cells)
    ensures StepByte(w, OP_CLOSURE, i, s) == Running(Closing(s, f, cells, Ip(s) + 2 + 2 * f.upvalues))
  {
    hide CaptureAll;
  }

  lemma PoolCompact(f: Function)
    requires Compact(f)
    ensures forall i :: 0 <= i < |f.pool| && f.pool[i].Compiled? ==> Compact(f.pool[i].f)
  {
  }

  lemma UpsMatch(last: Chain, ups: seq<nat>, outer: Env, m: seq<nat>)
    requires OuterMatch(last, ups, outer, m)
    ensures |ups| == |last[0].upvalues|
  {
  }

  lemma FlaggedLevels(a: seq<Lexical.Local>, b: seq<Lexical.Local>)
    requires ExprTypes.Flagged(a, b) && forall i :: 0 <= i < |a| ==> a[i].level != -1
    ensures |a| == |b| && forall i :: 0 <= i < |b| ==> b[i].level != -1
  {
  }

  /** One more routine, with its closure on top of the stack. */
  lemma ClosureMirrors(s: Config, st: State, m: seq<nat>, r: Routine, f: Function, cells: seq<nat>, ip: nat)
    requires Mirrors(s, st, m) && |s.ips| > 0
    requires RoutineOk(r, CellMachine.Function.Function(f.arity, cells), f, m)
    ensures var t, made := Closing(s, f, cells, ip), st.(routines := st.routines + [r]);
      Mirrors(t, made, m) && Keeps(s, t, m, m) && Pushed(s, t, m, Closure(|st.routines|)) && Ip(t) == ip
  {
    hide StoreMatch, RoutineOk;
    GrownStore(s.cells.store, st.store, m, Closure(|st.routines|));
    var made := st.routines + [r];
    forall id | 1 <= id < |made|
      ensures RoutineOk(made[id], Closing(s, f, cells, ip).cells.closures[id], Closing(s, f, cells, ip).codes[id], m)
    {
    }
  }

  /** The same, when the closure is a variable at once. */
  lemma LocalClosure(s: Config, st: State, m: seq<nat>, r: Routine, f: Function, cells: seq<nat>, ip: nat)
    requires Mirrors(s, st, m) && |s.ips| > 0
    requires RoutineOk(r, CellMachine.Function.Function(f.arity, cells), f, m + [|s.cells.store|])
    ensures var t, v := Closing(s, f, cells, ip), Closure(|st.routines|);
      && Mirrors(t, st.(routines := st.routines + [r], store := st.store + [v]), m + [|s.cells.store|])
      && Keeps(s, t, m, m + [|s.cells.store|]) && Ip(t) == ip
      && t.cells.locals == s.cells.locals + [|s.cells.store|]
  {
    hide StoreMatch, RoutineOk;
    var t, n, v := Closing(s, f, cells, ip), m + [|s.cells.store|], Closure(|st.routines|);
    NewStore(s.cells.store, st.store, m, v);
    RoutinesMore(s.cells.closures, s.codes, st.routines, m, n);
    var made := st.routines + [r];
    forall id | 1 <= id < |made|
      ensures RoutineOk(made[id], t.cells.closures[id], t.codes[id], n)
    {
    }
  }

  lemma NewStore(cells: seq<Datum>, store: seq<Datum>, m: seq<nat>, v: Datum)
    requires StoreMatch(cells, store, m)
    ensures StoreMatch(cells + [v], store + [v], m + [|cells|])
  {
  }

  lemma {:induction false} FunShape(w: World, x: Ident, params: seq<Ident>, body: seq<Item>, at: Spot,
      pool: seq<Constant>, chain: Chain, env: Env, st: State, fuel: nat, depth: nat)
    requires depth <= DEEPEST
    ensures at.level == 0 ==>
      MakeItem(Fun(x, params, body), at, pool, chain) ==
        var def := Functions.WithConstant(OP_DEFINE_GLOBAL, Plain(Str(x)), pool, chain);
        if !def.Made? then def else Define(def, MakeFunction(params, body, def.pool, def.chain))
    ensures at.level > 0 && MakeItem(Fun(x, params, body), at, pool, chain).Made? ==>
      && !Declared(chain[0].locals, x, at.level) && |chain[0].locals| <= UINT8_MAX
      && MakeItem(Fun(x, params, body), at, pool, chain)
           == MakeFunction(params, body, pool, AddLocal(chain, x, at.level))
    ensures ExecItem(w, Fun(x, params, body), env, st, fuel, depth) ==
      Declare(env, x, Closure(|st.routines|), st.(routines := st.routines + [Routine(params, body,
        if env == [] then env else Bind(env, x, |st.store|))]))
  {
    hide MakeFunction, Functions.WithConstant, Define, Declare;
  }

  /** A function in a scope is a variable of it before its body is compiled, and sees itself. */
  lemma {:induction false} LocalFunRuns(w: World, c: Scene, at: Spot, x: Ident, params: seq<Ident>, body: seq<Item>,
      s: Config, st: State, m: seq<nat>, fuel: nat)
    returns (k: nat, t: Config, n: seq<nat>, own: Env)
    requires Stands(c, at, s, st, m) && at.level > 0 && ItemTame(Fun(x, params, body))
    requires Ahead(c.h, Ip(s), MakeItem(Fun(x, params, body), at, c.pool, c.chain))
    ensures RunsItems(w, c, at, MakeItem(Fun(x, params, body), at, c.pool, c.chain), s, m,
      ExecItem(w, Fun(x, params, body), c.Env(), st, fuel, c.depth), k, t, n, own, fuel)
  {
    hide Mirrors, Steps, StateOk, KeepsHeap, SoundCode.Ready, Toward, Lexical.Grows, MakeFunction, ExecItem, MakeItem,
      Stands, OwnMatch, OuterMatch, Compact, Discipline.Scoped, AddLocal, MadeFrom, ItemsTame, ItemsOutline, Holds;
    StandsBegins(c, at, s, st, m);
    ReadyHere(c, s, st, m);
    FunShape(w, x, params, body, at, c.pool, c.chain, c.Env(), st, fuel, c.depth);
    var around, e := AddLocal(c.chain, x, at.level), |s.cells.store|;
    var g := MakeItem(Fun(x, params, body), at, c.pool, c.chain);
    Growth.LocalAdded(c.pool, c.chain, x, at.level);
    MirrorsSize(s, st, m);
    n, own := m + [e], Bind(c.own, x, |m|);
    DeclareMatch(c.chain[0].locals, x, at.level, c.own, Slots(s), m, e);
    OuterMore(c.h.last, c.h.ups, c.h.outer, m, n);
    ScopedMore(c.chain[0].locals, x, at.level);
    NoneEarly(around[0].locals, at.level);
    BindJoined(c.h.outer, c.own, x, |m|);
    var f, cells;
    t, f, cells := ClosureRuns(w, c.h, params, body, c.pool, around, own, s, n);
    k := 1;
    var r := Routine(params, body, c.h.outer + own);
    assert RoutineOk(r, CellMachine.Function.Function(|params|, cells), f, n);
    LocalClosure(s, st, m, r, f, cells, Ip(s) + |g.code|);
    LocalFunStands(c, at, x, params, body, s, st, m, t, n, own, r, g);
  }

  lemma NoneEarly(locals: seq<Lexical.Local>, level: nat)
    requires Discipline.Scoped(locals, level)
    ensures forall i :: 0 <= i < |locals| ==> locals[i].level != -1
  {
  }

  lemma {:induction false} LocalFunStands(c: Scene, at: Spot, x: Ident, params: seq<Ident>, body: seq<Item>, s: Config,
      st: State, m: seq<nat>, t: Config, n: seq<nat>, own: Env, r: Routine, g: Made)
    requires Stands(c, at, s, st, m) && at.level > 0 && ItemTame(Fun(x, params, body))
    requires g == MakeItem(Fun(x, params, body), at, c.pool, c.chain) && g.Made?
    requires Keeps(s, t, m, n) && Ip(t) == Ip(s) + |g.code| && t.cells.locals == s.cells.locals + [|s.cells.store|]
    requires n == m + [|s.cells.store|] && own == Bind(c.own, x, |m|)
    requires OwnMatch(g.chain[0].locals, own, Slots(s) + [|s.cells.store|], n)
    requires OuterMatch(c.h.last, c.h.ups, c.h.outer, n)
    requires |g.chain[0].locals| == |c.chain[0].locals| + 1
    requires Mirrors(t, st.(routines := st.routines + [r], store := st.store + [Closure(|st.routines|)]), n)
    ensures Stands(c.To(g).(own := own), at.Past(|g.code|), t,
      st.(routines := st.routines + [r], store := st.store + [Closure(|st.routines|)]), n)
  {
    hide Mirrors, StateOk, KeepsHeap, SoundCode.Ready, MakeItem, OwnMatch, OuterMatch, Compact, Discipline.Scoped,
      Discipline.GrowsOut;
    ItemReady(Fun(x, params, body), at, c.pool, c.chain);
    Growth.ItemGrows(Fun(x, params, body), at, c.pool, c.chain);
    Growth.OutScoped(c.chain, g.chain, at.level);
    InKept(c.h, s, t, m, n);
    assert Slots(t) == Slots(s) + [|s.cells.store|];
    MoreRoutines(st, st.(routines := st.routines + [r]));
    DeclareOk(c.own, x, Closure(|st.routines|), st.(routines := st.routines + [r]));
    PastHere(at, |g.code|);
  }

  /** A function at the top level becomes a global. */
  lemma {:induction false} GlobalFunRuns(w: World, c: Scene, at: Spot, x: Ident, params: seq<Ident>, body: seq<Item>,
      s: Config, st: State, m: seq<nat>, fuel: nat)
    returns (k: nat, t: Config, n: seq<nat>, own: Env)
    requires Stands(c, at, s, st, m) && at.level == 0 && ItemTame(Fun(x, params, body))
    requires Ahead(c.h, Ip(s), MakeItem(Fun(x, params, body), at, c.pool, c.chain))
    ensures RunsItems(w, c, at, MakeItem(Fun(x, params, body), at, c.pool, c.chain), s, m,
      ExecItem(w, Fun(x, params, body), c.Env(), st, fuel, c.depth), k, t, n, own, fuel)
  {
    hide Mirrors, Steps, StateOk, KeepsHeap, SoundCode.Ready, Toward, Lexical.Grows, MakeFunction, ExecItem, MakeItem,
      Stands, OwnMatch, OuterMatch, Compact, Discipline.Scoped, MadeFrom, ItemsTame, ItemsOutline,
      Functions.WithConstant, Define;
    StandsBegins(c, at, s, st, m);
    ReadyHere(c, s, st, m);
    FunShape(w, x, params, body, at, c.pool, c.chain, c.Env(), st, fuel, c.depth);
    ItemReady(Fun(x, params, body), at, c.pool, c.chain);
    TopLevel(c, at, s, st, m);
    var def := Functions.WithConstant(OP_DEFINE_GLOBAL, Plain(Str(x)), c.pool, c.chain);
    DefAhead(c, x);
    var g, h := MakeFunction(params, body, def.pool, c.chain), MakeItem(Fun(x, params, body), at, c.pool, c.chain);
    DefineParts(def, g);
    HoldsSplit(c.h.f.code, Ip(s), g.code, def.code);
    Growth.FunctionGrows(params, body, def.pool, c.chain);
    NoneEarly(c.chain[0].locals, at.level);
    OwnMore(c.chain[0].locals, c.own, Slots(s), Slots(s) + [|s.cells.store|], m, m);
    var f, cells;
    t, f, cells := ClosureRuns(w, c.h, params, body, def.pool, c.chain, c.own, s, m);
    var r := Routine(params, body, []);
    assert RoutineOk(r, CellMachine.Function.Function(|params|, cells), f, m);
    ClosureMirrors(s, st, m, r, f, cells, Ip(s) + |g.code|);
    MoreRoutines(st, st.(routines := st.routines + [r]));
    n, own := m, c.own;
    var u := GlobalStands(w, c, at, x, s, st, m, 1, t, n, Closure(|st.routines|), st.(routines := st.routines + [r]),
      def, h);
    k, t := 2, u;
  }
}
