/** The code of an expression, in a script with functions, computes the value of the expression, if every call it makes
    does what the routine's body does. */
module ExprRuns {
  import opened Values
  import opened Bytecode
  import opened Functions
  import opened Meaning
  import opened Agreement
  import opened Engine
  import opened Running
  import CellMachine
  import Codegen
  import ExprTypes
  import Growth
  import Lexical
  import SoundCode
  import Syntax

  /** The code of a piece is what the machine executes next; the function's constants, and the chain at its end, are
      those of the piece or have grown from them. */
  ghost predicate Ahead(h: Here, ip: nat, k: Made) {
    k.Made? && Holds(h.f.code, ip, k.code) && k.pool <= h.f.pool && Toward(k.chain, h.last)
  }

  // ----- constants -----

  lemma ConstantThere(op: byte, k: Constant, pool: seq<Constant>, chain: Chain, full: seq<Constant>)
    requires Functions.WithConstant(op, k, pool, chain).Made?
    requires Functions.WithConstant(op, k, pool, chain).pool <= full
    ensures var i := FirstSame(pool, k, 0);
      && i <= UINT8_MAX && i < |full| && full[i] == k && pool <= full
      && Functions.WithConstant(op, k, pool, chain).code == [op, i]
  {
  }

  lemma {:induction false} LiteralRuns(w: World, h: Here, v: Value, pool: seq<Constant>, chain: Chain, s: Config,
      st: State, m: seq<nat>, fuel: nat)
    returns (t: Config)
    requires In(h, s) && Mirrors(s, st, m) && Ahead(h, Ip(s), MakeLiteral(v, pool, chain))
    ensures Computes(w, s, m, |MakeLiteral(v, pool, chain).code|, Done(Basic(v), st), 1, t, m, fuel)
  {
    hide Mirrors, Steps, Keeps;
    var code := MakeLiteral(v, pool, chain).code;
    match v {
      case Nil => SimpleAt(w, s, h, OP_NIL);
      case Bool(b) => SimpleAt(w, s, h, if b then OP_TRUE else OP_FALSE);
      case _ =>
        ConstantThere(OP_CONSTANT, Plain(v), pool, chain, h.f.pool);
        OperandAt(w, s, h, OP_CONSTANT, FirstSame(pool, Plain(v), 0));
    }
    t := Replace(s, Ip(s) + |code|, 0, Basic(v));
    ReplaceMirrors(s, st, m, Ip(s) + |code|, 0, Basic(v));
  }

  // ----- variables -----

  lemma LoadCell(s: Config, st: State, m: seq<nat>, l: nat)
    requires Mirrors(s, st, m) && l < |m|
    ensures l < |st.store| && m[l] < |s.cells.store| && Load(s.cells, m[l]) == st.store[l]
  {
  }

  lemma NoOwn(locals: seq<Lexical.Local>, own: Env, cells: seq<nat>, m: seq<nat>, x: string)
    requires OwnMatch(locals, own, cells, m) && Lexical.Newest(locals, x) == -1
    ensures Place(own, x) == None
  {
    NotOwn(locals, own, x);
  }

  /** How a name is reached: its variable's cell is in a slot or in an upvalue, or it stands for no variable. */
  lemma {:induction false} AccessFinds(h: Here, ops: Ops, x: Ident, pool: seq<Constant>, chain: Chain, own: Env,
      s: Config, st: State, m: seq<nat>)
    requires Fits(h, chain, own, s, m) && Mirrors(s, st, m)
    requires Ahead(h, Ip(s), Access(ops, x, pool, chain)) && Lexical.WellLinked(chain)
    ensures var slot, u, k := Lexical.Newest(chain[0].locals, x), Lexical.ResolveUp(chain, x),
        Access(ops, x, pool, chain);
      if slot >= 0 then
        && slot <= UINT8_MAX && k.code == [ops.local, slot] && Base(s) + slot < Height(s)
        && Place(h.outer + own, x).Some? && Place(h.outer + own, x).value < |m|
        && s.cells.locals[Base(s) + slot] == m[Place(h.outer + own, x).value]
      else if u.index >= 0 then
        && u.index <= UINT8_MAX && k.code == [ops.up, u.index] && u.index < |h.ups|
        && Place(h.outer + own, x).Some? && Place(h.outer + own, x).value < |m|
        && h.ups[u.index] == m[Place(h.outer + own, x).value]
      else
        && Place(h.outer + own, x).None?
        && k == Functions.WithConstant(ops.global, Plain(Str(x)), pool, u.chain)
  {
    hide Mirrors, Lexical.ResolveUp, Lexical.Newest, OwnMatch, OuterMatch, Lexical.WellLinked, Functions.WithConstant,
      Toward, Place, Holds;
    var slot, u := Lexical.Newest(chain[0].locals, x), Lexical.ResolveUp(chain, x);
    PlaceJoined(h.outer, own, x);
    if slot >= 0 {
      OwnPlace(chain[0].locals, own, Slots(s), m, x);
    } else {
      NoOwn(chain[0].locals, own, Slots(s), m, x);
      Lexical.LookupGrows(chain, x);
      if u.index < 0 { ExprTypes.ConstantForm(ops.global, Plain(Str(x)), pool, u.chain); }
      UpPlace(chain, h.last, h.ups, h.outer, m, x);
    }
  }

  /** Reading a variable. */
  lemma {:induction false} LoadRuns(w: World, h: Here, x: Ident, pool: seq<Constant>, chain: Chain, own: Env, s: Config,
      st: State, m: seq<nat>, fuel: nat)
    returns (t: Config)
    requires Fits(h, chain, own, s, m) && Mirrors(s, st, m)
    requires Ahead(h, Ip(s), Access(GET, x, pool, chain)) && Lexical.WellLinked(chain)
    ensures Computes(w, s, m, 2, Read(h.outer + own, x, st), 1, t, m, fuel)
  {
    hide Mirrors, Steps, Keeps, Lexical.ResolveUp, Lexical.Newest, OwnMatch, OuterMatch, Lexical.WellLinked,
      Functions.WithConstant, Toward, Place, Holds, Access;
    var slot, u := Lexical.Newest(chain[0].locals, x), Lexical.ResolveUp(chain, x);
    AccessFinds(h, GET, x, pool, chain, own, s, st, m);
    t := s;
    if slot >= 0 || u.index >= 0 {
      var l := Place(h.outer + own, x).value;
      LoadCell(s, st, m, l);
      if slot >= 0 {
        OperandAt(w, s, h, OP_GET_LOCAL, slot);
      } else {
        OperandAt(w, s, h, OP_GET_UPVALUE, u.index);
      }
      t := Replace(s, Ip(s) + 2, 0, st.store[l]);
      ReplaceMirrors(s, st, m, Ip(s) + 2, 0, st.store[l]);
    } else {
      GlobalName(h, OP_GET_GLOBAL, x, pool, u.chain);
      OperandAt(w, s, h, OP_GET_GLOBAL, FirstSame(pool, Plain(Str(x)), 0));
      SameGlobals(s, st, m);
      if x in st.globals {
        t := Replace(s, Ip(s) + 2, 0, st.globals[x]);
        ReplaceMirrors(s, st, m, Ip(s) + 2, 0, st.globals[x]);
      }
    }
  }

  lemma SameGlobals(s: Config, st: State, m: seq<nat>)
    requires Mirrors(s, st, m)
    ensures s.globals == st.globals && s.output == st.output
  {
  }

  lemma GlobalName(h: Here, op: byte, x: Ident, pool: seq<Constant>, chain: Chain)
    requires Functions.WithConstant(op, Plain(Str(x)), pool, chain).Made?
    requires Functions.WithConstant(op, Plain(Str(x)), pool, chain).pool <= h.f.pool
    ensures var i := FirstSame(pool, Plain(Str(x)), 0);
      && i <= UINT8_MAX && i < |h.f.pool| && h.f.pool[i] == Plain(Str(x))
      && Functions.WithConstant(op, Plain(Str(x)), pool, chain).code == [op, i]
  {
    ConstantThere(op, Plain(Str(x)), pool, chain, h.f.pool);
  }

  /** The result of an instruction that leaves the value on top of the stack where it is. */
  ghost predicate Stores(w: World, s: Config, m: seq<nat>, r: ExprResult, t: Config)
    requires |s.ips| > 0
  {
    match r
    case Done(_, st) =>
      && Steps(w, s, 1) == Running(t) && Keeps(s, t, m, m) && Ip(t) == Ip(s) + 2 && Mirrors(t, st, m)
      && t.cells.locals == s.cells.locals
    case Fault(st) => Steps(w, s, 1) == Status.Error(t) && t.globals == st.globals && t.output == st.output
    case Exhausted => false
  }

  /** Writing a variable, with the value on top of the stack. */
  lemma {:induction false} StoreRuns(w: World, h: Here, x: Ident, pool: seq<Constant>, chain: Chain, own: Env,
      s: Config, st: State, m: seq<nat>)
    returns (t: Config)
    requires Fits(h, chain, own, s, m) && Mirrors(s, st, m) && Height(s) > 0
    requires Ahead(h, Ip(s), Access(SET, x, pool, chain)) && Lexical.WellLinked(chain)
    ensures Stores(w, s, m, Write(h.outer + own, x, Peek(s, 0), st), t)
  {
    hide Mirrors, Steps, Keeps, Lexical.ResolveUp, Lexical.Newest, OwnMatch, OuterMatch, Lexical.WellLinked,
      Functions.WithConstant, Toward, Place, Holds, Access;
    var slot, u, v := Lexical.Newest(chain[0].locals, x), Lexical.ResolveUp(chain, x), Peek(s, 0);
    AccessFinds(h, SET, x, pool, chain, own, s, st, m);
    t := s;
    if slot >= 0 || u.index >= 0 {
      var l := Place(h.outer + own, x).value;
      LoadCell(s, st, m, l);
      if slot >= 0 {
        OperandAt(w, s, h, OP_SET_LOCAL, slot);
      } else {
        OperandAt(w, s, h, OP_SET_UPVALUE, u.index);
      }
      t := At(s.(cells := Save(s.cells, m[l], v)), Ip(s) + 2);
      SaveMirrors(s, st, m, l, v, Ip(s) + 2);
    } else {
      GlobalName(h, OP_SET_GLOBAL, x, pool, u.chain);
      OperandAt(w, s, h, OP_SET_GLOBAL, FirstSame(pool, Plain(Str(x)), 0));
      SameGlobals(s, st, m);
      if x in st.globals {
        t := At(s, Ip(s) + 2).(globals := s.globals[x := v]);
        AtMirrors(s, st, m, Ip(s) + 2);
        GlobalsMirror(At(s, Ip(s) + 2), st, m, x, v);
        KeepsGlobals(s, At(s, Ip(s) + 2), m, t.globals);
      }
    }
  }

  lemma GlobalsMirror(s: Config, st: State, m: seq<nat>, x: string, v: Datum)
    requires Mirrors(s, st, m)
    ensures Mirrors(s.(globals := s.globals[x := v]), st.(globals := st.globals[x := v]), m)
  {
    hide RoutinesMatch, StoreMatch;
  }

  lemma KeepsGlobals(s: Config, t: Config, m: seq<nat>, globals: map<string, Datum>)
    requires Keeps(s, t, m, m)
    ensures Keeps(s, t.(globals := globals), m, m)
  {
  }

  // ----- calls, as far as expressions see them -----

  /** A closure has just been entered, with its arguments in its first slots. */
  ghost predicate Entered(s: Config, st: State, m: seq<nat>, id: nat, depth: nat) {
    && Active(s) && |s.cells.frames| == depth <= DEEPEST && 1 <= id < |st.routines|
    && CellMachine.Running(s.cells).closure == id && Ip(s) == 0 && Mirrors(s, st, m) && StateOk(st)
    && var n := |st.routines[id].params|;
      && Base(s) + 1 + n == Height(s) && n <= |m|
      && m[|m| - n..] == s.cells.locals[Base(s) + 1..]
  }

  /** What the routine's body makes of it. */
  ghost function BodyResult(w: World, st: State, id: nat, fuel: nat, depth: nat): ExprResult
    requires id < |st.routines| && depth <= DEEPEST && |st.routines[id].params| <= |st.store|
  {
    var r := st.routines[id];
    Meaning.Outcome(ExecAll(w, r.body, r.env + [Formals(r.params, |st.store| - |r.params|)], st, fuel, depth))
  }

  /** The call is over: its slots have given way to its result. */
  ghost predicate CallEnds(w: World, s: Config, m: seq<nat>, r: ExprResult, k: nat, t: Config, n: seq<nat>, fuel: nat)
    requires Active(s)
  {
    match r
    case Done(v, st) =>
      && Steps(w, s, k) == Running(t) && KeepsHeap(s, t, m, n) && Mirrors(t, st, n)
      && t.cells.frames == s.cells.frames[..|s.cells.frames| - 1] && t.ips == s.ips[..|s.ips| - 1]
      && Base(s) <= Height(s) && Height(t) == Base(s) + 1 && t.cells.locals[..Base(s)] == s.cells.locals[..Base(s)]
      && var c := t.cells.locals[Base(s)];
        |s.cells.store| <= c < |t.cells.store| && c !in n && t.cells.store[c] == v
    case Fault(st) => Steps(w, s, k) == Status.Error(t) && t.globals == st.globals && t.output == st.output
    case Exhausted => Steps(w, s, k) == Running(t) && k >= fuel
  }

  ghost predicate CallRuns(w: World, s: Config, st: State, m: seq<nat>, id: nat, fuel: nat, depth: nat)
    requires Entered(s, st, m, id, depth)
  {
    MirrorsSize(s, st, m);
    exists k: nat, t: Config, n: seq<nat> :: CallEnds(w, s, m, BodyResult(w, st, id, fuel, depth), k, t, n, fuel)
  }

  lemma MirrorsSize(s: Config, st: State, m: seq<nat>)
    requires Mirrors(s, st, m)
    ensures |m| == |st.store| && |s.cells.closures| == |s.codes| == |st.routines|
  {
  }

  /** Every call that is as deep does what its routine's body does. */
  ghost predicate Faithful(w: World, depth: nat) {
    forall s: Config, st: State, m: seq<nat>, id: nat, fuel: nat ::
      Entered(s, st, m, id, depth) ==> CallRuns(w, s, st, m, id, fuel, depth)
  }

  ghost predicate Callable(w: World, depth: nat) {
    depth < DEEPEST ==> Faithful(w, depth + 1)
  }

  // ----- putting computations together -----

  /** A place in the code of a function: the function, the constants and the chain of compilers there, the function's
      own scopes, and how many calls are active. */
  datatype Scene = Scene(h: Here, pool: seq<Constant>, chain: Chain, own: Env, depth: nat) {
    function Env(): Env { h.outer + own }

    function To(k: Made): Scene
      requires k.Made?
    {
      this.(pool := k.pool, chain := k.chain)
    }
  }

  /** The code of a piece is about to be executed. */
  ghost predicate Begins(c: Scene, s: Config, st: State, m: seq<nat>) {
    && SoundCode.Ready(c.pool, c.chain) && Fits(c.h, c.chain, c.own, s, m) && Mirrors(s, st, m) && StateOk(st)
    && |s.cells.frames| == c.depth <= DEEPEST
  }

  /** After a piece that leaves everything below it alone, the next one begins. */
  lemma ThenBegins(c: Scene, s: Config, st: State, m: seq<nat>, t: Config, st': State, n: seq<nat>, k: Made)
    requires Begins(c, s, st, m) && Keeps(s, t, m, n) && Mirrors(t, st', n) && StateOk(st')
    requires s.cells.locals <= t.cells.locals
    requires k.Made? && SoundCode.Ready(k.pool, k.chain) && Lexical.Grows(c.chain, k.chain)
    ensures Begins(c.To(k), t, st', n)
  {
    hide SoundCode.Ready, Mirrors, StateOk, Fits, KeepsHeap, Lexical.Grows;
    FitsKept(c.h, c.chain, c.own, s, t, m, n);
    FitsFlagged(c.h, c.chain, k.chain, c.own, t, n);
  }

  lemma PushedKeeps(s: Config, t: Config, n: seq<nat>, v: Datum)
    requires Pushed(s, t, n, v)
    ensures s.cells.locals <= t.cells.locals && |s.cells.locals| + 1 == |t.cells.locals|
  {
    assert s.cells.locals == t.cells.locals[..Height(s)];
  }

  lemma PushedAllKeeps(s: Config, t: Config, n: seq<nat>, vs: seq<Datum>)
    requires PushedAll(s, t, n, vs)
    ensures s.cells.locals <= t.cells.locals && |s.cells.locals| + |vs| == |t.cells.locals|
  {
    assert s.cells.locals == t.cells.locals[..Height(s)];
  }

  /** A computation that stops after one that succeeded. */
  lemma ThenStops(w: World, s: Config, m: seq<nat>, k: nat, t: Config, n: seq<nat>, len: nat, r: ExprResult, j: nat,
      u: Config, o: seq<nat>, fuel: nat, all: nat)
    requires |s.ips| > 0 && |t.ips| > 0 && Steps(w, s, k) == Running(t) && Computes(w, t, n, len, r, j, u, o, fuel)
    requires !r.Done?
    ensures Computes(w, s, m, all, r, k + j, u, o, fuel)
  {
    hide Steps;
    StepsCompose(w, s, k, j);
  }

  /** The computation from `s`, once the machine is at `t` with nothing more on the stack. */
  lemma Resumes(w: World, s: Config, m: seq<nat>, k: nat, t: Config, n: seq<nat>, len: nat, r: ExprResult, j: nat,
      u: Config, o: seq<nat>, fuel: nat)
    requires |s.ips| > 0 && Steps(w, s, k) == Running(t) && Keeps(s, t, m, n) && Ip(s) <= Ip(t)
    requires t.cells.locals == s.cells.locals && Computes(w, t, n, len, r, j, u, o, fuel)
    ensures Computes(w, s, m, Ip(t) - Ip(s) + len, r, k + j, u, o, fuel)
  {
    hide Steps, Mirrors, KeepsHeap;
    StepsCompose(w, s, k, j);
    if r.Done? {
      KeepsOn(s, t, u, m, n, o);
      HeapSize(s, t, m, n);
    }
  }

  /** What replaces everything pushed since `s` has been pushed. */
  lemma Settles(s: Config, u: Config, m: seq<nat>, n: seq<nat>, x: Config, ip: nat, i: nat, v: Datum)
    requires Keeps(s, u, m, n) && s.cells.locals <= u.cells.locals && Height(u) == Height(s) + i
    requires Replaces(u, x, n, ip, i, v)
    ensures Keeps(s, x, m, n) && Pushed(s, x, n, v) && Ip(x) == ip
  {
    hide KeepsHeap;
    KeepsOn(s, u, x, m, n, n);
    HeapSize(s, u, m, n);
    assert u.cells.locals[..Height(s)] == s.cells.locals;
  }

  // ----- one level of compiling and evaluating -----

  lemma {:induction false} UnaryShape(w: World, op: Syntax.UnOp, a: Expr, pool: seq<Constant>, chain: Chain, env: Env,
      st: State, fuel: nat, depth: nat)
    requires depth <= DEEPEST
    ensures MakeExpr(Syntax.Unary(op, a), pool, chain) == MakeExpr(a, pool, chain).Append(Codegen.UnaryCode(op))
    ensures Eval(w, Syntax.Unary(op, a), env, st, fuel, depth) ==
      var r := Eval(w, a, env, st, fuel, depth);
      if !r.Done? then r else Meaning.Finish(UnaryDatum(w.pr, op, r.v), r.st)
  {
    hide UnaryDatum;
  }

  lemma {:induction false} AssignShape(w: World, x: Ident, rhs: Expr, pool: seq<Constant>, chain: Chain, env: Env,
      st: State, fuel: nat, depth: nat)
    requires depth <= DEEPEST
    ensures MakeExpr(Syntax.Assign(x, rhs), pool, chain) ==
      var a := Access(SET, x, pool, chain);
      if !a.Made? then a else MakeExpr(rhs, a.pool, a.chain).Append(a.code)
    ensures Eval(w, Syntax.Assign(x, rhs), env, st, fuel, depth) ==
      var r := Eval(w, rhs, env, st, fuel, depth);
      if !r.Done? then r else Write(env, x, r.v, r.st)
  {
    hide Access, Write;
  }

  lemma {:induction false} BinaryShape(w: World, op: Syntax.BinOp, a: Expr, b: Expr, pool: seq<Constant>, chain: Chain,
      env: Env, st: State, fuel: nat, depth: nat)
    requires depth <= DEEPEST
    ensures MakeExpr(Syntax.Binary(op, a, b), pool, chain) ==
      var g := MakeExpr(a, pool, chain);
      if !g.Made? then g
      else
        var h := MakeExpr(b, g.pool, g.chain);
        if !h.Made? then h else Made(g.code + h.code + Codegen.BinaryCode(op), h.pool, h.chain)
    ensures Eval(w, Syntax.Binary(op, a, b), env, st, fuel, depth) ==
      var r := Eval(w, a, env, st, fuel, depth);
      if !r.Done? then r
      else
        var q := Eval(w, b, env, r.st, fuel, depth);
        if !q.Done? then q else Meaning.Finish(BinaryDatum(w.pr, op, r.v, q.v), q.st)
  {
    hide Codegen.BinaryCode, BinaryDatum;
  }

  // ----- expressions -----

  /** The main lemma on expressions. */
  lemma {:induction false} ExprRuns(w: World, c: Scene, e: Expr, s: Config, st: State, m: seq<nat>, fuel: nat)
    returns (k: nat, t: Config, n: seq<nat>)
    requires Begins(c, s, st, m) && Ahead(c.h, Ip(s), MakeExpr(e, c.pool, c.chain)) && Callable(w, c.depth)
    ensures Computes(w, s, m, |MakeExpr(e, c.pool, c.chain).code|, Eval(w, e, c.Env(), st, fuel, c.depth), k, t, n,
      fuel)
    decreases e, 1
  {
    hide Mirrors, Steps, Keeps, StateOk, OwnMatch, OuterMatch, Callable, Access, MakeLiteral, Read;
    match e
    case Literal(v) =>
      k, n := 1, m;
      t := LiteralRuns(w, c.h, v, c.pool, c.chain, s, st, m, fuel);
    case Variable(x) =>
      k, n := 1, m;
      AccessBytes(GET, x, c.pool, c.chain);
      t := LoadRuns(w, c.h, x, c.pool, c.chain, c.own, s, st, m, fuel);
    case Assign(x, rhs) => k, t, n := AssignRuns(w, c, x, rhs, s, st, m, fuel);
    case Unary(op, a) => k, t, n := UnariesRun(w, c, op, a, s, st, m, fuel);
    case Binary(op, a, b) => k, t, n := BinariesRun(w, c, op, a, b, s, st, m, fuel);
    case Conj(a, b) => k, t, n := ShortRuns(w, c, e, OP_JUMP_IF_FALSE, a, b, s, st, m, fuel);
    case Disj(a, b) => k, t, n := ShortRuns(w, c, e, OP_JUMP_IF_TRUE, a, b, s, st, m, fuel);
    case Call(f, args) => k, t, n := CallsRun(w, c, f, args, s, st, m, fuel);
  }

  lemma AccessBytes(ops: Ops, x: string, pool: seq<Constant>, chain: Chain)
    requires Access(ops, x, pool, chain).Made?
    ensures |Access(ops, x, pool, chain).code| == 2
  {
  }

  lemma {:induction false} UnaryRuns(w: World, op: Syntax.UnOp, s: Config, h: Here, st: State, m: seq<nat>)
    returns (t: Config)
    requires In(h, s) && Mirrors(s, st, m) && Holds(h.f.code, Ip(s), Codegen.UnaryCode(op)) && Height(s) > 0
    ensures var r := UnaryDatum(w.pr, op, Peek(s, 0));
      if r.Some? then
        Steps(w, s, 1) == Running(t) && Mirrors(t, st, m) && Replaces(s, t, m, Ip(s) + 1, 1, r.value)
      else t == s && Steps(w, s, 1) == Status.Error(s)
  {
    hide Mirrors, Steps, Keeps;
    var code := Codegen.UnaryCode(op);
    assert code == [code[0]];
    SimpleAt(w, s, h, code[0]);
    var r := UnaryDatum(w.pr, op, Peek(s, 0));
    t := s;
    if r.Some? {
      t := Replace(s, Ip(s) + 1, 1, r.value);
      ReplaceReplaces(s, st, m, Ip(s) + 1, 1, r.value);
    }
  }

  lemma {:induction false} UnariesRun(w: World, c: Scene, op: Syntax.UnOp, a: Expr, s: Config, st: State, m: seq<nat>,
      fuel: nat)
    returns (k: nat, t: Config, n: seq<nat>)
    requires Begins(c, s, st, m) && Callable(w, c.depth)
    requires Ahead(c.h, Ip(s), MakeExpr(Syntax.Unary(op, a), c.pool, c.chain))
    ensures Computes(w, s, m, |MakeExpr(Syntax.Unary(op, a), c.pool, c.chain).code|,
      Eval(w, Syntax.Unary(op, a), c.Env(), st, fuel, c.depth), k, t, n, fuel)
    decreases Syntax.Unary(op, a), 0
  {
    hide Mirrors, Steps, KeepsHeap, StateOk, OwnMatch, OuterMatch, Callable, UnaryDatum, SoundCode.Ready, MakeExpr,
      Eval, Toward;
    UnaryShape(w, op, a, c.pool, c.chain, c.Env(), st, fuel, c.depth);
    var g := MakeExpr(a, c.pool, c.chain);
    HoldsSplit(c.h.f.code, Ip(s), g.code, Codegen.UnaryCode(op));
    k, t, n := ExprRuns(w, c, a, s, st, m, fuel);
    var r := Eval(w, a, c.Env(), st, fuel, c.depth);
    if r.Done? {
      PushedKeeps(s, t, n, r.v);
      PushedPeek(s, t, n, r.v);
      InKept(c.h, s, t, m, n);
      var u := UnaryRuns(w, op, t, c.h, r.st, n);
      StepsCompose(w, s, k, 1);
      if UnaryDatum(w.pr, op, r.v).Some? {
        Settles(s, t, m, n, u, Ip(t) + 1, 1, UnaryDatum(w.pr, op, r.v).value);
      } else {
        SameGlobals(t, r.st, n);
      }
      k, t := k + 1, u;
    }
  }

  /** The store comes last, though its name was looked up first. */
  lemma {:induction false} AssignRuns(w: World, c: Scene, x: Ident, rhs: Expr, s: Config, st: State, m: seq<nat>,
      fuel: nat)
    returns (k: nat, t: Config, n: seq<nat>)
    requires Begins(c, s, st, m) && Callable(w, c.depth)
    requires Ahead(c.h, Ip(s), MakeExpr(Syntax.Assign(x, rhs), c.pool, c.chain))
    ensures Computes(w, s, m, |MakeExpr(Syntax.Assign(x, rhs), c.pool, c.chain).code|,
      Eval(w, Syntax.Assign(x, rhs), c.Env(), st, fuel, c.depth), k, t, n, fuel)
    decreases Syntax.Assign(x, rhs), 0
  {
    hide Mirrors, Steps, StateOk, OwnMatch, OuterMatch, Callable, Access, Lexical.Grows, Write, KeepsHeap, MakeExpr,
      Eval, Toward;
    AssignShape(w, x, rhs, c.pool, c.chain, c.Env(), st, fuel, c.depth);
    var a := Access(SET, x, c.pool, c.chain);
    var g := MakeExpr(rhs, a.pool, a.chain);
    HoldsSplit(c.h.f.code, Ip(s), g.code, a.code);
    AccessAhead(c, x, rhs, Ip(s));
    AccessBytes(SET, x, c.pool, c.chain);
    KeepsSelf(s, m);
    ThenBegins(c, s, st, m, s, st, m, a);
    k, t, n := ExprRuns(w, c.To(a), rhs, s, st, m, fuel);
    var r := Eval(w, rhs, c.Env(), st, fuel, c.depth);
    if r.Done? {
      PushedKeeps(s, t, n, r.v);
      PushedPeek(s, t, n, r.v);
      FitsKept(c.h, c.chain, c.own, s, t, m, n);
      var u := StoreRuns(w, c.h, x, c.pool, c.chain, c.own, t, r.st, n);
      WriteGives(c.Env(), x, r.v, r.st);
      StepsCompose(w, s, k, 1);
      if Write(c.Env(), x, r.v, r.st).Done? { StoreSettles(s, t, m, n, r.v, u); }
      k, t := k + 1, u;
    }
  }

  lemma WriteGives(env: Env, x: string, v: Datum, st: State)
    ensures var r := Write(env, x, v, st); !r.Exhausted? && (r.Done? ==> r.v == v)
  {
  }

  lemma {:induction false} AccessAhead(c: Scene, x: Ident, rhs: Expr, ip: nat)
    requires SoundCode.Ready(c.pool, c.chain) && Ahead(c.h, ip, MakeExpr(Syntax.Assign(x, rhs), c.pool, c.chain))
    ensures var a := Access(SET, x, c.pool, c.chain);
      && a.Made? && SoundCode.Ready(a.pool, a.chain) && Lexical.Grows(c.chain, a.chain) && a.pool <= c.h.f.pool
      && Toward(a.chain, c.h.last)
  {
    hide SoundCode.Ready, Access, Toward, Lexical.Grows, Holds;
    var a := Access(SET, x, c.pool, c.chain);
    Growth.AccessWider(SET, x, c.pool, c.chain);
    Growth.AccessReady(SET, x, c.pool, c.chain);
    var g := MakeExpr(rhs, a.pool, a.chain);
    Growth.ExprGrows(rhs, a.pool, a.chain);
    ExprTypes.ExprReady(rhs, a.pool, a.chain);
    TowardBefore(a.chain, g.chain, c.h.last);
  }

  /** The value that has been stored stays on the stack. */
  lemma StoreSettles(s: Config, t: Config, m: seq<nat>, n: seq<nat>, v: Datum, u: Config)
    requires Keeps(s, t, m, n) && Pushed(s, t, n, v) && Keeps(t, u, n, n) && u.cells.locals == t.cells.locals
    ensures Keeps(s, u, m, n) && Pushed(s, u, n, v)
  {
    KeepsOn(s, t, u, m, n, n);
  }

  // ----- two operands -----

  /** The code of two operands, one after the other. */
  lemma {:induction false} PairAhead(c: Scene, a: Expr, b: Expr)
    requires SoundCode.Ready(c.pool, c.chain) && MakeExpr(a, c.pool, c.chain).Made?
    requires var g := MakeExpr(a, c.pool, c.chain);
      var h := MakeExpr(b, g.pool, g.chain);
      h.Made? && h.pool <= c.h.f.pool && Toward(h.chain, c.h.last)
    ensures var g := MakeExpr(a, c.pool, c.chain);
      && g.pool <= c.h.f.pool && Toward(g.chain, c.h.last)
      && SoundCode.Ready(g.pool, g.chain) && Lexical.Grows(c.chain, g.chain)
  {
    hide SoundCode.Ready, MakeExpr, Toward, Lexical.Grows;
    var g := MakeExpr(a, c.pool, c.chain);
    Growth.ExprGrows(a, c.pool, c.chain);
    ExprTypes.ExprReady(a, c.pool, c.chain);
    Growth.ExprGrows(b, g.pool, g.chain);
    ExprTypes.ExprReady(b, g.pool, g.chain);
    TowardBefore(g.chain, MakeExpr(b, g.pool, g.chain).chain, c.h.last);
  }

  /** The two operands of an operator are on top of the stack. */
  lemma Operands(s: Config, t: Config, u: Config, m: seq<nat>, n: seq<nat>, o: seq<nat>, a: Datum, b: Datum)
    requires Keeps(s, t, m, n) && Pushed(s, t, n, a) && Keeps(t, u, n, o) && Pushed(t, u, o, b)
    ensures Keeps(s, u, m, o) && s.cells.locals <= u.cells.locals && Height(u) == Height(s) + 2
    ensures Peek(u, 1) == a && Peek(u, 0) == b
  {
    hide KeepsHeap;
    KeepsOn(s, t, u, m, n, o);
    PushedKeeps(s, t, n, a);
    PushedKeeps(t, u, o, b);
    HeapSize(t, u, n, o);
    PeekKept(t, u, n, o, Height(s));
  }

  lemma {:induction false} BinariesRun(w: World, c: Scene, op: Syntax.BinOp, a: Expr, b: Expr, s: Config, st: State,
      m: seq<nat>, fuel: nat)
    returns (k: nat, t: Config, n: seq<nat>)
    requires Begins(c, s, st, m) && Callable(w, c.depth)
    requires Ahead(c.h, Ip(s), MakeExpr(Syntax.Binary(op, a, b), c.pool, c.chain))
    ensures Computes(w, s, m, |MakeExpr(Syntax.Binary(op, a, b), c.pool, c.chain).code|,
      Eval(w, Syntax.Binary(op, a, b), c.Env(), st, fuel, c.depth), k, t, n, fuel)
    decreases Syntax.Binary(op, a, b), 0
  {
    hide Mirrors, Steps, StateOk, OwnMatch, OuterMatch, Callable, Lexical.Grows, KeepsHeap, BinaryDatum,
      Codegen.BinaryCode, SoundCode.Ready, MakeExpr, Eval, Toward;
    BinaryShape(w, op, a, b, c.pool, c.chain, c.Env(), st, fuel, c.depth);
    var g := MakeExpr(a, c.pool, c.chain);
    var h := MakeExpr(b, g.pool, g.chain);
    HoldsSplit(c.h.f.code, Ip(s), g.code + h.code, Codegen.BinaryCode(op));
    HoldsSplit(c.h.f.code, Ip(s), g.code, h.code);
    PairAhead(c, a, b);
    k, t, n := ExprRuns(w, c, a, s, st, m, fuel);
    var r := Eval(w, a, c.Env(), st, fuel, c.depth);
    if r.Done? {
      EvalOk(w, a, c.Env(), st, fuel, c.depth);
      PushedKeeps(s, t, n, r.v);
      ThenBegins(c, s, st, m, t, r.st, n, g);
      var j, u, o := ExprRuns(w, c.To(g), b, t, r.st, n, fuel);
      var q := Eval(w, b, c.Env(), r.st, fuel, c.depth);
      if q.Done? {
        k, t, n := BinaryEnds(w, c, op, s, m, k, t, n, r.v, j, u, o, q.v, q.st, fuel);
      } else {
        ThenStops(w, s, m, k, t, n, |h.code|, q, j, u, o, fuel, |g.code + h.code + Codegen.BinaryCode(op)|);
        k, t, n := k + j, u, o;
      }
    }
  }

  lemma {:induction false} BinaryEnds(w: World, c: Scene, op: Syntax.BinOp, s: Config, m: seq<nat>, k: nat, t: Config,
      n: seq<nat>, a: Datum, j: nat, u: Config, o: seq<nat>, b: Datum, st: State, fuel: nat)
    returns (i: nat, x: Config, p: seq<nat>)
    requires In(c.h, s) && Steps(w, s, k) == Running(t) && Keeps(s, t, m, n) && Pushed(s, t, n, a) && Ip(s) <= Ip(t)
    requires Steps(w, t, j) == Running(u) && Keeps(t, u, n, o) && Pushed(t, u, o, b) && Mirrors(u, st, o)
    requires Ip(t) <= Ip(u) && Holds(c.h.f.code, Ip(u), Codegen.BinaryCode(op))
    ensures Computes(w, s, m, Ip(u) - Ip(s) + |Codegen.BinaryCode(op)|, Meaning.Finish(BinaryDatum(w.pr, op, a, b), st),
      i, x, p, fuel)
  {
    hide Mirrors, Steps, KeepsHeap, BinaryDatum, Codegen.BinaryCode;
    Operands(s, t, u, m, n, o, a, b);
    InKept(c.h, s, u, m, o);
    StepsCompose(w, s, k, j);
    var d;
    d, x := BinaryRuns(w, op, u, c.h, st, o);
    StepsCompose(w, s, k + j, d);
    i, p := k + j + d, o;
    var v := BinaryDatum(w.pr, op, a, b);
    if v.Some? {
      Settles(s, u, m, o, x, Ip(u) + |Codegen.BinaryCode(op)|, 2, v.value);
    } else {
      SameGlobals(u, st, o);
      x := u;
    }
  }

  // ----- short-circuit operators -----

  lemma {:induction false} ShortShape(w: World, e: Expr, jump: byte, a: Expr, b: Expr, pool: seq<Constant>,
      chain: Chain, env: Env, st: State, fuel: nat, depth: nat)
    requires depth <= DEEPEST
    requires (e == Syntax.Conj(a, b) && jump == OP_JUMP_IF_FALSE) || (e == Syntax.Disj(a, b) && jump == OP_JUMP_IF_TRUE)
    ensures MakeExpr(e, pool, chain) ==
      var g := MakeExpr(a, pool, chain);
      if !g.Made? then g else Short(jump, g.code, MakeExpr(b, g.pool, g.chain))
    ensures Eval(w, e, env, st, fuel, depth) ==
      var r := Eval(w, a, env, st, fuel, depth);
      if !r.Done? || Untrue(r.v) == (jump == OP_JUMP_IF_FALSE) then r else Eval(w, b, env, r.st, fuel, depth)
  {
    hide Short;
  }

  lemma ShortMade(jump: byte, left: seq<byte>, right: Made)
    requires Short(jump, left, right).Made?
    ensures right.Made? && |right.code| + 1 <= UINT16_MAX
    ensures Short(jump, left, right)
      == Made(left + (Codegen.JumpCode(jump, |right.code| + 1) + [OP_POP]) + right.code, right.pool, right.chain)
  {
  }

  /** A conditional jump with the pop behind it: the jump is taken and the value stays, or the value is popped. */
  lemma {:induction false} GuardRuns(w: World, h: Here, jump: byte, d: nat, s: Config, st: State, m: seq<nat>)
    returns (k: nat, t: Config)
    requires jump == OP_JUMP_IF_FALSE || jump == OP_JUMP_IF_TRUE
    requires In(h, s) && Mirrors(s, st, m) && Height(s) > 0 && Base(s) < Height(s) && d <= UINT16_MAX
    requires Holds(h.f.code, Ip(s), Codegen.JumpCode(jump, d) + [OP_POP])
    ensures Steps(w, s, k) == Running(t) && Keeps(s, t, m, m) && Mirrors(t, st, m) && In(h, t)
    ensures if Untrue(Peek(s, 0)) == (jump == OP_JUMP_IF_FALSE)
      then Ip(t) == Ip(s) + 3 + d && t.cells == s.cells
      else Ip(t) == Ip(s) + 4 && t.cells.locals == s.cells.locals[..Height(s) - 1]
  {
    hide Mirrors, Steps, KeepsHeap, Codegen.JumpCode;
    HoldsSplit(h.f.code, Ip(s), Codegen.JumpCode(jump, d), [OP_POP]);
    JumpAt(w, s, h, jump, d);
    if Untrue(Peek(s, 0)) == (jump == OP_JUMP_IF_FALSE) {
      k, t := 1, At(s, Ip(s) + 3 + d);
      AtMirrors(s, st, m, Ip(s) + 3 + d);
    } else {
      var u := At(s, Ip(s) + 3);
      AtMirrors(s, st, m, Ip(s) + 3);
      InKept(h, s, u, m, m);
      SimpleAt(w, u, h, OP_POP);
      StepsCompose(w, s, 1, 1);
      k, t := 2, Popped(u, Ip(u) + 1, 1);
      PopMirrors(u, st, m, Ip(u) + 1, 1);
      KeepsOn(s, u, t, m, m, m);
    }
    InKept(h, s, t, m, m);
  }

  lemma {:induction false} ShortRuns(w: World, c: Scene, e: Expr, jump: byte, a: Expr, b: Expr, s: Config, st: State,
      m: seq<nat>, fuel: nat)
    returns (k: nat, t: Config, n: seq<nat>)
    requires (e == Syntax.Conj(a, b) && jump == OP_JUMP_IF_FALSE) || (e == Syntax.Disj(a, b) && jump == OP_JUMP_IF_TRUE)
    requires Begins(c, s, st, m) && Callable(w, c.depth) && Ahead(c.h, Ip(s), MakeExpr(e, c.pool, c.chain))
    ensures Computes(w, s, m, |MakeExpr(e, c.pool, c.chain).code|, Eval(w, e, c.Env(), st, fuel, c.depth), k, t, n,
      fuel)
    decreases e, 0
  {
    hide Mirrors, Steps, StateOk, OwnMatch, OuterMatch, Callable, Lexical.Grows, KeepsHeap, SoundCode.Ready, MakeExpr,
      Eval, Toward, Short, Codegen.JumpCode;
    ShortShape(w, e, jump, a, b, c.pool, c.chain, c.Env(), st, fuel, c.depth);
    var g := MakeExpr(a, c.pool, c.chain);
    var h := MakeExpr(b, g.pool, g.chain);
    ShortMade(jump, g.code, h);
    var guard := Codegen.JumpCode(jump, |h.code| + 1) + [OP_POP];
    HoldsSplit(c.h.f.code, Ip(s), g.code + guard, h.code);
    HoldsSplit(c.h.f.code, Ip(s), g.code, guard);
    PairAhead(c, a, b);
    k, t, n := ExprRuns(w, c, a, s, st, m, fuel);
    var r := Eval(w, a, c.Env(), st, fuel, c.depth);
    if r.Done? {
      EvalOk(w, a, c.Env(), st, fuel, c.depth);
      PushedKeeps(s, t, n, r.v);
      PushedPeek(s, t, n, r.v);
      InKept(c.h, s, t, m, n);
      var j, u := GuardRuns(w, c.h, jump, |h.code| + 1, t, r.st, n);
      StepsCompose(w, s, k, j);
      if Untrue(r.v) == (jump == OP_JUMP_IF_FALSE) {
        StoreSettles(s, t, m, n, r.v, u);
        k, t := k + j, u;
      } else {
        KeepsOn(s, t, u, m, n, n);
        assert u.cells.locals == s.cells.locals;
        ThenBegins(c, s, st, m, u, r.st, n, g);
        var i, x, o := ExprRuns(w, c.To(g), b, u, r.st, n, fuel);
        Resumes(w, s, m, k + j, u, n, |h.code|, Eval(w, b, c.Env(), r.st, fuel, c.depth), i, x, o, fuel);
        k, t, n := k + j + i, x, o;
      }
    }
  }

  // ----- calls -----

  lemma {:induction false} CallShape(w: World, f: Expr, args: seq<Expr>, pool: seq<Constant>, chain: Chain, env: Env,
      st: State, fuel: nat, depth: nat)
    requires depth <= DEEPEST
    ensures MakeExpr(Syntax.Call(f, args), pool, chain) ==
      var g := MakeExpr(f, pool, chain);
      if !g.Made? then g
      else
        var h := MakeArgs(args, g.pool, g.chain);
        if !h.Made? then h
        else if |args| > UINT8_MAX then Functions.Failed
        else Made(g.code + h.code + [OP_CALL, |args|], h.pool, h.chain)
    ensures Eval(w, Syntax.Call(f, args), env, st, fuel, depth) ==
      var r := Eval(w, f, env, st, fuel, depth);
      if !r.Done? then r
      else
        match EvalArgs(w, args, env, r.st, fuel, depth)
        case DoneAll(vs, st') => Apply(w, r.v, vs, st', fuel, depth)
        case FaultAll(st') => ExprResult.Fault(st')
        case ExhaustedAll => ExprResult.Exhausted
  {
    hide MakeArgs, EvalArgs, Apply;
  }

  lemma {:induction false} ArgsShape(w: World, args: seq<Expr>, pool: seq<Constant>, chain: Chain, env: Env, st: State,
      fuel: nat, depth: nat)
    requires depth <= DEEPEST && args != []
    ensures MakeArgs(args, pool, chain) ==
      var g := MakeArgs(args[..|args| - 1], pool, chain);
      if !g.Made? then g
      else
        var h := MakeExpr(args[|args| - 1], g.pool, g.chain);
        if !h.Made? then h else Made(g.code + h.code, h.pool, h.chain)
    ensures EvalArgs(w, args, env, st, fuel, depth) ==
      var r := EvalArgs(w, args[..|args| - 1], env, st, fuel, depth);
      if !r.DoneAll? then r
      else
        match Eval(w, args[|args| - 1], env, r.st, fuel, depth)
        case Done(v, st') => DoneAll(r.vs + [v], st')
        case Fault(st') => FaultAll(st')
        case Exhausted => ExhaustedAll
  {
    hide MakeExpr, Eval;
  }

  lemma {:induction false} ArgsAhead(c: Scene, args: seq<Expr>)
    requires SoundCode.Ready(c.pool, c.chain) && args != []
    requires var h := MakeArgs(args, c.pool, c.chain); h.Made? && h.pool <= c.h.f.pool && Toward(h.chain, c.h.last)
    ensures var g := MakeArgs(args[..|args| - 1], c.pool, c.chain);
      && g.Made? && g.pool <= c.h.f.pool && Toward(g.chain, c.h.last)
      && SoundCode.Ready(g.pool, g.chain) && Lexical.Grows(c.chain, g.chain)
  {
    hide SoundCode.Ready, MakeExpr, Toward, Lexical.Grows;
    var init, last := args[..|args| - 1], args[|args| - 1];
    var g := MakeArgs(init, c.pool, c.chain);
    ArgsGrow(init, c.pool, c.chain);
    Growth.ExprGrows(last, g.pool, g.chain);
    ExprTypes.ExprReady(last, g.pool, g.chain);
    TowardBefore(g.chain, MakeExpr(last, g.pool, g.chain).chain, c.h.last);
  }

  lemma {:induction false} ArgsGrow(args: seq<Expr>, pool: seq<Constant>, chain: Chain)
    requires SoundCode.Ready(pool, chain) && MakeArgs(args, pool, chain).Made?
    ensures var g := MakeArgs(args, pool, chain);
      Lexical.Grows(chain, g.chain) && SoundCode.Ready(g.pool, g.chain) && pool <= g.pool
  {
    hide SoundCode.Ready, MakeArgs, Lexical.Grows;
    Growth.ArgsWider(args, pool, chain);
    ExprTypes.ArgsReady(args, pool, chain);
  }

  /** One more argument. */
  lemma OneMore(s: Config, t: Config, u: Config, m: seq<nat>, n: seq<nat>, o: seq<nat>, vs: seq<Datum>, v: Datum)
    requires Keeps(s, t, m, n) && PushedAll(s, t, n, vs) && Keeps(t, u, n, o) && Pushed(t, u, o, v)
    ensures Keeps(s, u, m, o) && PushedAll(s, u, o, vs + [v])
  {
    hide KeepsHeap;
    KeepsOn(s, t, u, m, n, o);
    HeapSize(s, t, m, n);
    HeapSize(t, u, n, o);
    PushedKeeps(t, u, o, v);
    forall i | 0 <= i < |vs + [v]|
      ensures NewCell(s, u, o, u.cells.locals[Height(s) + i], (vs + [v])[i])
    {
      if i < |vs| {
        assert NewCell(s, t, n, t.cells.locals[Height(s) + i], vs[i]);
        PeekKept(t, u, n, o, Height(s) + i);
      }
    }
    assert u.cells.locals[..Height(s)] == t.cells.locals[..Height(s)];
    forall i, j | Height(s) <= i < j < Height(u)
      ensures u.cells.locals[i] < u.cells.locals[j]
    {
      assert u.cells.locals[..Height(t)][i] == u.cells.locals[i];
      assert NewCell(s, t, n, t.cells.locals[Height(s) + (i - Height(s))], vs[i - Height(s)]);
      if j < Height(t) { assert u.cells.locals[..Height(t)][j] == u.cells.locals[j]; }
    }
  }

  lemma {:induction false} ArgsRun(w: World, c: Scene, args: seq<Expr>, s: Config, st: State, m: seq<nat>, fuel: nat)
    returns (k: nat, t: Config, n: seq<nat>)
    requires Begins(c, s, st, m) && Callable(w, c.depth) && Ahead(c.h, Ip(s), MakeArgs(args, c.pool, c.chain))
    ensures ComputesAll(w, s, m, |MakeArgs(args, c.pool, c.chain).code|, EvalArgs(w, args, c.Env(), st, fuel, c.depth),
      k, t, n, fuel)
    decreases args, 0
  {
    hide Mirrors, Steps, StateOk, OwnMatch, OuterMatch, Callable, Lexical.Grows, KeepsHeap, SoundCode.Ready, MakeExpr,
      Eval, Toward;
    if args == [] {
      k, t, n := 0, s, m;
      KeepsSelf(s, m);
      ZeroSteps(w, s);
    } else {
      hide MakeArgs, EvalArgs;
      var init, last := args[..|args| - 1], args[|args| - 1];
      ArgsShape(w, args, c.pool, c.chain, c.Env(), st, fuel, c.depth);
      var g := MakeArgs(init, c.pool, c.chain);
      var h := MakeExpr(last, g.pool, g.chain);
      HoldsSplit(c.h.f.code, Ip(s), g.code, h.code);
      ArgsAhead(c, args);
      k, t, n := ArgsRun(w, c, init, s, st, m, fuel);
      var r := EvalArgs(w, init, c.Env(), st, fuel, c.depth);
      if r.DoneAll? {
        EvalArgsOk(w, init, c.Env(), st, fuel, c.depth);
        PushedAllKeeps(s, t, n, r.vs);
        ThenBegins(c, s, st, m, t, r.st, n, g);
        var j, u, o := ExprRuns(w, c.To(g), last, t, r.st, n, fuel);
        StepsCompose(w, s, k, j);
        var q := Eval(w, last, c.Env(), r.st, fuel, c.depth);
        if q.Done? { OneMore(s, t, u, m, n, o, r.vs, q.v); }
        k, t, n := k + j, u, o;
      }
    }
  }

  lemma ZeroSteps(w: World, s: Config)
    ensures Steps(w, s, 0) == Running(s)
  {
  }

  /** Callee and arguments are on top of the stack. */
  lemma CalleeUnder(s: Config, t: Config, u: Config, m: seq<nat>, n: seq<nat>, o: seq<nat>, f: Datum, vs: seq<Datum>)
    requires Keeps(s, t, m, n) && Pushed(s, t, n, f) && Keeps(t, u, n, o) && PushedAll(t, u, o, vs)
    ensures Keeps(s, u, m, o) && Height(u) == Height(s) + 1 + |vs| && s.cells.locals <= u.cells.locals
    ensures Peek(u, |vs|) == f && Tops(u, |vs|) == vs
    ensures |s.cells.store| <= |t.cells.store|
  {
    hide KeepsHeap;
    KeepsOn(s, t, u, m, n, o);
    PushedKeeps(s, t, n, f);
    PushedAllKeeps(t, u, o, vs);
    HeapSize(s, t, m, n);
    HeapSize(t, u, n, o);
    PeekKept(t, u, n, o, Height(s));
    forall i | 0 <= i < |vs|
      ensures Tops(u, |vs|)[i] == vs[i]
    {
      assert NewCell(t, u, o, u.cells.locals[Height(t) + i], vs[i]);
      assert Height(u) - 1 - (|vs| - 1 - i) == Height(t) + i;
      assert Tops(u, |vs|)[i] == Peek(u, |vs| - 1 - i);
    }
  }

  /** A routine's closures stay what they are while variables are added. */
  lemma RoutinesMore(closures: seq<CellMachine.Function>, codes: seq<Function>, rs: seq<Routine>, m: seq<nat>,
      n: seq<nat>)
    requires RoutinesMatch(closures, codes, rs, m) && m <= n
    ensures RoutinesMatch(closures, codes, rs, n)
  {
    hide MadeFrom;
    forall id | 1 <= id < |rs|
      ensures RoutineOk(rs[id], closures[id], codes[id], n)
    {
      assert RoutineOk(rs[id], closures[id], codes[id], m);
      var around: Chain :| MadeFrom(rs[id], closures[id], codes[id], m, around);
      MadeMore(rs[id], closures[id], codes[id], m, n, around);
    }
  }

  lemma MadeMore(r: Routine, g: CellMachine.Function, f: Function, m: seq<nat>, n: seq<nat>, around: Chain)
    requires MadeFrom(r, g, f, m, around) && m <= n
    ensures MadeFrom(r, g, f, n, around)
  {
    hide MakeItems, OuterMatch, SoundCode.Ready, ItemsTame, Compact;
    OuterMore(MakeItems(r.body, BODY, [], Enter(r.params, around)).chain, g.cells, r.env, m, n);
  }

  /** The arguments become variables. */
  lemma ArgumentCells(cells: seq<Datum>, store: seq<Datum>, m: seq<nat>, args: seq<nat>, vs: seq<Datum>)
    requires StoreMatch(cells, store, m) && |args| == |vs|
    requires forall i :: 0 <= i < |args| ==> args[i] < |cells| && args[i] !in m && cells[args[i]] == vs[i]
    requires forall i, j :: 0 <= i < j < |args| ==> args[i] < args[j]
    ensures StoreMatch(cells, store + vs, m + args)
  {
    forall i, j | 0 <= i < j < |m + args|
      ensures (m + args)[i] != (m + args)[j]
    {
      if i < |m| <= j { assert m[i] in m; }
    }
  }

  /** The machine after the call instruction. */
  function Entering(u: Config, id: nat, argc: nat): Config
    requires Active(u) && argc < Height(u)
  {
    At(u, Ip(u) + 2).(
      cells := u.cells.(frames := u.cells.frames + [CellMachine.Frame.Frame(id, Height(u) - argc - 1)]),
      ips := At(u, Ip(u) + 2).ips + [0])
  }

  /** The cells of the arguments. */
  lemma ArgumentsNew(s: Config, t: Config, u: Config, o: seq<nat>, vs: seq<Datum>)
    requires PushedAll(t, u, o, vs) && |s.cells.store| <= |t.cells.store|
    ensures var args := u.cells.locals[Height(t)..];
      && |args| == |vs|
      && (forall i :: 0 <= i < |args| ==>
           |s.cells.store| <= args[i] < |u.cells.store| && args[i] !in o && u.cells.store[args[i]] == vs[i])
      && forall i, j :: 0 <= i < j < |args| ==> args[i] < args[j]
  {
    var args := u.cells.locals[Height(t)..];
    forall i | 0 <= i < |args|
      ensures |s.cells.store| <= args[i] < |u.cells.store| && args[i] !in o && u.cells.store[args[i]] == vs[i]
    {
      assert NewCell(t, u, o, u.cells.locals[Height(t) + i], vs[i]);
    }
  }

  lemma ArgumentsHeap(s: Config, u: Config, m: seq<nat>, o: seq<nat>, args: seq<nat>, id: nat, argc: nat)
    requires Keeps(s, u, m, o) && Active(u) && argc < Height(u)
    requires forall i :: 0 <= i < |args| ==> |s.cells.store| <= args[i]
    ensures KeepsHeap(s, Entering(u, id, argc), m, o + args)
  {
    forall l | |m| <= l < |o + args|
      ensures (o + args)[l] >= |s.cells.store|
    {
      if l >= |o| { assert (o + args)[l] == args[l - |o|]; }
    }
  }

  lemma ArgumentsMirror(u: Config, st: State, o: seq<nat>, args: seq<nat>, vs: seq<Datum>, id: nat, argc: nat)
    requires Mirrors(u, st, o) && Active(u) && argc < Height(u) && |args| == |vs|
    requires forall i :: 0 <= i < |args| ==>
      args[i] < |u.cells.store| && args[i] !in o && u.cells.store[args[i]] == vs[i]
    requires forall i, j :: 0 <= i < j < |args| ==> args[i] < args[j]
    ensures Mirrors(Entering(u, id, argc), st.(store := st.store + vs), o + args)
  {
    hide RoutinesMatch, StoreMatch;
    ArgumentCells(u.cells.store, st.store, o, args, vs);
    RoutinesMore(u.cells.closures, u.codes, st.routines, o, o + args);
  }

  lemma ArgumentsOk(st: State, vs: seq<Datum>)
    requires StateOk(st) && forall i :: 0 <= i < |vs| ==> Known(vs[i], |st.routines|)
    ensures StateOk(st.(store := st.store + vs))
  {
  }

  lemma {:induction false} Enters(s: Config, t: Config, u: Config, m: seq<nat>, n: seq<nat>, o: seq<nat>, id: nat,
      vs: seq<Datum>, st: State, depth: nat)
    requires Keeps(s, t, m, n) && Pushed(s, t, n, Closure(id)) && Keeps(t, u, n, o) && PushedAll(t, u, o, vs)
    requires Active(u) && Mirrors(u, st, o) && StateOk(st) && 1 <= id < |st.routines|
    requires |st.routines[id].params| == |vs| && |u.cells.frames| == depth < DEEPEST
    requires forall i :: 0 <= i < |vs| ==> Known(vs[i], |st.routines|)
    ensures |vs| < Height(u) && Base(Entering(u, id, |vs|)) == Height(s)
    ensures var o' := o + u.cells.locals[Height(t)..];
      && Entered(Entering(u, id, |vs|), st.(store := st.store + vs), o', id, depth + 1)
      && KeepsHeap(s, Entering(u, id, |vs|), m, o')
  {
    hide Mirrors, Keeps, KeepsHeap, StateOk, Pushed, PushedAll;
    CalleeUnder(s, t, u, m, n, o, Closure(id), vs);
    PushedKeeps(s, t, n, Closure(id));
    PushedAllKeeps(t, u, o, vs);
    ArgumentsNew(s, t, u, o, vs);
    var args, x := u.cells.locals[Height(t)..], Entering(u, id, |vs|);
    ArgumentsHeap(s, u, m, o, args, id, |vs|);
    ArgumentsMirror(u, st, o, args, vs, id, |vs|);
    ArgumentsOk(st, vs);
    MirrorsSize(u, st, o);
    assert (o + args)[|o + args| - |vs|..] == args == x.cells.locals[Base(x) + 1..];
  }

  /** The call instruction enters the closure. */
  lemma {:induction false} CallEnters(w: World, h: Here, u: Config, id: nat, argc: byte, st: State, m: seq<nat>)
    requires In(h, u) && Mirrors(u, st, m) && Holds(h.f.code, Ip(u), [OP_CALL, argc]) && argc < Height(u)
    requires Peek(u, argc) == Closure(id) && 1 <= id < |st.routines|
    ensures Steps(w, u, 1) ==
      if |st.routines[id].params| != argc || |u.cells.frames| == DEEPEST then Status.Error(u)
      else Running(Entering(u, id, argc))
  {
    hide RoutinesMatch, StoreMatch;
    OperandAt(w, u, h, OP_CALL, argc);
    SameArity(u, st, m, id);
  }

  lemma SameArity(u: Config, st: State, m: seq<nat>, id: nat)
    requires Mirrors(u, st, m) && 1 <= id < |st.routines|
    ensures id < |u.codes| && id < |u.cells.closures| && u.codes[id].arity == |st.routines[id].params|
  {
    hide OuterMatch, MakeItems, SoundCode.Ready, ItemsTame, Compact, StoreMatch;
    assert RoutineOk(st.routines[id], u.cells.closures[id], u.codes[id], m);
  }

  /** A call of a routine, from the call instruction to its result. */
  lemma {:induction false} RoutineRuns(w: World, c: Scene, s: Config, m: seq<nat>, k: nat, t: Config, n: seq<nat>,
      id: nat, j: nat, u: Config, o: seq<nat>, vs: seq<Datum>, st: State, fuel: nat)
    returns (i: nat, x: Config, p: seq<nat>)
    requires Keeps(s, t, m, n) && Pushed(s, t, n, Closure(id)) && Keeps(t, u, n, o) && PushedAll(t, u, o, vs)
    requires In(c.h, s) && In(c.h, u) && Mirrors(u, st, o) && StateOk(st) && 1 <= id < |st.routines|
    requires |s.cells.frames| == c.depth <= DEEPEST && Callable(w, c.depth)
    requires forall i :: 0 <= i < |vs| ==> Known(vs[i], |st.routines|)
    requires Steps(w, s, k) == Running(u) && Ip(s) <= Ip(u)
    requires |vs| <= UINT8_MAX && Holds(c.h.f.code, Ip(u), [OP_CALL, |vs|])
    ensures Computes(w, s, m, Ip(u) - Ip(s) + 2, Apply(w, Closure(id), vs, st, fuel, c.depth), i, x, p, fuel)
  {
    hide Mirrors, Steps, KeepsHeap, StateOk, Entered, ExecAll;
    CalleeUnder(s, t, u, m, n, o, Closure(id), vs);
    CallEnters(w, c.h, u, id, |vs|, st, o);
    StepsCompose(w, s, k, 1);
    if |st.routines[id].params| != |vs| || c.depth == DEEPEST {
      i, x, p := k + 1, u, o;
      SameGlobals(u, st, o);
    } else {
      Enters(s, t, u, m, n, o, id, vs, st, c.depth);
      var y, st', o' := Entering(u, id, |vs|), st.(store := st.store + vs), o + u.cells.locals[Height(t)..];
      assert CallRuns(w, y, st', o', id, fuel, c.depth + 1);
      EnteredSize(y, st', o', id, c.depth + 1);
      var d: nat, z: Config, q: seq<nat> :| CallEnds(w, y, o', BodyResult(w, st', id, fuel, c.depth + 1), d, z, q,
        fuel);
      StepsCompose(w, s, k + 1, d);
      i, x, p := k + 1 + d, z, q;
      if BodyResult(w, st', id, fuel, c.depth + 1).Done? { Returned(s, u, y, m, o', z, q, id, |vs|); }
    }
  }

  lemma EnteredSize(s: Config, st: State, m: seq<nat>, id: nat, depth: nat)
    requires Entered(s, st, m, id, depth)
    ensures Active(s) && id < |st.routines| && depth <= DEEPEST && |st.routines[id].params| <= |st.store|
  {
    MirrorsSize(s, st, m);
  }

  /** Back behind the call instruction. */
  lemma Returned(s: Config, u: Config, y: Config, m: seq<nat>, o: seq<nat>, z: Config, q: seq<nat>, id: nat, argc: nat)
    requires Active(u) && argc < Height(u) && y == Entering(u, id, argc) && Base(y) == Height(s)
    requires u.cells.frames == s.cells.frames && |u.ips| == |s.ips| > 0 && u.ips[..|u.ips| - 1] == s.ips[..|s.ips| - 1]
    requires s.cells.locals <= u.cells.locals && KeepsHeap(s, y, m, o) && KeepsHeap(y, z, o, q)
    requires z.cells.frames == y.cells.frames[..|y.cells.frames| - 1] && z.ips == y.ips[..|y.ips| - 1]
    requires Height(z) == Base(y) + 1 && z.cells.locals[..Base(y)] == y.cells.locals[..Base(y)]
    ensures Keeps(s, z, m, q) && Ip(z) == Ip(u) + 2 && z.cells.locals[..Height(s)] == s.cells.locals
    ensures |s.cells.store| <= |y.cells.store|
  {
    HeapOn(s, y, z, m, o, q);
    assert z.ips == At(u, Ip(u) + 2).ips;
    assert z.cells.frames == u.cells.frames;
  }

  lemma {:induction false} CallsRun(w: World, c: Scene, f: Expr, args: seq<Expr>, s: Config, st: State, m: seq<nat>,
      fuel: nat)
    returns (k: nat, t: Config, n: seq<nat>)
    requires Begins(c, s, st, m) && Callable(w, c.depth)
    requires Ahead(c.h, Ip(s), MakeExpr(Syntax.Call(f, args), c.pool, c.chain))
    ensures Computes(w, s, m, |MakeExpr(Syntax.Call(f, args), c.pool, c.chain).code|,
      Eval(w, Syntax.Call(f, args), c.Env(), st, fuel, c.depth), k, t, n, fuel)
    decreases Syntax.Call(f, args), 0
  {
    hide Mirrors, Steps, StateOk, OwnMatch, OuterMatch, Callable, Lexical.Grows, KeepsHeap, SoundCode.Ready, MakeExpr,
      MakeArgs, Eval, EvalArgs, Toward, Apply;
    CallShape(w, f, args, c.pool, c.chain, c.Env(), st, fuel, c.depth);
    var g := MakeExpr(f, c.pool, c.chain);
    var h := MakeArgs(args, g.pool, g.chain);
    HoldsSplit(c.h.f.code, Ip(s), g.code + h.code, [OP_CALL, |args|]);
    HoldsSplit(c.h.f.code, Ip(s), g.code, h.code);
    CalleeAhead(c, f, args);
    k, t, n := ExprRuns(w, c, f, s, st, m, fuel);
    var r := Eval(w, f, c.Env(), st, fuel, c.depth);
    if r.Done? {
      EvalOk(w, f, c.Env(), st, fuel, c.depth);
      PushedKeeps(s, t, n, r.v);
      ThenBegins(c, s, st, m, t, r.st, n, g);
      var j, u, o := ArgsRun(w, c.To(g), args, t, r.st, n, fuel);
      StepsCompose(w, s, k, j);
      var q := EvalArgs(w, args, c.Env(), r.st, fuel, c.depth);
      if q.DoneAll? {
        EvalArgsOk(w, args, c.Env(), r.st, fuel, c.depth);
        CalleeUnder(s, t, u, m, n, o, r.v, q.vs);
        InKept(c.h, s, u, m, o);
        if r.v.Closure? {
          KnownLater(r.v, r.st, q.st);
          k, t, n := RoutineRuns(w, c, s, m, k + j, t, n, r.v.id, j, u, o, q.vs, q.st, fuel);
        } else {
          k, t, n := OtherCall(w, c, s, m, k + j, u, o, r.v.v, q.vs, q.st, fuel);
        }
      } else {
        k, t, n := k + j, u, o;
      }
    }
  }

  lemma KnownLater(v: Datum, st: State, after: State)
    requires Known(v, |st.routines|) && Later(st, after)
    ensures Known(v, |after.routines|) && StateOk(after)
  {
  }

  lemma {:induction false} CalleeAhead(c: Scene, f: Expr, args: seq<Expr>)
    requires SoundCode.Ready(c.pool, c.chain) && MakeExpr(f, c.pool, c.chain).Made?
    requires var g := MakeExpr(f, c.pool, c.chain);
      var h := MakeArgs(args, g.pool, g.chain);
      h.Made? && h.pool <= c.h.f.pool && Toward(h.chain, c.h.last)
    ensures var g := MakeExpr(f, c.pool, c.chain);
      && g.pool <= c.h.f.pool && Toward(g.chain, c.h.last)
      && SoundCode.Ready(g.pool, g.chain) && Lexical.Grows(c.chain, g.chain)
  {
    hide SoundCode.Ready, MakeExpr, MakeArgs, Toward, Lexical.Grows;
    var g := MakeExpr(f, c.pool, c.chain);
    Growth.ExprGrows(f, c.pool, c.chain);
    ExprTypes.ExprReady(f, c.pool, c.chain);
    ArgsGrow(args, g.pool, g.chain);
    TowardBefore(g.chain, MakeArgs(args, g.pool, g.chain).chain, c.h.last);
  }

  /** A built-in function, or something that cannot be called. */
  lemma {:induction false} OtherCall(w: World, c: Scene, s: Config, m: seq<nat>, k: nat, u: Config, o: seq<nat>,
      f: Value, vs: seq<Datum>, st: State, fuel: nat)
    returns (i: nat, x: Config, p: seq<nat>)
    requires In(c.h, u) && Mirrors(u, st, o) && |s.ips| > 0 && Ip(s) <= Ip(u) && c.depth <= DEEPEST
    requires Keeps(s, u, m, o) && Height(u) == Height(s) + 1 + |vs| && s.cells.locals <= u.cells.locals
    requires Peek(u, |vs|) == Basic(f) && Tops(u, |vs|) == vs && Steps(w, s, k) == Running(u)
    requires |vs| <= UINT8_MAX && Holds(c.h.f.code, Ip(u), [OP_CALL, |vs|])
    ensures Computes(w, s, m, Ip(u) - Ip(s) + 2, Apply(w, Basic(f), vs, st, fuel, c.depth), i, x, p, fuel)
  {
    hide Mirrors, Steps, KeepsHeap, ExecAll;
    OperandAt(w, u, c.h, OP_CALL, |vs|);
    StepsCompose(w, s, k, 1);
    i, p := k + 1, o;
    if f.Native? {
      var v := Basic(w.builtin(f.id, vs));
      x := Replace(u, Ip(u) + 2, |vs| + 1, v);
      ReplaceReplaces(u, st, o, Ip(u) + 2, |vs| + 1, v);
      Settles(s, u, m, o, x, Ip(u) + 2, |vs| + 1, v);
    } else {
      x := u;
      SameGlobals(u, st, o);
    }
  }
}
