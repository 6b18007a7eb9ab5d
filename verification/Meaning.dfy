/** Direct evaluation of scripts with functions: what a compiled script is compared with.  Variables are places in a
    store; an environment says which place a name stands for, scope by scope, the innermost last; a function keeps the
    environment it was declared in. */
module Meaning {
  import opened Values
  import Syntax
  import Semantics
  import opened Functions

  type Scope = map<string, nat>

  type Env = seq<Scope>

  /** A function value: its parameters, its body, and the variables around it. */
  datatype Routine = Routine(params: seq<Ident>, body: seq<Item>, env: Env)

  /** Places, routines in the order they were made, globals and output. */
  datatype State = State(store: seq<Datum>, routines: seq<Routine>, globals: map<string, Datum>, output: seq<Datum>)

  /** The arithmetic of numbers, and the built-in functions, which give no functions. */
  datatype World = World(pr: Primitives, builtin: (nat, seq<Datum>) -> Value)

  /** `Exhausted` is an evaluation that has used up its fuel. */
  datatype ExprResult = Done(v: Datum, st: State) | Fault(st: State) | Exhausted
  datatype ArgsResult = DoneAll(vs: seq<Datum>, st: State) | FaultAll(st: State) | ExhaustedAll
  datatype Result =
    | Normal(env: Env, st: State)
    | Continued(st: State)
    | Returned(v: Datum, st: State)
    | Crashed(st: State)
    | OutOfFuel

  /** So many calls can be active, the script's own included. */
  const DEEPEST := 64

  // ----- variables -----

  /** The place a name stands for. */
  function Place(env: Env, x: string): Option<nat> {
    if env == [] then None
    else if x in env[|env| - 1] then Some(env[|env| - 1][x])
    else Place(env[..|env| - 1], x)
  }

  function Read(env: Env, x: string, st: State): ExprResult {
    match Place(env, x)
    case Some(l) => if l < |st.store| then Done(st.store[l], st) else Fault(st)
    case None => if x in st.globals then Done(st.globals[x], st) else Fault(st)
  }

  /** Assignment changes an existing variable. */
  function Write(env: Env, x: string, v: Datum, st: State): ExprResult {
    match Place(env, x)
    case Some(l) => if l < |st.store| then Done(v, st.(store := st.store[l := v])) else Fault(st)
    case None => if x in st.globals then Done(v, st.(globals := st.globals[x := v])) else Fault(st)
  }

  /** A new variable of the innermost scope; outside of all scopes it is a global. */
  function Declare(env: Env, x: string, v: Datum, st: State): Result {
    if env == [] then Normal(env, st.(globals := st.globals[x := v]))
    else Normal(Bind(env, x, |st.store|), st.(store := st.store + [v]))
  }

  function Bind(env: Env, x: string, l: nat): (r: Env)
    requires env != []
    ensures |r| == |env|
  {
    var top: Scope := env[|env| - 1];
    env[|env| - 1 := top[x := l]]
  }

  /** The parameters stand for consecutive places. */
  function Formals(params: seq<Ident>, first: nat): Scope {
    if params == [] then map[]
    else Formals(params[..|params| - 1], first)[params[|params| - 1] := first + |params| - 1]
  }

  // ----- operators -----

  /** Functions are equal to nothing and take part in no other operation. */
  function BinaryDatum(pr: Primitives, op: Syntax.BinOp, a: Datum, b: Datum): Option<Datum> {
    if a.Basic? && b.Basic? then
      match Semantics.BinaryValue(pr, op, a.v, b.v)
      case Some(v) => Some(Basic(v))
      case None => None
    else if op == Syntax.Eq then Some(Basic(Bool(false)))
    else if op == Syntax.Ne then Some(Basic(Bool(true)))
    else None
  }

  predicate Untrue(v: Datum) {
    v.Basic? && IsFalsey(v.v)
  }

  function UnaryDatum(pr: Primitives, op: Syntax.UnOp, a: Datum): Option<Datum> {
    match op
    case Not => Some(Basic(Bool(Untrue(a))))
    case Neg => if a.Basic? && a.v.Number? then Some(Basic(Number(pr.negate(a.v.n)))) else None
  }

  function Finish(v: Option<Datum>, st: State): ExprResult {
    if v.Some? then Done(v.value, st) else Fault(st)
  }

  // ----- evaluation -----

  /** `fuel` bounds the number of iterations of every loop, `depth` is the number of active calls. */
  function Eval(w: World, e: Expr, env: Env, st: State, fuel: nat, depth: nat): ExprResult
    requires depth <= DEEPEST
    decreases fuel, 2 * (DEEPEST - depth) + 1, e, 1
  {
    match e
    case Literal(v) => Done(Basic(v), st)
    case Variable(x) => Read(env, x, st)
    case Assign(x, rhs) =>
      var r := Eval(w, rhs, env, st, fuel, depth);
      if !r.Done? then r else Write(env, x, r.v, r.st)
    case Unary(op, a) =>
      var r := Eval(w, a, env, st, fuel, depth);
      if !r.Done? then r else Finish(UnaryDatum(w.pr, op, r.v), r.st)
    case Binary(op, a, b) =>
      var r := Eval(w, a, env, st, fuel, depth);
      if !r.Done? then r else
        var q := Eval(w, b, env, r.st, fuel, depth);
        if !q.Done? then q else Finish(BinaryDatum(w.pr, op, r.v, q.v), q.st)
    case Conj(a, b) =>
      var r := Eval(w, a, env, st, fuel, depth);
      if !r.Done? || Untrue(r.v) then r else Eval(w, b, env, r.st, fuel, depth)
    case Disj(a, b) =>
      var r := Eval(w, a, env, st, fuel, depth);
      if !r.Done? || !Untrue(r.v) then r else Eval(w, b, env, r.st, fuel, depth)
    case Call(f, args) =>
      var r := Eval(w, f, env, st, fuel, depth);
      if !r.Done? then r else
        match EvalArgs(w, args, env, r.st, fuel, depth)
        case DoneAll(vs, st') => Apply(w, r.v, vs, st', fuel, depth)
        case FaultAll(st') => Fault(st')
        case ExhaustedAll => Exhausted
  }

  function EvalArgs(w: World, args: seq<Expr>, env: Env, st: State, fuel: nat, depth: nat): (r: ArgsResult)
    requires depth <= DEEPEST
    ensures r.DoneAll? ==> |r.vs| == |args|
    decreases fuel, 2 * (DEEPEST - depth) + 1, args, 0
  {
    if args == [] then DoneAll([], st) else
      var r := EvalArgs(w, args[..|args| - 1], env, st, fuel, depth);
      if !r.DoneAll? then r else
        match Eval(w, args[|args| - 1], env, r.st, fuel, depth)
        case Done(v, st') => DoneAll(r.vs + [v], st')
        case Fault(st') => FaultAll(st')
        case Exhausted => ExhaustedAll
  }

  /** A built-in function gives its result.  A routine needs as many arguments as it has parameters, and room for one
      more active call; its body is executed where it was declared, with its parameters in a scope of their own.  It
      gives what it returns, and nil at its end. */
  function Apply(w: World, f: Datum, vs: seq<Datum>, st: State, fuel: nat, depth: nat): ExprResult
    requires depth <= DEEPEST
    decreases fuel, 2 * (DEEPEST - depth)
  {
    match f
    case Basic(Native(id)) => Done(Basic(w.builtin(id, vs)), st)
    case Closure(id) =>
      if id >= |st.routines| || |st.routines[id].params| != |vs| || depth == DEEPEST then Fault(st) else
        var f, first := st.routines[id], |st.store|;
        Outcome(ExecAll(w, f.body, f.env + [Formals(f.params, first)], st.(store := st.store + vs), fuel, depth + 1))
    case _ => Fault(st)
  }

  /** What a call makes of the way its body ends. */
  function Outcome(r: Result): ExprResult {
    match r
    case Normal(_, st) => Done(Basic(Value.Nil), st)
    case Continued(st) => Done(Basic(Value.Nil), st)
    case Returned(v, st) => Done(v, st)
    case Crashed(st) => Fault(st)
    case OutOfFuel => Exhausted
  }

  // ----- execution -----

  /** A statement that is left because of an expression. */
  function Abort(r: ExprResult): Result
    requires !r.Done?
  {
    if r.Fault? then Crashed(r.st) else OutOfFuel
  }

  /** The scopes after a statement are those before it. */
  function Leave(r: Result, env: Env): Result {
    if r.Normal? then Normal(env, r.st) else r
  }

  function Exec(w: World, s: Statement, env: Env, st: State, fuel: nat, depth: nat): Result
    requires depth <= DEEPEST
    decreases fuel, 2 * (DEEPEST - depth) + 1, s, 1
  {
    match s
    case Do(e) =>
      var r := Eval(w, e, env, st, fuel, depth);
      if !r.Done? then Abort(r) else Normal(env, r.st)
    case Print(e) =>
      var r := Eval(w, e, env, st, fuel, depth);
      if !r.Done? then Abort(r) else Normal(env, r.st.(output := r.st.output + [r.v]))
    case Block(items) => Leave(ExecAll(w, items, env + [map[]], st, fuel, depth), env)
    case If(c, t, f) =>
      var r := Eval(w, c, env, st, fuel, depth);
      if !r.Done? then Abort(r)
      else if !Untrue(r.v) then Exec(w, t, env, r.st, fuel, depth)
      else if f.Some? then Exec(w, f.value, env, r.st, fuel, depth)
      else Normal(env, r.st)
    case While(c, b) =>
      if fuel == 0 then OutOfFuel else
        var r := Eval(w, c, env, st, fuel, depth);
        if !r.Done? then Abort(r)
        else if Untrue(r.v) then Normal(env, r.st)
        else
          var q := Exec(w, b, env + [map[]], r.st, fuel, depth);
          if q.Normal? || q.Continued? then Exec(w, s, env, q.st, fuel - 1, depth) else q
    case Continue => Continued(st)
    case Return(None) => Returned(Basic(Value.Nil), st)
    case Return(Some(e)) =>
      var r := Eval(w, e, env, st, fuel, depth);
      if !r.Done? then Abort(r) else Returned(r.v, r.st)
  }

  /** A routine sees the variables around its declaration and, outside of the top level, itself. */
  function ExecItem(w: World, d: Item, env: Env, st: State, fuel: nat, depth: nat): Result
    requires depth <= DEEPEST
    decreases fuel, 2 * (DEEPEST - depth) + 1, d, 2
  {
    match d
    case Stat(s) => Exec(w, s, env, st, fuel, depth)
    case Var(x, None) => Declare(env, x, Basic(Value.Nil), st)
    case Var(x, Some(e)) =>
      var r := Eval(w, e, env, st, fuel, depth);
      if !r.Done? then Abort(r) else Declare(env, x, r.v, r.st)
    case Fun(x, params, body) =>
      var inner := if env == [] then env else Bind(env, x, |st.store|);
      Declare(env, x, Closure(|st.routines|), st.(routines := st.routines + [Routine(params, body, inner)]))
  }

  function ExecAll(w: World, ds: seq<Item>, env: Env, st: State, fuel: nat, depth: nat): Result
    requires depth <= DEEPEST
    decreases fuel, 2 * (DEEPEST - depth) + 1, ds, 0
  {
    if ds == [] then Normal(env, st) else
      var r := ExecAll(w, ds[..|ds| - 1], env, st, fuel, depth);
      if r.Normal? then ExecItem(w, ds[|ds| - 1], r.env, r.st, fuel, depth) else r
  }

  /** A script starts without variables of its own; it is the first routine, which no value refers to. */
  function Initial(ds: seq<Item>, globals: map<string, Datum>): State {
    State([], [Routine([], ds, [])], globals, [])
  }

  function Run(w: World, ds: seq<Item>, globals: map<string, Datum>, fuel: nat): Result {
    ExecAll(w, ds, [], Initial(ds, globals), fuel, 1)
  }

  // ----- every function value is a routine that has been made -----

  /** The script itself is no value. */
  predicate Known(v: Datum, routines: nat) {
    v.Closure? ==> 1 <= v.id < routines
  }

  ghost predicate StateOk(st: State) {
    && |st.routines| >= 1
    && (forall l :: 0 <= l < |st.store| ==> Known(st.store[l], |st.routines|))
    && forall x :: x in st.globals ==> Known(st.globals[x], |st.routines|)
  }

  ghost predicate Later(st: State, after: State) {
    StateOk(after) && |st.routines| <= |after.routines|
  }

  ghost predicate ExprOk(st: State, r: ExprResult) {
    r.Done? ==> Later(st, r.st) && Known(r.v, |r.st.routines|)
  }

  ghost predicate ArgsOk(st: State, r: ArgsResult) {
    r.DoneAll? ==> Later(st, r.st) && forall i :: 0 <= i < |r.vs| ==> Known(r.vs[i], |r.st.routines|)
  }

  ghost predicate ResultOk(st: State, r: Result) {
    match r
    case Normal(_, after) => Later(st, after)
    case Continued(after) => Later(st, after)
    case Returned(v, after) => Later(st, after) && Known(v, |after.routines|)
    case _ => true
  }

  lemma {:induction false} ReadOk(env: Env, x: string, st: State)
    requires StateOk(st)
    ensures ExprOk(st, Read(env, x, st))
  {
  }

  lemma {:induction false} WriteOk(env: Env, x: string, v: Datum, st: State)
    requires StateOk(st) && Known(v, |st.routines|)
    ensures ExprOk(st, Write(env, x, v, st))
  {
  }

  lemma {:induction false} DeclareOk(env: Env, x: string, v: Datum, st: State)
    requires StateOk(st) && Known(v, |st.routines|)
    ensures ResultOk(st, Declare(env, x, v, st))
  {
  }

  lemma OperatorsOk(pr: Primitives, uop: Syntax.UnOp, op: Syntax.BinOp, a: Datum, b: Datum, st: State)
    requires StateOk(st)
    ensures ExprOk(st, Finish(UnaryDatum(pr, uop, a), st)) && ExprOk(st, Finish(BinaryDatum(pr, op, a, b), st))
  {
  }

  lemma {:induction false} EvalOk(w: World, e: Expr, env: Env, st: State, fuel: nat, depth: nat)
    requires depth <= DEEPEST && StateOk(st)
    ensures ExprOk(st, Eval(w, e, env, st, fuel, depth))
    decreases fuel, 2 * (DEEPEST - depth) + 1, e, 1
  {
    hide StateOk, Read, Write, Apply, EvalArgs, UnaryDatum, BinaryDatum, Untrue;
    match e
    case Literal(v) =>
    case Variable(x) => ReadOk(env, x, st);
    case Assign(x, rhs) =>
      EvalOk(w, rhs, env, st, fuel, depth);
      var r := Eval(w, rhs, env, st, fuel, depth);
      if r.Done? { WriteOk(env, x, r.v, r.st); }
    case Unary(op, a) =>
      EvalOk(w, a, env, st, fuel, depth);
      var r := Eval(w, a, env, st, fuel, depth);
      if r.Done? { OperatorsOk(w.pr, op, Syntax.Eq, r.v, r.v, r.st); }
    case Binary(op, a, b) =>
      EvalOk(w, a, env, st, fuel, depth);
      var r := Eval(w, a, env, st, fuel, depth);
      if r.Done? {
        EvalOk(w, b, env, r.st, fuel, depth);
        var q := Eval(w, b, env, r.st, fuel, depth);
        if q.Done? { OperatorsOk(w.pr, Syntax.Not, op, r.v, q.v, q.st); }
      }
    case Conj(a, b) => ShortOk(w, a, b, env, st, fuel, depth);
    case Disj(a, b) => ShortOk(w, a, b, env, st, fuel, depth);
    case Call(f, args) =>
      EvalOk(w, f, env, st, fuel, depth);
      var r := Eval(w, f, env, st, fuel, depth);
      if r.Done? {
        EvalArgsOk(w, args, env, r.st, fuel, depth);
        var q := EvalArgs(w, args, env, r.st, fuel, depth);
        if q.DoneAll? { ApplyOk(w, r.v, q.vs, q.st, fuel, depth); }
      }
  }

  lemma {:induction false} ShortOk(w: World, a: Expr, b: Expr, env: Env, st: State, fuel: nat, depth: nat)
    requires depth <= DEEPEST && StateOk(st)
    ensures ExprOk(st, Eval(w, a, env, st, fuel, depth))
    ensures var r := Eval(w, a, env, st, fuel, depth); r.Done? ==> ExprOk(st, Eval(w, b, env, r.st, fuel, depth))
    decreases fuel, 2 * (DEEPEST - depth) + 1, if a < b then b else a, 2
  {
    hide StateOk, Eval;
    EvalOk(w, a, env, st, fuel, depth);
    var r := Eval(w, a, env, st, fuel, depth);
    if r.Done? { EvalOk(w, b, env, r.st, fuel, depth); }
  }

  lemma {:induction false} EvalArgsOk(w: World, args: seq<Expr>, env: Env, st: State, fuel: nat, depth: nat)
    requires depth <= DEEPEST && StateOk(st)
    ensures ArgsOk(st, EvalArgs(w, args, env, st, fuel, depth))
    decreases fuel, 2 * (DEEPEST - depth) + 1, args, 0
  {
    hide StateOk, Eval;
    if args != [] {
      var init, last := args[..|args| - 1], args[|args| - 1];
      EvalArgsOk(w, init, env, st, fuel, depth);
      var r := EvalArgs(w, init, env, st, fuel, depth);
      if r.DoneAll? { EvalOk(w, last, env, r.st, fuel, depth); }
    }
  }

  lemma {:induction false} ApplyOk(w: World, f: Datum, vs: seq<Datum>, st: State, fuel: nat, depth: nat)
    requires depth <= DEEPEST && StateOk(st) && forall i :: 0 <= i < |vs| ==> Known(vs[i], |st.routines|)
    ensures ExprOk(st, Apply(w, f, vs, st, fuel, depth))
    decreases fuel, 2 * (DEEPEST - depth)
  {
    hide ExecAll;
    if f.Closure? && f.id < |st.routines| && |st.routines[f.id].params| == |vs| && depth < DEEPEST {
      var r, first := st.routines[f.id], |st.store|;
      ExecAllOk(w, r.body, r.env + [Formals(r.params, first)], st.(store := st.store + vs), fuel, depth + 1);
    }
  }

  lemma {:induction false} ExecOk(w: World, s: Statement, env: Env, st: State, fuel: nat, depth: nat)
    requires depth <= DEEPEST && StateOk(st)
    ensures ResultOk(st, Exec(w, s, env, st, fuel, depth))
    decreases fuel, 2 * (DEEPEST - depth) + 1, s, 1
  {
    hide StateOk, Eval, ExecAll, Untrue;
    match s
    case Do(e) => EvalOk(w, e, env, st, fuel, depth);
    case Print(e) =>
      EvalOk(w, e, env, st, fuel, depth);
      var r := Eval(w, e, env, st, fuel, depth);
      if r.Done? { OutputOk(r.st, r.v); }
    case Block(items) => ExecAllOk(w, items, env + [map[]], st, fuel, depth);
    case If(c, t, f) =>
      EvalOk(w, c, env, st, fuel, depth);
      var r := Eval(w, c, env, st, fuel, depth);
      if r.Done? {
        if !Untrue(r.v) {
          ExecOk(w, t, env, r.st, fuel, depth);
        } else if f.Some? {
          ExecOk(w, f.value, env, r.st, fuel, depth);
        }
      }
    case While(c, b) => WhileOk(w, c, b, env, st, fuel, depth);
    case Continue =>
    case Return(None) =>
    case Return(Some(e)) => EvalOk(w, e, env, st, fuel, depth);
  }

  lemma OutputOk(st: State, v: Datum)
    requires StateOk(st)
    ensures StateOk(st.(output := st.output + [v]))
  {
  }

  lemma {:induction false} WhileOk(w: World, c: Expr, b: Statement, env: Env, st: State, fuel: nat, depth: nat)
    requires depth <= DEEPEST && StateOk(st)
    ensures ResultOk(st, Exec(w, Statement.While(c, b), env, st, fuel, depth))
    decreases fuel, 2 * (DEEPEST - depth) + 1, Statement.While(c, b), 0
  {
    hide StateOk, Eval, ExecAll, Untrue;
    if fuel > 0 {
      EvalOk(w, c, env, st, fuel, depth);
      var r := Eval(w, c, env, st, fuel, depth);
      if r.Done? && !Untrue(r.v) {
        ExecOk(w, b, env + [map[]], r.st, fuel, depth);
        var q := Exec(w, b, env + [map[]], r.st, fuel, depth);
        if q.Normal? || q.Continued? { ExecOk(w, Statement.While(c, b), env, q.st, fuel - 1, depth); }
      }
    }
  }

  lemma {:induction false} ExecItemOk(w: World, d: Item, env: Env, st: State, fuel: nat, depth: nat)
    requires depth <= DEEPEST && StateOk(st)
    ensures ResultOk(st, ExecItem(w, d, env, st, fuel, depth))
    decreases fuel, 2 * (DEEPEST - depth) + 1, d, 2
  {
    hide StateOk, Eval, Exec, Declare;
    match d
    case Stat(s) => ExecOk(w, s, env, st, fuel, depth);
    case Var(x, None) => DeclareOk(env, x, Basic(Value.Nil), st);
    case Var(x, Some(e)) =>
      EvalOk(w, e, env, st, fuel, depth);
      var r := Eval(w, e, env, st, fuel, depth);
      if r.Done? { DeclareOk(env, x, r.v, r.st); }
    case Fun(x, params, body) =>
      var made := st.(routines := st.routines + [Routine(params, body,
        if env == [] then env else Bind(env, x, |st.store|))]);
      MoreRoutines(st, made);
      DeclareOk(env, x, Closure(|st.routines|), made);
  }

  lemma MoreRoutines(st: State, made: State)
    requires StateOk(st) && |made.routines| == |st.routines| + 1
    requires made.store == st.store && made.globals == st.globals
    ensures StateOk(made) && |st.routines| >= 1
  {
  }

  lemma {:induction false} ExecAllOk(w: World, ds: seq<Item>, env: Env, st: State, fuel: nat, depth: nat)
    requires depth <= DEEPEST && StateOk(st)
    ensures ResultOk(st, ExecAll(w, ds, env, st, fuel, depth))
    decreases fuel, 2 * (DEEPEST - depth) + 1, ds, 0
  {
    hide StateOk, ExecItem;
    if ds != [] {
      var init, last := ds[..|ds| - 1], ds[|ds| - 1];
      ExecAllOk(w, init, env, st, fuel, depth);
      var r := ExecAll(w, init, env, st, fuel, depth);
      if r.Normal? { ExecItemOk(w, last, r.env, r.st, fuel, depth); }
    }
  }
}
