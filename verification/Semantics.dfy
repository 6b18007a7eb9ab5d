/** Direct evaluation of syntax trees: the meaning a compiled program is compared with.
    Variables live in a stack of scopes, each a finite map, the innermost last. */
module Semantics {
  import opened Values
  import opened Syntax

  type Scopes = seq<map<string, Value>>

  datatype State = State(scopes: Scopes, globals: map<string, Value>, output: seq<Value>)

  datatype ExprResult = Done(v: Value, st: State) | Fault(st: State)
  datatype ArgsResult = DoneAll(vs: seq<Value>, st: State) | FaultAll(st: State)
  datatype Result = Normal(st: State) | Continued(st: State) | Failed(st: State) | OutOfFuel

  /** The innermost scope that binds `x`, or -1. */
  function FindScope(scopes: Scopes, x: string): (r: int)
    ensures -1 <= r < |scopes|
    ensures r >= 0 ==> x in scopes[r]
    ensures forall k :: r < k < |scopes| ==> x !in scopes[k]
  {
    if scopes == [] then -1
    else if x in scopes[|scopes| - 1] then |scopes| - 1
    else FindScope(scopes[..|scopes| - 1], x)
  }

  function BinaryValue(pr: Primitives, op: BinOp, a: Value, b: Value): Option<Value> {
    if op == Eq then Some(Bool(ValueEqual(a, b)))
    else if op == Ne then Some(Bool(!ValueEqual(a, b)))
    else if op == Arithmetic(Plus) && a.Str? && b.Str? then Some(Str(a.s + b.s))
    else if a.Number? && b.Number? then Some(NumberValue(pr, op, a.n, b.n))
    else None
  }

  /** `<=` and `>=` are the negations of `>` and `<`, also where an operand is not-a-number;
      `Comparisons` says when that is what they should be. */
  function NumberValue(pr: Primitives, op: BinOp, a: Num, b: Num): Value
    requires op != Eq && op != Ne
  {
    match op
    case Arithmetic(f) => Number(pr.arith(f, a, b))
    case Lt => Bool(Less(a, b))
    case Gt => Bool(Greater(a, b))
    case Le => Bool(!Greater(a, b))
    case Ge => Bool(!Less(a, b))
  }

  function UnaryValue(pr: Primitives, op: UnOp, a: Value): Option<Value> {
    match op
    case Not => Some(Bool(IsFalsey(a)))
    case Neg => if a.Number? then Some(Number(pr.negate(a.n))) else None
  }

  /** Assignment changes an existing variable; it never creates one. */
  function AssignTo(x: string, v: Value, st: State): (r: ExprResult)
    ensures |r.st.scopes| == |st.scopes|
  {
    var k := FindScope(st.scopes, x);
    if k >= 0 then Done(v, st.(scopes := st.scopes[k := st.scopes[k][x := v]]))
    else if x in st.globals then Done(v, st.(globals := st.globals[x := v]))
    else Fault(st)
  }

  function Eval(pr: Primitives, e: Expr, st: State): (r: ExprResult)
    ensures |r.st.scopes| == |st.scopes|
    decreases e, 1
  {
    match e
    case Literal(v) => Done(v, st)
    case Variable(x) =>
      var k := FindScope(st.scopes, x);
      if k >= 0 then Done(st.scopes[k][x], st)
      else if x in st.globals then Done(st.globals[x], st)
      else Fault(st)
    case Assign(x, rhs) =>
      var r := Eval(pr, rhs, st);
      if r.Fault? then r else AssignTo(x, r.v, r.st)
    case Unary(op, a) =>
      var r := Eval(pr, a, st);
      if r.Fault? then r else Finish(UnaryValue(pr, op, r.v), r.st)
    case Binary(op, a, b) =>
      var r := Eval(pr, a, st);
      if r.Fault? then r else
        var q := Eval(pr, b, r.st);
        if q.Fault? then q else Finish(BinaryValue(pr, op, r.v, q.v), q.st)
    case Conj(a, b) =>
      var r := Eval(pr, a, st);
      if r.Fault? || IsFalsey(r.v) then r else Eval(pr, b, r.st)
    case Disj(a, b) =>
      var r := Eval(pr, a, st);
      if r.Fault? || !IsFalsey(r.v) then r else Eval(pr, b, r.st)
    case Call(f, args) =>
      var r := Eval(pr, f, st);
      if r.Fault? then r else
        var q := EvalArgs(pr, args, r.st);
        if q.FaultAll? then Fault(q.st)
        else if r.v.Native? then Done(pr.native(r.v.id, q.vs), q.st)
        else Fault(q.st)
  }

  function Finish(v: Option<Value>, st: State): ExprResult {
    if v.Some? then Done(v.value, st) else Fault(st)
  }

  function EvalArgs(pr: Primitives, args: seq<Expr>, st: State): (r: ArgsResult)
    ensures r.DoneAll? ==> |r.vs| == |args|
    ensures |r.st.scopes| == |st.scopes|
    decreases args, 0
  {
    if args == [] then DoneAll([], st) else
      var r := EvalArgs(pr, args[..|args| - 1], st);
      if r.FaultAll? then r else
        var q := Eval(pr, args[|args| - 1], r.st);
        if q.Fault? then FaultAll(q.st) else DoneAll(r.vs + [q.v], q.st)
  }

  function Push(st: State): State {
    st.(scopes := st.scopes + [map[]])
  }

  /** Leave the innermost scopes until only `depth` are left. */
  function Unwind(st: State, depth: nat): State {
    if depth <= |st.scopes| then st.(scopes := st.scopes[..depth]) else st
  }

  function UnwindResult(r: Result, depth: nat): Result {
    match r
    case Normal(st) => Normal(Unwind(st, depth))
    case Continued(st) => Continued(Unwind(st, depth))
    case _ => r
  }

  function Declare(x: string, v: Value, st: State): State {
    if |st.scopes| <= 1 then st.(globals := st.globals[x := v])
    else var top := |st.scopes| - 1; st.(scopes := st.scopes[top := st.scopes[top][x := v]])
  }

  /** `fuel` bounds the number of loop iterations. */
  function Exec(pr: Primitives, s: Stmt, st: State, fuel: nat): Result
    decreases fuel, s, 1
  {
    match s
    case Expression(e) =>
      var r := Eval(pr, e, st);
      if r.Fault? then Failed(r.st) else Normal(r.st)
    case PrintStmt(e) =>
      var r := Eval(pr, e, st);
      if r.Fault? then Failed(r.st) else Normal(r.st.(output := r.st.output + [r.v]))
    case Block(ds) => UnwindResult(ExecAll(pr, ds, Push(st), fuel), |st.scopes|)
    case IfThen(c, t) =>
      var r := Eval(pr, c, st);
      if r.Fault? then Failed(r.st)
      else if IsFalsey(r.v) then Normal(r.st) else Exec(pr, t, r.st, fuel)
    case IfElse(c, t, f) =>
      var r := Eval(pr, c, st);
      if r.Fault? then Failed(r.st)
      else if IsFalsey(r.v) then Exec(pr, f, r.st, fuel) else Exec(pr, t, r.st, fuel)
    case WhileLoop(c, b) =>
      if fuel == 0 then OutOfFuel else
        var r := Eval(pr, c, Push(st));
        if r.Fault? then Failed(r.st)
        else if IsFalsey(r.v) then Normal(Unwind(r.st, |st.scopes|))
        else
          var q := UnwindResult(Exec(pr, b, r.st, fuel), |st.scopes|);
          if q.Failed? || q.OutOfFuel? then q else Exec(pr, s, q.st, fuel - 1)
    case ContinueStmt => Continued(st)
  }

  function ExecDecl(pr: Primitives, d: Decl, st: State, fuel: nat): Result
    decreases fuel, d, 2
  {
    match d
    case Statement(s) => Exec(pr, s, st, fuel)
    case VarDecl(x, None) => Normal(Declare(x, Value.Nil, st))
    case VarDecl(x, Some(e)) =>
      var r := Eval(pr, e, st);
      if r.Fault? then Failed(r.st) else Normal(Declare(x, r.v, r.st))
  }

  function ExecAll(pr: Primitives, ds: seq<Decl>, st: State, fuel: nat): Result
    decreases fuel, ds, 0
  {
    if ds == [] then Normal(st) else
      var r := ExecAll(pr, ds[..|ds| - 1], st, fuel);
      if r.Normal? then ExecDecl(pr, ds[|ds| - 1], r.st, fuel) else r
  }

  /** The state in which a script starts: only slot 0's reserved name is bound. */
  function Initial(globals: map<string, Value>): State {
    State([map["this" := Script]], globals, [])
  }
}
