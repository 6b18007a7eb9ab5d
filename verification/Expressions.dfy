/** The code of an expression computes the value of the expression. */
module Expressions {
  import opened Values
  import opened Syntax
  import opened Semantics
  import opened Bytecode
  import opened Codegen
  import opened Machine

  /** Slots are sorted by scope, and no scope declares a name twice. */
  ghost predicate Ordered(locals: seq<Local>) {
    forall i, j :: 0 <= i < j < |locals| && locals[i].level >= 0 && locals[j].level >= 0 ==>
      locals[i].level <= locals[j].level && locals[i] != locals[j]
  }

  /** The compile-time slots picture the scopes: each initialized slot holds the value its scope
      binds, and each binding has a slot. */
  ghost predicate Match(locals: seq<Local>, stack: seq<Value>, scopes: Scopes) {
    && Ordered(locals)
    && (forall i :: 0 <= i < |locals| && locals[i].level >= 0 ==> SlotHolds(locals, stack, scopes, i))
    && (forall l, x :: 0 <= l < |scopes| && x in scopes[l] ==> Local(x, l) in locals)
  }

  ghost predicate SlotHolds(locals: seq<Local>, stack: seq<Value>, scopes: Scopes, i: nat)
    requires i < |locals| && locals[i].level >= 0
  {
    && i < |stack| && locals[i].level < |scopes|
    && locals[i].name in scopes[locals[i].level]
    && scopes[locals[i].level][locals[i].name] == stack[i]
  }

  ghost predicate Agree(locals: seq<Local>, s: Config, st: State) {
    && Match(locals, s.stack, st.scopes)
    && s.globals == st.globals
    && s.output == st.output
  }

  /** Only initialized locals differ: values in use above them stay. */
  ghost predicate Kept(locals: seq<Local>, old_: seq<Value>, new_: seq<Value>) {
    && |old_| <= |new_|
    && forall k :: 0 <= k < |old_| && (k >= |locals| || locals[k].level < 0) ==> old_[k] == new_[k]
  }

  /** After `n` steps from `s` the machine has executed `len` bytes and pushed the value of `r`,
      or has stopped with the error of `r`; globals, output and locals are those of `r`. */
  ghost predicate Computes(p: Program, locals: seq<Local>, s: Config, len: nat, r: ExprResult, n: nat, t: Config) {
    match r
    case Done(v, st) =>
      && Steps(p, s, n) == Running(t)
      && t.ip == s.ip + len
      && |t.stack| == |s.stack| + 1
      && Top(t, 0) == v
      && Kept(locals, s.stack, t.stack)
      && Agree(locals, t, st)
    case Fault(st) =>
      Steps(p, s, n) == Status.Error(t) && t.globals == st.globals && t.output == st.output
  }

  ghost predicate ComputesAll(p: Program, locals: seq<Local>, s: Config, len: nat, r: ArgsResult, n: nat, t: Config) {
    match r
    case DoneAll(vs, st) =>
      && Steps(p, s, n) == Running(t)
      && t.ip == s.ip + len
      && |t.stack| == |s.stack| + |vs|
      && t.stack[|s.stack|..] == vs
      && Kept(locals, s.stack, t.stack)
      && Agree(locals, t, st)
    case FaultAll(st) =>
      Steps(p, s, n) == Status.Error(t) && t.globals == st.globals && t.output == st.output
  }

  // ----- names and slots -----

  lemma LookupAgrees(locals: seq<Local>, stack: seq<Value>, scopes: Scopes, x: string)
    requires Match(locals, stack, scopes)
    ensures Resolve(locals, x) == -1 ==> FindScope(scopes, x) == -1
    ensures var r := Resolve(locals, x); r >= 0 && locals[r].level >= 0 ==>
      r < |stack| && FindScope(scopes, x) == locals[r].level && scopes[locals[r].level][x] == stack[r]
  {
    var r, k := Resolve(locals, x), FindScope(scopes, x);
    if k >= 0 {
      assert Local(x, k) in locals;
      var i :| 0 <= i < |locals| && locals[i] == Local(x, k);
      assert i <= r;
    }
    if r >= 0 && locals[r].level >= 0 {
      assert SlotHolds(locals, stack, scopes, r);
    }
  }

  lemma AssignAgrees(locals: seq<Local>, stack: seq<Value>, scopes: Scopes, x: string, v: Value)
    requires Match(locals, stack, scopes)
    requires Resolve(locals, x) >= 0 && locals[Resolve(locals, x)].level >= 0
    ensures var r := Resolve(locals, x);
      var l := locals[r].level;
      r < |stack| && l < |scopes| && Match(locals, stack[r := v], scopes[l := scopes[l][x := v]])
  {
    var r := Resolve(locals, x);
    var l := locals[r].level;
    assert SlotHolds(locals, stack, scopes, r);
    var stack', scopes' := stack[r := v], scopes[l := scopes[l][x := v]];
    forall i | 0 <= i < |locals| && locals[i].level >= 0
      ensures SlotHolds(locals, stack', scopes', i)
    {
      assert SlotHolds(locals, stack, scopes, i);
      assert i != r ==> locals[i] != locals[r];
    }
    forall m, y | 0 <= m < |scopes'| && y in scopes'[m]
      ensures Local(y, m) in locals
    {
      if m == l && y == x {
        assert locals[r] == Local(x, l);
      } else {
        assert y in scopes[m];
      }
    }
  }

  /** Values above the locals do not matter. */
  lemma MatchKept(locals: seq<Local>, stack: seq<Value>, stack': seq<Value>, scopes: Scopes)
    requires Match(locals, stack, scopes)
    requires forall i :: 0 <= i < |locals| && locals[i].level >= 0 && i < |stack| ==>
      i < |stack'| && stack'[i] == stack[i]
    ensures Match(locals, stack', scopes)
  {
    forall i | 0 <= i < |locals| && locals[i].level >= 0
      ensures SlotHolds(locals, stack', scopes, i)
    {
      assert SlotHolds(locals, stack, scopes, i);
    }
  }

  // ----- the constant pool -----

  lemma PoolIndex(op: byte, v: Value, pool: seq<Value>, full: seq<Value>)
    requires WithConstant(op, v, pool).Emit?
    requires WithConstant(op, v, pool).pool <= full
    ensures pool <= full
    ensures IndexOf(pool, v, 0) < |full| && full[IndexOf(pool, v, 0)] == v
  {
  }

  lemma AccessGrows(l: byte, g: byte, x: Ident, locals: seq<Local>, pool: seq<Value>)
    ensures var a := Access(l, g, x, locals, pool); a.Emit? ==> pool <= a.pool && |a.code| == 2
  {
  }

  lemma {:induction false} ExprGrows(e: Expr, locals: seq<Local>, pool: seq<Value>)
    ensures var g := GenExpr(e, locals, pool); g.Emit? ==> pool <= g.pool
    decreases e, 1
  {
    match e
    case Literal(v) =>
    case Variable(x) =>
    case Assign(x, rhs) =>
      var a := Access(OP_SET_LOCAL, OP_SET_GLOBAL, x, locals, pool);
      if a.Emit? { ExprGrows(rhs, locals, a.pool); }
    case Unary(op, a) => ExprGrows(a, locals, pool);
    case Binary(op, a, b) =>
      ExprGrows(a, locals, pool);
      var g := GenExpr(a, locals, pool);
      if g.Emit? { ExprGrows(b, locals, g.pool); }
    case Conj(a, b) =>
      ExprGrows(a, locals, pool);
      var g := GenExpr(a, locals, pool);
      if g.Emit? { ExprGrows(b, locals, g.pool); }
    case Disj(a, b) =>
      ExprGrows(a, locals, pool);
      var g := GenExpr(a, locals, pool);
      if g.Emit? { ExprGrows(b, locals, g.pool); }
    case Call(f, args) =>
      ExprGrows(f, locals, pool);
      var g := GenExpr(f, locals, pool);
      if g.Emit? { ArgsGrow(args, locals, g.pool); }
  }

  lemma {:induction false} ArgsGrow(args: seq<Expr>, locals: seq<Local>, pool: seq<Value>)
    ensures var g := GenArgs(args, locals, pool); g.Emit? ==> pool <= g.pool
    decreases args, 0
  {
    if args != [] {
      ArgsGrow(args[..|args| - 1], locals, pool);
      var g := GenArgs(args[..|args| - 1], locals, pool);
      if g.Emit? { ExprGrows(args[|args| - 1], locals, g.pool); }
    }
  }

  // ----- single instructions -----

  lemma LiteralStep(p: Program, v: Value, pool: seq<Value>, s: Config)
    requires LiteralCode(v, pool).Emit?
    requires Holds(p.code, s.ip, LiteralCode(v, pool).code) && LiteralCode(v, pool).pool <= p.pool
    ensures Steps(p, s, 1) == Running(Replace(s, s.ip + |LiteralCode(v, pool).code|, 0, v))
  {
    var g := LiteralCode(v, pool);
    assert g.code == p.code[s.ip..s.ip + |g.code|];
    assert p.code[s.ip] == g.code[0];
    if v != Value.Nil && !v.Bool? {
      PoolIndex(OP_CONSTANT, v, pool, p.pool);
      assert p.code[s.ip + 1] == g.code[1];
    }
    assert Steps(p, s, 1) == Step(p, s);
  }

  /** The two bytes of a variable access, split into opcode and operand. */
  lemma OneByte(code: seq<byte>, at: nat, op: byte)
    requires Holds(code, at, [op])
    ensures at < |code| && code[at] == op
  {
    var w := code[at..at + 1];
    assert w[0] == op;
  }

  lemma TwoBytes(code: seq<byte>, at: nat, op: byte, a: byte)
    requires Holds(code, at, [op, a])
    ensures at + 2 <= |code| && code[at] == op && code[at + 1] == a
  {
    var w := code[at..at + 2];
    assert w[0] == op && w[1] == a;
  }

  lemma SlotsBelow(locals: seq<Local>, stack: seq<Value>, scopes: Scopes)
    requires Match(locals, stack, scopes)
    ensures forall i :: 0 <= i < |locals| && locals[i].level >= 0 ==> i < |stack|
  {
    forall i | 0 <= i < |locals| && locals[i].level >= 0
      ensures i < |stack|
    {
      assert SlotHolds(locals, stack, scopes, i);
    }
  }

  /** The values above `base` give way to one result; below, nothing is disturbed. */
  lemma ResultAgrees(locals: seq<Local>, base: Config, base_st: State, s: Config, st: State, ip: nat, n: nat, v: Value)
    requires Agree(locals, base, base_st) && Agree(locals, s, st)
    requires |s.stack| == |base.stack| + n && Kept(locals, base.stack, s.stack)
    ensures Agree(locals, Replace(s, ip, n, v), st)
    ensures Kept(locals, base.stack, Replace(s, ip, n, v).stack)
  {
    SlotsBelow(locals, base.stack, base_st.scopes);
    MatchKept(locals, s.stack, Replace(s, ip, n, v).stack, st.scopes);
  }

  /** Dropping the values above `base`. */
  lemma DropAgrees(locals: seq<Local>, base: Config, base_st: State, s: Config, st: State)
    requires Agree(locals, base, base_st) && Agree(locals, s, st)
    requires |s.stack| >= |base.stack| && Kept(locals, base.stack, s.stack)
    ensures Match(locals, s.stack[..|base.stack|], st.scopes)
    ensures Kept(locals, base.stack, s.stack[..|base.stack|])
  {
    SlotsBelow(locals, base.stack, base_st.scopes);
    MatchKept(locals, s.stack, s.stack[..|base.stack|], st.scopes);
  }

  /** A value above the locals survives a computation that keeps them. */
  lemma TemporaryKept(locals: seq<Local>, base: Config, st: State, s: Config, t: Config, k: nat)
    requires Agree(locals, base, st)
    requires |base.stack| <= k < |s.stack| && Kept(locals, s.stack, t.stack)
    ensures t.stack[k] == s.stack[k]
  {
    SlotsBelow(locals, base.stack, st.scopes);
  }

  lemma {:induction false} LoadStep(p: Program, x: Ident, locals: seq<Local>, pool: seq<Value>, s: Config,
      st: State) returns (t: Config)
    requires Access(OP_GET_LOCAL, OP_GET_GLOBAL, x, locals, pool).Emit?
    requires Holds(p.code, s.ip, Access(OP_GET_LOCAL, OP_GET_GLOBAL, x, locals, pool).code)
    requires Access(OP_GET_LOCAL, OP_GET_GLOBAL, x, locals, pool).pool <= p.pool
    requires Agree(locals, s, st)
    ensures Computes(p, locals, s, 2, Eval(p.pr, Variable(x), st), 1, t)
  {
    var g := Access(OP_GET_LOCAL, OP_GET_GLOBAL, x, locals, pool);
    var r := Resolve(locals, x);
    LookupAgrees(locals, s.stack, st.scopes, x);
    TwoBytes(p.code, s.ip, g.code[0], g.code[1]);
    assert Steps(p, s, 1) == Step(p, s) == StepByte(p, g.code[0], g.code[1], s);
    t := s;
    if r >= 0 {
      t := Replace(s, s.ip + 2, 0, s.stack[r]);
      ResultAgrees(locals, s, st, s, st, s.ip + 2, 0, s.stack[r]);
    } else {
      PoolIndex(OP_GET_GLOBAL, Str(x), pool, p.pool);
      if x in st.globals {
        t := Replace(s, s.ip + 2, 0, s.globals[x]);
        ResultAgrees(locals, s, st, s, st, s.ip + 2, 0, s.globals[x]);
      }
    }
  }

  /** The instruction that ends an assignment, with the assigned value on top of the stack. */
  lemma {:induction false} StoreStep(p: Program, x: Ident, locals: seq<Local>, pool: seq<Value>, s: Config, v: Value,
      st: State) returns (t: Config)
    requires Access(OP_SET_LOCAL, OP_SET_GLOBAL, x, locals, pool).Emit?
    requires Holds(p.code, s.ip, Access(OP_SET_LOCAL, OP_SET_GLOBAL, x, locals, pool).code)
    requires Access(OP_SET_LOCAL, OP_SET_GLOBAL, x, locals, pool).pool <= p.pool
    requires |s.stack| > 0 && Top(s, 0) == v
    requires Agree(locals, s, st)
    requires forall i :: 0 <= i < |locals| && locals[i].level >= 0 ==> i < |s.stack| - 1
    ensures var r := AssignTo(x, v, st);
      match r
      case Done(_, st') =>
        Steps(p, s, 1) == Running(t) && t.ip == s.ip + 2 && |t.stack| == |s.stack| && Top(t, 0) == v
        && Kept(locals, s.stack, t.stack) && Agree(locals, t, st')
      case Fault(st') => Steps(p, s, 1) == Status.Error(t) && t.globals == st'.globals && t.output == st'.output
  {
    hide Match;
    var g := Access(OP_SET_LOCAL, OP_SET_GLOBAL, x, locals, pool);
    LookupAgrees(locals, s.stack, st.scopes, x);
    TwoBytes(p.code, s.ip, g.code[0], g.code[1]);
    assert Steps(p, s, 1) == Step(p, s) == StepByte(p, g.code[0], g.code[1], s);
    t := s;
    if Resolve(locals, x) == -1 {
      PoolIndex(OP_SET_GLOBAL, Str(x), pool, p.pool);
      if x in st.globals { t := s.(ip := s.ip + 2, globals := s.globals[x := v]); }
    } else {
      AssignAgrees(locals, s.stack, st.scopes, x, v);
      t := s.(ip := s.ip + 2, stack := s.stack[Resolve(locals, x) := v]);
    }
  }

  lemma UnaryStep(p: Program, op: UnOp, s: Config)
    requires Holds(p.code, s.ip, UnaryCode(op)) && |s.stack| > 0
    ensures var r := UnaryValue(p.pr, op, Top(s, 0));
      Steps(p, s, 1) == if r.Some? then Running(Replace(s, s.ip + 1, 1, r.value)) else Status.Error(s)
  {
    assert p.code[s.ip] == p.code[s.ip..s.ip + 1][0] == UnaryCode(op)[0];
    assert Steps(p, s, 1) == Step(p, s);
  }

  /** The first instruction of an operator and, where there is a second, its negation give the
      operator's value on all operands, with the same errors. */
  lemma OperatorMeaning(pr: Primitives, op: BinOp, a: Value, b: Value)
    ensures var o := BinaryOutcome(pr, BinaryCode(op)[0], a, b);
      && IsBinary(BinaryCode(op)[0])
      && (|BinaryCode(op)| == 1 ==> BinaryValue(pr, op, a, b) == o)
      && (|BinaryCode(op)| == 2 ==>
            && BinaryCode(op)[1] == OP_NOT
            && BinaryValue(pr, op, a, b) == if o.Some? then Some(Bool(IsFalsey(o.value))) else None)
  {
  }

  lemma {:induction false} BinaryStep(p: Program, op: BinOp, s: Config) returns (n: nat)
    requires Holds(p.code, s.ip, BinaryCode(op)) && |s.stack| > 1
    ensures n == |BinaryCode(op)|
    ensures var r := BinaryValue(p.pr, op, Top(s, 1), Top(s, 0));
      Steps(p, s, n) == if r.Some? then Running(Replace(s, s.ip + |BinaryCode(op)|, 2, r.value)) else Status.Error(s)
  {
    n := |BinaryCode(op)|;
    OperatorMeaning(p.pr, op, Top(s, 1), Top(s, 0));
    var w := p.code[s.ip..s.ip + n];
    assert p.code[s.ip] == w[0] == BinaryCode(op)[0];
    hide BinaryCode, BinaryValue, BinaryOutcome, IsBinary;
    var r := StepBinary(p.pr, p.code[s.ip], s);
    assert Steps(p, s, 1) == Step(p, s) == r;
    if n == 2 {
      assert p.code[s.ip + 1] == w[1] == OP_NOT;
      if r.Running? {
        NotStep(p, r.s);
        assert r.s.stack[..|r.s.stack| - 1] == s.stack[..|s.stack| - 2];
        StepsCompose(p, s, 1, 1);
      } else {
        StepsEnded(p, s, 1, 2);
      }
    }
  }

  lemma NotStep(p: Program, s: Config)
    requires s.ip < |p.code| && p.code[s.ip] == OP_NOT && |s.stack| > 0
    ensures Steps(p, s, 1) == Running(Replace(s, s.ip + 1, 1, Bool(IsFalsey(Top(s, 0)))))
  {
    assert Steps(p, s, 1) == Step(p, s);
  }

  /** A conditional jump over `d` bytes followed by the pop of the condition. */
  lemma SkipStep(p: Program, jump: byte, d: nat, s: Config)
    requires jump == OP_JUMP_IF_FALSE || jump == OP_JUMP_IF_TRUE
    requires d <= UINT16_MAX && |s.stack| > 0
    requires Holds(p.code, s.ip, [jump] + U16(d) + [OP_POP])
    ensures if IsFalsey(Top(s, 0)) == (jump == OP_JUMP_IF_FALSE)
            then Steps(p, s, 1) == Running(s.(ip := s.ip + 3 + d))
            else Steps(p, s, 2) == Running(s.(ip := s.ip + 4, stack := s.stack[..|s.stack| - 1]))
  {
    HoldsJump(p.code, s.ip, jump, d, [OP_POP]);
    var r := Step(p, s);
    assert r == StepJump(jump, d, s);
    assert Steps(p, s, 1) == r;
    if IsFalsey(Top(s, 0)) != (jump == OP_JUMP_IF_FALSE) {
      assert p.code[s.ip + 3] == p.code[s.ip + 3..s.ip + 4][0] == OP_POP;
      assert Steps(p, r.s, 1) == Step(p, r.s);
      StepsCompose(p, s, 1, 1);
    }
  }

  lemma CallStep(p: Program, argc: byte, s: Config)
    requires Holds(p.code, s.ip, [OP_CALL, argc]) && |s.stack| > argc
    ensures Steps(p, s, 1) == StepCall(p.pr, argc, s)
  {
    TwoBytes(p.code, s.ip, OP_CALL, argc);
    assert Steps(p, s, 1) == Step(p, s);
  }

  // ----- expressions -----

  /** The main lemma on expressions: the emitted code computes what evaluation yields. */
  lemma {:induction false} ExprSim(p: Program, e: Expr, locals: seq<Local>, pool: seq<Value>, s: Config, st: State)
    returns (n: nat, t: Config)
    requires GenExpr(e, locals, pool).Emit?
    requires Holds(p.code, s.ip, GenExpr(e, locals, pool).code) && GenExpr(e, locals, pool).pool <= p.pool
    requires Agree(locals, s, st)
    ensures Computes(p, locals, s, |GenExpr(e, locals, pool).code|, Eval(p.pr, e, st), n, t)
    decreases e, 1
  {
    hide Step, Steps, Match, SlotHolds;
    match e
    case Literal(v) =>
      n := 1;
      t := LiteralSim(p, v, locals, pool, s, st);
    case Variable(x) =>
      n := 1;
      AccessGrows(OP_GET_LOCAL, OP_GET_GLOBAL, x, locals, pool);
      t := LoadStep(p, x, locals, pool, s, st);
    case Assign(x, rhs) => n, t := AssignSim(p, x, rhs, locals, pool, s, st);
    case Unary(op, a) => n, t := UnarySim(p, op, a, locals, pool, s, st);
    case Binary(op, a, b) => n, t := BinarySim(p, op, a, b, locals, pool, s, st);
    case Conj(a, b) => n, t := ShortSim(p, e, OP_JUMP_IF_FALSE, a, b, locals, pool, s, st);
    case Disj(a, b) => n, t := ShortSim(p, e, OP_JUMP_IF_TRUE, a, b, locals, pool, s, st);
    case Call(f, args) => n, t := CallSim(p, f, args, locals, pool, s, st);
  }

  lemma {:induction false} LiteralSim(p: Program, v: Value, locals: seq<Local>, pool: seq<Value>, s: Config,
      st: State) returns (t: Config)
    requires LiteralCode(v, pool).Emit?
    requires Holds(p.code, s.ip, LiteralCode(v, pool).code) && LiteralCode(v, pool).pool <= p.pool
    requires Agree(locals, s, st)
    ensures Computes(p, locals, s, |LiteralCode(v, pool).code|, Done(v, st), 1, t)
  {
    hide Step, Steps, Match, SlotHolds;
    LiteralStep(p, v, pool, s);
    t := Replace(s, s.ip + |LiteralCode(v, pool).code|, 0, v);
    ResultAgrees(locals, s, st, s, st, t.ip, 0, v);
  }

  // ----- putting computations together -----

  /** A computation that faults after one that succeeded. */
  lemma ThenFault(p: Program, locals: seq<Local>, s: Config, k: nat, v: Value, st: State, n: nat, t: Config,
                  l: nat, st2: State, m: nat, t2: Config, len: nat)
    requires Computes(p, locals, s, k, Done(v, st), n, t)
    requires Computes(p, locals, t, l, ExprResult.Fault(st2), m, t2)
    ensures Computes(p, locals, s, len, ExprResult.Fault(st2), n + m, t2)
  {
    hide Step, Steps, Match, Kept;
    StepsCompose(p, s, n, m);
  }

  /** The computation from `s`, once the machine is at `t` with nothing more on the stack. */
  lemma {:induction false} Resume(p: Program, locals: seq<Local>, s: Config, n: nat, t: Config, l: nat, r: ExprResult,
      m: nat, t2: Config)
    requires Steps(p, s, n) == Running(t) && s.ip <= t.ip
    requires |t.stack| == |s.stack| && Kept(locals, s.stack, t.stack)
    requires Computes(p, locals, t, l, r, m, t2)
    ensures Computes(p, locals, s, t.ip - s.ip + l, r, n + m, t2)
  {
    hide Step, Steps, Match;
    StepsCompose(p, s, n, m);
  }

  lemma {:induction false} UnaryShape(pr: Primitives, op: UnOp, a: Expr, locals: seq<Local>, pool: seq<Value>,
      st: State)
    ensures GenExpr(Unary(op, a), locals, pool) == GenExpr(a, locals, pool).Append(UnaryCode(op))
    ensures var r := Eval(pr, a, st);
      Eval(pr, Unary(op, a), st) == if r.Fault? then r else Finish(UnaryValue(pr, op, r.v), r.st)
  {
    hide UnaryCode, UnaryValue;
  }

  lemma {:induction false} UnarySim(p: Program, op: UnOp, a: Expr, locals: seq<Local>, pool: seq<Value>, s: Config,
      st: State)
    returns (n: nat, t: Config)
    requires GenExpr(Unary(op, a), locals, pool).Emit?
    requires Holds(p.code, s.ip, GenExpr(Unary(op, a), locals, pool).code)
    requires GenExpr(Unary(op, a), locals, pool).pool <= p.pool
    requires Agree(locals, s, st)
    ensures Computes(p, locals, s, |GenExpr(Unary(op, a), locals, pool).code|, Eval(p.pr, Unary(op, a), st), n, t)
    decreases Unary(op, a), 0
  {
    hide Step, Steps, Match, GenExpr, Eval, Holds, Kept;
    UnaryShape(p.pr, op, a, locals, pool, st);
    var g := GenExpr(a, locals, pool);
    HoldsSplit(p.code, s.ip, g.code, UnaryCode(op));
    n, t := ExprSim(p, a, locals, pool, s, st);
    var r := Eval(p.pr, a, st);
    if r.Done? {
      UnaryStep(p, op, t);
      StepsCompose(p, s, n, 1);
      n := n + 1;
      var v := UnaryValue(p.pr, op, r.v);
      if v.Some? {
        ResultAgrees(locals, s, st, t, r.st, t.ip + 1, 1, v.value);
        t := Replace(t, t.ip + 1, 1, v.value);
      }
    }
  }

  lemma {:induction false} AssignSim(p: Program, x: Ident, rhs: Expr, locals: seq<Local>, pool: seq<Value>,
      s: Config, st: State)
    returns (n: nat, t: Config)
    requires GenExpr(Assign(x, rhs), locals, pool).Emit?
    requires Holds(p.code, s.ip, GenExpr(Assign(x, rhs), locals, pool).code)
    requires GenExpr(Assign(x, rhs), locals, pool).pool <= p.pool
    requires Agree(locals, s, st)
    ensures Computes(p, locals, s, |GenExpr(Assign(x, rhs), locals, pool).code|, Eval(p.pr, Assign(x, rhs), st), n, t)
    decreases Assign(x, rhs), 0
  {
    hide Step, Steps, Match, SlotHolds;
    var a := Access(OP_SET_LOCAL, OP_SET_GLOBAL, x, locals, pool);
    var g := GenExpr(rhs, locals, a.pool);
    HoldsSplit(p.code, s.ip, g.code, a.code);
    ExprGrows(rhs, locals, a.pool);
    AccessGrows(OP_SET_LOCAL, OP_SET_GLOBAL, x, locals, pool);
    n, t := ExprSim(p, rhs, locals, a.pool, s, st);
    var r := Eval(p.pr, rhs, st);
    if r.Done? {
      SlotsBelow(locals, s.stack, st.scopes);
      t := StoreStep(p, x, locals, pool, t, r.v, r.st);
      StepsCompose(p, s, n, 1);
      n := n + 1;
    }
  }

  /** The operator's instructions after the code of both operands. */
  lemma {:induction false} BinaryFinish(p: Program, op: BinOp, locals: seq<Local>, s: Config, st: State,
                     k: nat, a: Value, st1: State, n: nat, t: Config, l: nat, b: Value, st2: State, m: nat, t2: Config)
    returns (n3: nat, t3: Config)
    requires Agree(locals, s, st)
    requires Computes(p, locals, s, k, Done(a, st1), n, t)
    requires Computes(p, locals, t, l, Done(b, st2), m, t2)
    requires Holds(p.code, t2.ip, BinaryCode(op))
    ensures Computes(p, locals, s, k + l + |BinaryCode(op)|, Finish(BinaryValue(p.pr, op, a, b), st2), n3, t3)
  {
    hide Step, Steps, Match, BinaryCode, BinaryValue;
    TemporaryKept(locals, s, st, t, t2, |s.stack|);
    var j := BinaryStep(p, op, t2);
    StepsCompose(p, s, n, m);
    StepsCompose(p, s, n + m, j);
    var v := BinaryValue(p.pr, op, a, b);
    n3, t3 := n + m + j, t2;
    if v.Some? {
      ResultAgrees(locals, s, st, t2, st2, t2.ip + |BinaryCode(op)|, 2, v.value);
      t3 := Replace(t2, t2.ip + |BinaryCode(op)|, 2, v.value);
    }
  }

  lemma {:induction false} BinaryEval(pr: Primitives, op: BinOp, a: Expr, b: Expr, st: State)
    ensures var r := Eval(pr, a, st);
      Eval(pr, Binary(op, a, b), st) ==
        if r.Fault? then r
        else
          var q := Eval(pr, b, r.st);
          if q.Fault? then q else Finish(BinaryValue(pr, op, r.v, q.v), q.st)
  {
    hide BinaryValue;
  }

  lemma {:induction false} BinarySim(p: Program, op: BinOp, a: Expr, b: Expr, locals: seq<Local>, pool: seq<Value>,
      s: Config, st: State)
    returns (n: nat, t: Config)
    requires GenExpr(Binary(op, a, b), locals, pool).Emit?
    requires Holds(p.code, s.ip, GenExpr(Binary(op, a, b), locals, pool).code)
    requires GenExpr(Binary(op, a, b), locals, pool).pool <= p.pool
    requires Agree(locals, s, st)
    ensures Computes(p, locals, s, |GenExpr(Binary(op, a, b), locals, pool).code|, Eval(p.pr, Binary(op, a, b), st),
      n, t)
    decreases Binary(op, a, b), 0
  {
    hide Step, Steps, Match, SlotHolds, Kept, BinaryCode, BinaryValue, GenExpr, Eval, Holds;
    BinaryShape(op, a, b, locals, pool);
    BinaryEval(p.pr, op, a, b, st);
    var g := GenExpr(a, locals, pool);
    var h := GenExpr(b, locals, g.pool);
    HoldsSplit(p.code, s.ip, g.code + h.code, BinaryCode(op));
    HoldsSplit(p.code, s.ip, g.code, h.code);
    ExprGrows(b, locals, g.pool);
    n, t := ExprSim(p, a, locals, pool, s, st);
    var r := Eval(p.pr, a, st);
    if r.Done? {
      var m, t2 := ExprSim(p, b, locals, g.pool, t, r.st);
      var q := Eval(p.pr, b, r.st);
      if q.Done? {
        n, t := BinaryFinish(p, op, locals, s, st, |g.code|, r.v, r.st, n, t, |h.code|, q.v, q.st, m, t2);
      } else {
        ThenFault(p, locals, s, |g.code|, r.v, r.st, n, t, |h.code|, q.st, m, t2, |g.code + h.code + BinaryCode(op)|);
        n, t := n + m, t2;
      }
    }
  }

  /** The jump of a short-circuit operator that is taken: the left operand is the result. */
  lemma ShortTaken(p: Program, jump: byte, d: nat, locals: seq<Local>, s: Config, k: nat, v: Value, st: State,
      n: nat, t: Config)
    requires jump == OP_JUMP_IF_FALSE || jump == OP_JUMP_IF_TRUE
    requires Computes(p, locals, s, k, Done(v, st), n, t)
    requires d <= UINT16_MAX && Holds(p.code, t.ip, [jump] + U16(d) + [OP_POP])
    requires IsFalsey(v) == (jump == OP_JUMP_IF_FALSE)
    ensures Computes(p, locals, s, k + 3 + d, Done(v, st), n + 1, t.(ip := t.ip + 3 + d))
  {
    hide Step, Steps, Match, Kept, Holds;
    SkipStep(p, jump, d, t);
    StepsCompose(p, s, n, 1);
  }

  /** A conditional jump that is not taken: the condition is popped. */
  lemma {:induction false} FallThrough(p: Program, jump: byte, d: nat, locals: seq<Local>, s: Config, st0: State,
      k: nat, v: Value, st: State, n: nat, t: Config)
    returns (t2: Config)
    requires jump == OP_JUMP_IF_FALSE || jump == OP_JUMP_IF_TRUE
    requires Agree(locals, s, st0)
    requires Computes(p, locals, s, k, Done(v, st), n, t)
    requires d <= UINT16_MAX && Holds(p.code, t.ip, [jump] + U16(d) + [OP_POP])
    requires IsFalsey(v) != (jump == OP_JUMP_IF_FALSE)
    ensures Steps(p, s, n + 2) == Running(t2) && t2.ip == s.ip + k + 4
    ensures |t2.stack| == |s.stack| && Kept(locals, s.stack, t2.stack) && Agree(locals, t2, st)
  {
    hide Step, Steps, Match, Kept, Holds;
    SkipStep(p, jump, d, t);
    StepsCompose(p, s, n, 2);
    DropAgrees(locals, s, st0, t, st);
    t2 := t.(ip := t.ip + 4, stack := t.stack[..|t.stack| - 1]);
  }

  lemma {:induction false} ShortSim(p: Program, e: Expr, jump: byte, a: Expr, b: Expr, locals: seq<Local>,
      pool: seq<Value>, s: Config, st: State)
    returns (n: nat, t: Config)
    requires (e == Conj(a, b) && jump == OP_JUMP_IF_FALSE) || (e == Disj(a, b) && jump == OP_JUMP_IF_TRUE)
    requires GenExpr(e, locals, pool).Emit?
    requires Holds(p.code, s.ip, GenExpr(e, locals, pool).code) && GenExpr(e, locals, pool).pool <= p.pool
    requires Agree(locals, s, st)
    ensures Computes(p, locals, s, |GenExpr(e, locals, pool).code|, Eval(p.pr, e, st), n, t)
    decreases e, 0
  {
    hide Step, Steps, Match, SlotHolds, Kept, Holds, GenExpr;
    ShortShape(a, b, locals, pool);
    var g := GenExpr(a, locals, pool);
    var h := GenExpr(b, locals, g.pool);
    var d := |h.code| + 1;
    HoldsSplit(p.code, s.ip, g.code + ([jump] + U16(d) + [OP_POP]), h.code);
    HoldsSplit(p.code, s.ip, g.code, [jump] + U16(d) + [OP_POP]);
    ExprGrows(b, locals, g.pool);
    n, t := ExprSim(p, a, locals, pool, s, st);
    var r := Eval(p.pr, a, st);
    if r.Done? {
      if IsFalsey(r.v) == (jump == OP_JUMP_IF_FALSE) {
        ShortTaken(p, jump, d, locals, s, |g.code|, r.v, r.st, n, t);
        n, t := n + 1, t.(ip := t.ip + 3 + d);
      } else {
        t := FallThrough(p, jump, d, locals, s, st, |g.code|, r.v, r.st, n, t);
        var m, t2 := ExprSim(p, b, locals, g.pool, t, r.st);
        Resume(p, locals, s, n + 2, t, |h.code|, Eval(p.pr, b, r.st), m, t2);
        n, t := n + 2 + m, t2;
      }
    }
  }

  /** The call instruction after the code of the callee and of the arguments. */
  lemma {:induction false} CallFinish(p: Program, argc: byte, locals: seq<Local>, s: Config, st: State,
                   k: nat, f: Value, st1: State, n: nat, t: Config, l: nat, vs: seq<Value>, st2: State, m: nat,
      t2: Config)
    returns (t3: Config)
    requires Agree(locals, s, st) && |vs| == argc
    requires Computes(p, locals, s, k, Done(f, st1), n, t)
    requires ComputesAll(p, locals, t, l, DoneAll(vs, st2), m, t2)
    requires Holds(p.code, t2.ip, [OP_CALL, argc])
    ensures Computes(p, locals, s, k + l + 2,
      if f.Native? then Done(p.pr.native(f.id, vs), st2) else ExprResult.Fault(st2), n + m + 1, t3)
  {
    hide Step, Steps, Match;
    TemporaryKept(locals, s, st, t, t2, |s.stack|);
    CallStep(p, argc, t2);
    StepsCompose(p, s, n, m);
    StepsCompose(p, s, n + m, 1);
    t3 := t2;
    if f.Native? {
      var v := p.pr.native(f.id, vs);
      ResultAgrees(locals, s, st, t2, st2, t2.ip + 2, argc + 1, v);
      t3 := Replace(t2, t2.ip + 2, argc + 1, v);
    }
  }

  lemma {:induction false} CallShape(f: Expr, args: seq<Expr>, locals: seq<Local>, pool: seq<Value>)
    requires GenExpr(Call(f, args), locals, pool).Emit?
    ensures var g := GenExpr(f, locals, pool);
      && g.Emit?
      && var h := GenArgs(args, locals, g.pool);
        h.Emit? && |args| <= UINT8_MAX && GenExpr(Call(f, args), locals, pool) == Emit(g.code + h.code + [OP_CALL,
          |args|], h.pool)
  {
    hide GenArgs;
  }

  lemma {:induction false} CallEval(pr: Primitives, f: Expr, args: seq<Expr>, st: State)
    ensures var r := Eval(pr, f, st);
      Eval(pr, Call(f, args), st) ==
        if r.Fault? then r
        else
          var q := EvalArgs(pr, args, r.st);
          if q.FaultAll? then ExprResult.Fault(q.st)
          else if r.v.Native? then Done(pr.native(r.v.id, q.vs), q.st)
          else ExprResult.Fault(q.st)
  {
    hide EvalArgs;
  }

  lemma {:induction false} CallSim(p: Program, f: Expr, args: seq<Expr>, locals: seq<Local>, pool: seq<Value>,
      s: Config, st: State)
    returns (n: nat, t: Config)
    requires GenExpr(Call(f, args), locals, pool).Emit?
    requires Holds(p.code, s.ip, GenExpr(Call(f, args), locals, pool).code)
    requires GenExpr(Call(f, args), locals, pool).pool <= p.pool
    requires Agree(locals, s, st)
    ensures Computes(p, locals, s, |GenExpr(Call(f, args), locals, pool).code|, Eval(p.pr, Call(f, args), st), n, t)
    decreases Call(f, args), 0
  {
    hide Step, Steps, Match, SlotHolds, Kept, GenExpr, GenArgs, Eval, EvalArgs, Holds;
    CallShape(f, args, locals, pool);
    CallEval(p.pr, f, args, st);
    var g := GenExpr(f, locals, pool);
    var h := GenArgs(args, locals, g.pool);
    HoldsSplit(p.code, s.ip, g.code + h.code, [OP_CALL, |args|]);
    HoldsSplit(p.code, s.ip, g.code, h.code);
    ArgsGrow(args, locals, g.pool);
    n, t := ExprSim(p, f, locals, pool, s, st);
    var r := Eval(p.pr, f, st);
    if r.Done? {
      var m, t2 := ArgsSim(p, args, locals, g.pool, t, r.st);
      var q := EvalArgs(p.pr, args, r.st);
      if q.DoneAll? {
        t := CallFinish(p, |args|, locals, s, st, |g.code|, r.v, r.st, n, t, |h.code|, q.vs, q.st, m, t2);
        n := n + m + 1;
      } else {
        StepsCompose(p, s, n, m);
        n, t := n + m, t2;
      }
    }
  }

  lemma {:induction false} ArgsSim(p: Program, args: seq<Expr>, locals: seq<Local>, pool: seq<Value>, s: Config,
      st: State)
    returns (n: nat, t: Config)
    requires GenArgs(args, locals, pool).Emit?
    requires Holds(p.code, s.ip, GenArgs(args, locals, pool).code) && GenArgs(args, locals, pool).pool <= p.pool
    requires Agree(locals, s, st)
    ensures ComputesAll(p, locals, s, |GenArgs(args, locals, pool).code|, EvalArgs(p.pr, args, st), n, t)
    decreases args, 0
  {
    hide Step, Steps, Agree, Holds, GenExpr, GenArgs, Eval, EvalArgs, Computes, ComputesAll;
    ArgsShape(args, locals, pool);
    ArgsEval(p.pr, args, st);
    if args == [] {
      n, t := 0, s;
      NoArguments(p, locals, s, st);
    } else {
      var init, last := args[..|args| - 1], args[|args| - 1];
      var g := GenArgs(init, locals, pool);
      var h := GenExpr(last, locals, g.pool);
      HoldsSplit(p.code, s.ip, g.code, h.code);
      ExprGrows(last, locals, g.pool);
      n, t := ArgsSim(p, init, locals, pool, s, st);
      var r := EvalArgs(p.pr, init, st);
      if r.FaultAll? {
        ArgsFault(p, locals, s, |g.code|, |g.code + h.code|, r.st, n, t);
      } else {
        ArgsState(p, locals, s, |g.code|, r.vs, r.st, n, t);
        var m, t2 := ExprSim(p, last, locals, g.pool, t, r.st);
        OneMore(p, locals, s, st, |g.code|, r.vs, r.st, n, t, |h.code|, Eval(p.pr, last, r.st), m, t2);
        n, t := n + m, t2;
      }
    }
  }

  lemma {:induction false} ArgsShape(args: seq<Expr>, locals: seq<Local>, pool: seq<Value>)
    requires GenArgs(args, locals, pool).Emit?
    ensures args == [] ==> GenArgs(args, locals, pool) == Emit([], pool)
    ensures args != [] ==>
      var g := GenArgs(args[..|args| - 1], locals, pool);
      && g.Emit?
      && var h := GenExpr(args[|args| - 1], locals, g.pool);
        h.Emit? && GenArgs(args, locals, pool) == Emit(g.code + h.code, h.pool)
  {
    hide GenExpr;
  }

  lemma {:induction false} ArgsEval(pr: Primitives, args: seq<Expr>, st: State)
    ensures args == [] ==> EvalArgs(pr, args, st) == DoneAll([], st)
    ensures args != [] ==>
      var r := EvalArgs(pr, args[..|args| - 1], st);
      EvalArgs(pr, args, st) ==
        if r.FaultAll? then r
        else
          var q := Eval(pr, args[|args| - 1], r.st);
          if q.Fault? then FaultAll(q.st) else DoneAll(r.vs + [q.v], q.st)
  {
    hide Eval;
  }

  lemma ArgsFault(p: Program, locals: seq<Local>, s: Config, k: nat, l: nat, st: State, n: nat, t: Config)
    requires ComputesAll(p, locals, s, k, FaultAll(st), n, t)
    ensures ComputesAll(p, locals, s, l, FaultAll(st), n, t)
  {
    hide Steps;
  }

  lemma ArgsState(p: Program, locals: seq<Local>, s: Config, k: nat, vs: seq<Value>, st: State, n: nat, t: Config)
    requires ComputesAll(p, locals, s, k, DoneAll(vs, st), n, t)
    ensures t.ip == s.ip + k && Agree(locals, t, st)
  {
    hide Steps, Agree;
  }

  lemma NoArguments(p: Program, locals: seq<Local>, s: Config, st: State)
    requires Agree(locals, s, st)
    ensures ComputesAll(p, locals, s, 0, DoneAll([], st), 0, s)
  {
    hide Step, Match;
    assert s.stack[|s.stack|..] == [];
  }

  /** Pushing one more argument keeps the arguments already on the stack. */
  lemma {:induction false} OneMore(p: Program, locals: seq<Local>, s: Config, st: State, k: nat, vs: seq<Value>,
      st1: State, n: nat, t: Config,
                l: nat, r: ExprResult, m: nat, t2: Config)
    requires Agree(locals, s, st)
    requires ComputesAll(p, locals, s, k, DoneAll(vs, st1), n, t)
    requires Computes(p, locals, t, l, r, m, t2)
    ensures ComputesAll(p, locals, s, k + l,
      if r.Done? then DoneAll(vs + [r.v], r.st) else FaultAll(r.st), n + m, t2)
  {
    hide Step, Steps, Match;
    StepsCompose(p, s, n, m);
    SlotsBelow(locals, s.stack, st.scopes);
    if r.Done? {
      assert t2.stack[|s.stack|..] == t.stack[|s.stack|..] + [Top(t2, 0)];
    }
  }
}
