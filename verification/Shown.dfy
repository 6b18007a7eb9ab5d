/** Every step of a script's run is a legal operation on the cells, so the machine with one stack and a list of open
    upvalues can go through the run in their place. */
module Shown {
  import opened Values
  import opened Bytecode
  import opened Functions
  import opened Instructions
  import opened StackTypes
  import opened SoundCode
  import opened Legality
  import CellMachine
  import Discipline
  import ExprTypes
  import Engine
  import Machine
  import Scripts

  type Config = Engine.Config
  type World = Engine.World

  /** The cells, functions and calls of a configuration. */
  function Picture(s: Config): Process {
    Process(s.cells, s.codes, s.ips)
  }

  /** Closures among the globals exist. */
  ghost predicate GlobalsOk(s: Config) {
    forall x :: x in s.globals ==> Legality.Known(s.globals[x], s.cells)
  }

  /** One step of the machine is `ops` on the cells. */
  ghost predicate Goes(s: Config, ops: seq<Op>, t: Config) {
    && Next(Picture(s), ops) && CellMachine.WellFormed(s.cells) && CellMachine.LegalRun(s.cells, ops)
    && Continues(Picture(s), ops, Picture(t)) && GlobalsOk(t)
  }

  /** What the types say about the next instruction. */
  ghost predicate Fetched(s: Config, ins: seq<byte>, n: nat) {
    && Engine.Active(s) && ins != [] && Engine.Ip(s) < |Engine.Code(s).code|
    && var f, ip := Engine.Code(s), Engine.Ip(s);
      && Whole(f.code, f.pool, ip) && ins == Current(Picture(s)) && ins[0] == f.code[ip]
      && |ins| == InstrLen(f.code, f.pool, ip) && InstrOk(f.code, f.pool, f.upvalues, ip, {})
      && n == Taken(ins) && Engine.Base(s) + 1 + n <= Engine.Height(s)
  }

  lemma {:induction false} SaneFetched(s: Config)
    requires Sane(Picture(s))
    ensures Engine.Active(s) && Whole(Engine.Code(s).code, Engine.Code(s).pool, Engine.Ip(s))
    ensures Fetched(s, Current(Picture(s)), Taken(Current(Picture(s))))
    ensures Free(s.cells, Taken(Current(Picture(s)))) && CellMachine.WellFormed(s.cells)
    ensures Current(Picture(s))[0] in [OP_CLOSE_UPVALUE, OP_RETURN] ==> Engine.Base(s) + 1 < Engine.Height(s)
  {
    hide FunctionOk, ExprTypes.Disciplined, Inside, InstrLen, WaitingOk, Taken, CellMachine.WellFormed,
      CellMachine.Captured, InstrOk, Bounded, SlotsInRange;
    var p := Picture(s);
    RunningOk(p);
    TypedAt(Code(p), At(p));
    FreeTop(s.cells, TypesOf(Code(p))[At(p)], Taken(Current(p)));
  }

  // ----- instructions that only push and pop -----

  /** An instruction without an operation of its own. */
  ghost predicate Ordinary(ins: seq<byte>) {
    ins != [] && !IsOne(ins[0]) && ins[0] != OP_CLOSURE
  }

  function PopsThenPushes(n: nat, v: Option<Datum>): seq<Op> {
    if v.None? then PopOps(n) else PopOps(n) + [CellMachine.Push(v.value)]
  }

  lemma PushRuns(c: Cells, v: Datum)
    requires CellMachine.WellFormed(c) && Legality.Known(v, c)
    ensures CellMachine.LegalRun(c, [CellMachine.Push(v)])
    ensures CellMachine.Run(c, [CellMachine.Push(v)]) == (CellMachine.Grow(c, v), true)
  {
    hide CellMachine.WellFormed, CellMachine.LegalRun, CellMachine.Run;
    OneOp(c, CellMachine.Push(v));
  }

  lemma {:induction false} PlainGoes(s: Config, ins: seq<byte>, n: nat, v: Option<Datum>, j: nat, t: Config)
    returns (ops: seq<Op>)
    requires Fetched(s, ins, n) && Free(s.cells, n) && CellMachine.WellFormed(s.cells) && Ordinary(ins)
    requires Given(ins[0]) == (if v.Some? then 1 else 0) && (v.Some? ==> Legality.Known(v.value, s.cells))
    requires t.cells == if v.None? then Dropped(s.cells, n) else CellMachine.Grow(Dropped(s.cells, n), v.value)
    requires t.codes == s.codes && t.ips == s.ips[..|s.ips| - 1] + [j] && GlobalsOk(t)
    requires Follows(Engine.Code(s), Engine.Ip(s), j)
    ensures Goes(s, ops, t) && ops == PopsThenPushes(n, v)
  {
    hide CellMachine.WellFormed, CellMachine.LegalRun, CellMachine.Run, CellMachine.Step, CellMachine.Captured, InstrOk,
      Taken, Given, Follows;
    var c := s.cells;
    PopsRun(c, n);
    ops := PopOps(n);
    if v.Some? {
      var d := Dropped(c, n);
      PushRuns(d, v.value);
      RunAppend(c, PopOps(n), [CellMachine.Push(v.value)]);
      ops := PopOps(n) + [CellMachine.Push(v.value)];
    }
    assert Legality.Plain(n, Given(ins[0]), c, ops);
    assert ops != [] ==> !ops[0].Call?;
  }

  lemma SameGlobals(s: Config, t: Config)
    requires GlobalsOk(s) && t.globals == s.globals && |s.cells.closures| <= |t.cells.closures|
    ensures GlobalsOk(t)
  {
  }

  lemma {:induction false} BinaryGoes(w: World, s: Config, ins: seq<byte>, n: nat, t: Config) returns (ops: seq<Op>)
    requires Fetched(s, ins, n) && Free(s.cells, n) && CellMachine.WellFormed(s.cells) && GlobalsOk(s)
    requires Machine.IsBinary(ins[0]) && Engine.StepBinary(w, ins[0], s) == Engine.Running(t)
    ensures Goes(s, ops, t)
    ensures ops == PopsThenPushes(2, Engine.Operation(w.pr, ins[0], Engine.Peek(s, 1), Engine.Peek(s, 0)))
  {
    hide CellMachine.WellFormed, InstrOk, Follows, CellMachine.Captured, Machine.BinaryOutcome, Goes;
    BinaryForm(ins);
    var v := Engine.Operation(w.pr, ins[0], Engine.Peek(s, 1), Engine.Peek(s, 0));
    BinaryFollows(Engine.Code(s), Engine.Ip(s));
    SameGlobals(s, t);
    ops := PlainGoes(s, ins, n, v, Engine.Ip(s) + 1, t);
  }

  lemma BinaryForm(ins: seq<byte>)
    requires ins != [] && Machine.IsBinary(ins[0])
    ensures Ordinary(ins) && Taken(ins) == 2 && Given(ins[0]) == 1
  {
  }

  lemma BinaryFollows(f: Function, ip: nat)
    requires Whole(f.code, f.pool, ip) && Machine.IsBinary(f.code[ip])
    ensures Follows(f, ip, ip + 1)
  {
  }

  lemma SimpleForm(ins: seq<byte>)
    requires ins != [] && Machine.IsSimple(ins[0]) && ins[0] != OP_RETURN
    ensures Ordinary(ins)
    ensures Taken(ins) == if ins[0] in [OP_NIL, OP_TRUE, OP_FALSE] then 0 else 1
    ensures Given(ins[0]) == if ins[0] in [OP_POP, OP_PRINT] then 0 else 1
  {
  }

  lemma SimpleFollows(f: Function, ip: nat)
    requires Whole(f.code, f.pool, ip) && Machine.IsSimple(f.code[ip]) && f.code[ip] != OP_RETURN
    ensures Follows(f, ip, ip + 1)
  {
  }

  lemma {:induction false} SimpleGoes(w: World, s: Config, ins: seq<byte>, n: nat, t: Config) returns (ops: seq<Op>)
    requires Fetched(s, ins, n) && Free(s.cells, n) && CellMachine.WellFormed(s.cells) && GlobalsOk(s)
    requires Machine.IsSimple(ins[0]) && ins[0] != OP_RETURN && Engine.StepSimple(w, ins[0], s) == Engine.Running(t)
    ensures Goes(s, ops, t) && (ins[0] == OP_POP || ins[0] == OP_PRINT || Engine.Height(t) > 0)
    ensures ops == if ins[0] == OP_POP || ins[0] == OP_PRINT then PopOps(1)
      else PopsThenPushes(if ins[0] in [OP_NOT, OP_NEGATE] then 1 else 0, Some(Engine.Peek(t, 0)))
  {
    hide CellMachine.WellFormed, InstrOk, Follows, CellMachine.Captured, Goes, Given, Taken, Ordinary, Free, InstrLen;
    SimpleForm(ins);
    SimpleFollows(Engine.Code(s), Engine.Ip(s));
    SameGlobals(s, t);
    var op := ins[0];
    assert s.cells.locals[..|s.cells.locals|] == s.cells.locals;
    if op == OP_POP || op == OP_PRINT {
      ops := PlainGoes(s, ins, n, None, Engine.Ip(s) + 1, t);
    } else {
      var v := if op == OP_NIL then Basic(Value.Nil) else if op == OP_TRUE then Basic(Bool(true))
        else if op == OP_FALSE then Basic(Bool(false))
        else if op == OP_NOT then Basic(Bool(Engine.Falsey(Engine.Peek(s, 0))))
        else Basic(Number(w.pr.negate(Engine.Peek(s, 0).v.n)));
      ops := PlainGoes(s, ins, n, Some(v), Engine.Ip(s) + 1, t);
    }
  }

  lemma JumpForm(f: Function, ip: nat, ins: seq<byte>)
    requires Whole(f.code, f.pool, ip) && ins != [] && ins[0] == f.code[ip] && Machine.IsJump(ins[0])
    ensures Ordinary(ins) && Taken(ins) == 0 && Given(ins[0]) == 0 && ip + 3 <= |f.code|
    ensures Follows(f, ip, Target(f.code, ip))
    ensures ins[0] in [OP_JUMP_IF_FALSE, OP_JUMP_IF_TRUE] ==> Follows(f, ip, ip + 3)
  {
  }

  lemma {:induction false} JumpGoes(s: Config, ins: seq<byte>, n: nat, t: Config) returns (ops: seq<Op>)
    requires Fetched(s, ins, n) && Free(s.cells, n) && CellMachine.WellFormed(s.cells) && GlobalsOk(s)
    requires Machine.IsJump(ins[0]) && Engine.Ip(s) + 3 <= |Engine.Code(s).code|
    requires Engine.StepJump(ins[0], ReadU16(Engine.Code(s).code, Engine.Ip(s) + 1), s) == Engine.Running(t)
    ensures Goes(s, ops, t) && ops == []
  {
    hide CellMachine.WellFormed, InstrOk, Follows, CellMachine.Captured, Goes, Given, Taken, Ordinary, Free, InstrLen,
      ReadU16;
    JumpForm(Engine.Code(s), Engine.Ip(s), ins);
    SameGlobals(s, t);
    assert s.cells.locals[..|s.cells.locals|] == s.cells.locals;
    ops := PlainGoes(s, ins, n, None, Engine.Ip(t), t);
  }

  // ----- constants and globals -----

  lemma NamedForm(f: Function, ip: nat, ins: seq<byte>)
    requires Whole(f.code, f.pool, ip) && ins != [] && ins[0] == f.code[ip]
    requires ins[0] in [OP_CONSTANT, OP_GET_GLOBAL, OP_SET_GLOBAL, OP_DEFINE_GLOBAL]
    ensures Ordinary(ins) && Follows(f, ip, ip + 2)
    ensures Taken(ins) == if ins[0] == OP_DEFINE_GLOBAL then 1 else 0
    ensures Given(ins[0]) == if ins[0] in [OP_CONSTANT, OP_GET_GLOBAL] then 1 else 0
  {
  }

  /** What is on the stack exists. */
  lemma TopKnown(s: Config, n: nat)
    requires CellMachine.WellFormed(s.cells) && n < Engine.Height(s)
    ensures Legality.Known(Engine.Peek(s, n), s.cells)
    ensures Engine.Peek(s, n) == CellMachine.TopValue(s.cells, n)
  {
  }

  lemma {:induction false} NamedGoes(w: World, s: Config, ins: seq<byte>, n: nat, a: byte, t: Config)
      returns (ops: seq<Op>)
    requires Fetched(s, ins, n) && Free(s.cells, n) && CellMachine.WellFormed(s.cells) && GlobalsOk(s)
    requires ins[0] in [OP_CONSTANT, OP_GET_GLOBAL, OP_SET_GLOBAL, OP_DEFINE_GLOBAL]
    requires Engine.StepByte(w, ins[0], a, s) == Engine.Running(t)
    ensures Goes(s, ops, t)
    ensures if ins[0] in [OP_CONSTANT, OP_GET_GLOBAL]
      then Engine.Height(t) > 0 && ops == [CellMachine.Push(Engine.Peek(t, 0))]
      else ops == PopOps(if ins[0] == OP_DEFINE_GLOBAL then 1 else 0)
  {
    hide CellMachine.WellFormed, InstrOk, Follows, CellMachine.Captured, Goes, Given, Taken, Ordinary, Free, InstrLen,
      Engine.StepCall, Engine.StepClosure;
    NamedForm(Engine.Code(s), Engine.Ip(s), ins);
    var op, k := ins[0], Engine.Code(s).pool[a];
    assert s.cells.locals[..|s.cells.locals|] == s.cells.locals;
    if op == OP_CONSTANT {
      SameGlobals(s, t);
      ops := PlainGoes(s, ins, n, Some(Basic(k.v)), Engine.Ip(s) + 2, t);
    } else if op == OP_GET_GLOBAL {
      SameGlobals(s, t);
      ops := PlainGoes(s, ins, n, Some(s.globals[k.v.s]), Engine.Ip(s) + 2, t);
    } else {
      TopKnown(s, 0);
      assert t.globals == s.globals[k.v.s := Engine.Peek(s, 0)];
      assert GlobalsOk(t);
      ops := PlainGoes(s, ins, n, None, Engine.Ip(s) + 2, t);
    }
  }

  // ----- instructions with an operation of their own -----

  /** One operation that does not fail. */
  lemma {:induction false} OneGoes(s: Config, ins: seq<byte>, n: nat, op: Op, j: nat, t: Config)
    requires Fetched(s, ins, n) && CellMachine.WellFormed(s.cells) && CellMachine.Legal(s.cells, op)
    requires Does(ins, Engine.Code(s).pool, s.cells, [op]) && (ins[0] == OP_RETURN ==> |s.cells.frames| > 1)
    requires !CellMachine.Fails(s.cells, op) && t.cells == CellMachine.Step(s.cells, op) && GlobalsOk(t)
    requires ins[0] == OP_CLOSURE ==>
      |ins| >= 2 && ins[1] < |Engine.Code(s).pool| && Engine.Code(s).pool[ins[1]].Compiled?
    requires t.codes == if ins[0] == OP_CLOSURE then s.codes + [Engine.Code(s).pool[ins[1]].f] else s.codes
    requires if ins[0] == OP_RETURN then t.ips == s.ips[..|s.ips| - 1]
      else if op.Call? then ins[0] == OP_CALL && |ins| == 2 && op.argc == ins[1]
        && t.ips == s.ips[..|s.ips| - 1] + [Engine.Ip(s) + 2, 0]
      else
        && Follows(Engine.Code(s), Engine.Ip(s), j)
        && t.ips == s.ips[..|s.ips| - 1] + [j]
    ensures Goes(s, [op], t)
  {
    hide CellMachine.WellFormed, CellMachine.LegalRun, CellMachine.Run, CellMachine.Step, CellMachine.Fails,
      CellMachine.Legal, InstrOk, Taken, Follows, Does;
    OneOp(s.cells, op);
  }

  lemma SlotForm(f: Function, ip: nat, ins: seq<byte>)
    requires Whole(f.code, f.pool, ip) && ins == Bytes(f.code, f.pool, ip)
    requires ins[0] in [OP_GET_LOCAL, OP_SET_LOCAL, OP_GET_UPVALUE, OP_SET_UPVALUE]
    ensures |ins| == 2 && ip + 2 <= |f.code| && ins[1] == f.code[ip + 1] && Follows(f, ip, ip + 2)
  {
  }

  lemma {:induction false} SlotGoes(s: Config, ins: seq<byte>, n: nat, t: Config) returns (ops: seq<Op>)
    requires Fetched(s, ins, n) && CellMachine.WellFormed(s.cells) && GlobalsOk(s) && |ins| == 2
    requires ins[0] in [OP_GET_LOCAL, OP_SET_LOCAL] && Engine.StepLocal(ins[0], ins[1], s) == Engine.Running(t)
    ensures Goes(s, ops, t)
    ensures ops == [if ins[0] == OP_GET_LOCAL then CellMachine.GetLocal(ins[1]) else CellMachine.SetLocal(ins[1])]
  {
    hide Follows, InstrOk, Goes, Taken, Whole, InstrLen, Bytes;
    SlotForm(Engine.Code(s), Engine.Ip(s), ins);
    SameGlobals(s, t);
    var op := if ins[0] == OP_GET_LOCAL then CellMachine.GetLocal(ins[1]) else CellMachine.SetLocal(ins[1]);
    ops := [op];
    OneGoes(s, ins, n, op, Engine.Ip(s) + 2, t);
  }

  lemma {:induction false} UpvalueGoes(s: Config, ins: seq<byte>, n: nat, t: Config) returns (ops: seq<Op>)
    requires Fetched(s, ins, n) && CellMachine.WellFormed(s.cells) && GlobalsOk(s) && |ins| == 2
    requires ins[0] in [OP_GET_UPVALUE, OP_SET_UPVALUE] && Engine.StepUpvalue(ins[0], ins[1], s) == Engine.Running(t)
    ensures Goes(s, ops, t)
    ensures ops == [if ins[0] == OP_GET_UPVALUE then CellMachine.GetUpvalue(ins[1]) else CellMachine.SetUpvalue(ins[1])]
  {
    hide Follows, InstrOk, Goes, Taken, Whole, InstrLen, Bytes;
    SlotForm(Engine.Code(s), Engine.Ip(s), ins);
    SameGlobals(s, t);
    var op := if ins[0] == OP_GET_UPVALUE then CellMachine.GetUpvalue(ins[1]) else CellMachine.SetUpvalue(ins[1]);
    ops := [op];
    OneGoes(s, ins, n, op, Engine.Ip(s) + 2, t);
  }

  lemma CloseForm(f: Function, ip: nat, ins: seq<byte>)
    requires Whole(f.code, f.pool, ip) && ins == Bytes(f.code, f.pool, ip) && ins[0] == OP_CLOSE_UPVALUE
    ensures Follows(f, ip, ip + 1)
  {
  }

  lemma {:induction false} CloseGoes(w: World, s: Config, ins: seq<byte>, n: nat, t: Config) returns (ops: seq<Op>)
    requires Fetched(s, ins, n) && CellMachine.WellFormed(s.cells) && GlobalsOk(s) && Free(s.cells, n)
    requires ins[0] == OP_CLOSE_UPVALUE && Engine.StepSimple(w, OP_CLOSE_UPVALUE, s) == Engine.Running(t)
    requires Engine.Base(s) + 1 < Engine.Height(s)
    ensures Goes(s, ops, t) && ops == [CellMachine.CloseUpvalue]
  {
    hide Follows, InstrOk, Goes, Taken, Whole, InstrLen, Bytes;
    CloseForm(Engine.Code(s), Engine.Ip(s), ins);
    SameGlobals(s, t);
    ops := [CellMachine.CloseUpvalue];
    OneGoes(s, ins, n, CellMachine.CloseUpvalue, Engine.Ip(s) + 1, t);
  }

  lemma {:induction false} ReturnGoes(w: World, s: Config, ins: seq<byte>, n: nat, t: Config) returns (ops: seq<Op>)
    requires Fetched(s, ins, n) && CellMachine.WellFormed(s.cells) && GlobalsOk(s)
    requires ins[0] == OP_RETURN && Engine.StepSimple(w, OP_RETURN, s) == Engine.Running(t)
    requires Engine.Base(s) + 1 < Engine.Height(s)
    ensures Goes(s, ops, t) && ops == [CellMachine.Return]
  {
    hide Follows, InstrOk, Goes, Taken, Whole, InstrLen, Bytes;
    SameGlobals(s, t);
    ops := [CellMachine.Return];
    OneGoes(s, ins, n, CellMachine.Return, 0, t);
  }

  // ----- calls -----

  lemma CallForm(f: Function, ip: nat, ins: seq<byte>)
    requires Whole(f.code, f.pool, ip) && ins == Bytes(f.code, f.pool, ip) && ins[0] == OP_CALL
    ensures |ins| == 2 && ip + 2 <= |f.code| && ins[1] == f.code[ip + 1] && Follows(f, ip, ip + 2)
    ensures Taken(ins) == ins[1] as int + 1 && Given(OP_CALL) == 1 && Ordinary(ins)
  {
  }

  lemma {:induction false} CallGoes(w: World, s: Config, ins: seq<byte>, n: nat, a: byte, t: Config)
      returns (ops: seq<Op>)
    requires Fetched(s, ins, n) && CellMachine.WellFormed(s.cells) && GlobalsOk(s) && Free(s.cells, n)
    requires forall id :: 0 <= id < |s.codes| && id < |s.cells.closures| ==>
      s.codes[id].arity == s.cells.closures[id].arity
    requires ins[0] == OP_CALL && |ins| == 2 && a == ins[1] && Engine.StepCall(w, a, s) == Engine.Running(t)
    ensures Goes(s, ops, t) && a < Engine.Height(s)
    ensures ops == match Engine.Peek(s, a)
      case Basic(Native(id)) => PopsThenPushes(a as nat + 1, Some(Basic(w.builtin(id, Engine.Tops(s, a)))))
      case _ => [CellMachine.Call(a)]
  {
    hide Follows, InstrOk, Goes, Taken, Given, Whole, InstrLen, Bytes, CellMachine.Captured, Ordinary,
      CellMachine.WellFormed;
    CallForm(Engine.Code(s), Engine.Ip(s), ins);
    SameGlobals(s, t);
    TopKnown(s, a);
    var f := Engine.Peek(s, a);
    if f.Closure? {
      ops := [CellMachine.Call(a)];
      OneGoes(s, ins, n, CellMachine.Call(a), 0, t);
    } else {
      var v := Basic(w.builtin(f.v.id, Engine.Tops(s, a)));
      ops := PlainGoes(s, ins, n, Some(v), Engine.Ip(s) + 2, t);
    }
  }

  // ----- closures -----

  lemma ClosureForm(f: Function, ip: nat, ins: seq<byte>)
    requires Whole(f.code, f.pool, ip) && ins == Bytes(f.code, f.pool, ip) && ins[0] == OP_CLOSURE
    ensures ip + 1 < |f.code| && f.code[ip + 1] < |f.pool| && f.pool[f.code[ip + 1]].Compiled?
    ensures var n := f.pool[f.code[ip + 1]].f.upvalues;
      && |ins| == 2 + 2 * n && ins == f.code[ip..ip + 2 + 2 * n] && Follows(f, ip, ip + 2 + 2 * n)
      && ip + 2 + 2 * n <= |f.code| && ins[1] == f.code[ip + 1]
  {
  }

  /** The machine captures the cells the operation on cells captures. */
  lemma {:induction false} SameCaptures(s: Config, ins: seq<byte>, k: nat, cells: seq<nat>)
    requires Engine.Active(s) && CellMachine.WellFormed(s.cells) && Engine.Base(s) <= Engine.Height(s)
    requires |ins| >= 2 && |ins| % 2 == 0 && 2 + 2 * k <= |ins|
    requires var code, ip := Engine.Code(s).code, Engine.Ip(s); ip + |ins| <= |code| && ins == code[ip..ip + |ins|]
    requires Engine.CaptureAll(s, Engine.Code(s).code, Engine.Ip(s) + 2, k) == Some(cells)
    requires forall i :: 0 <= i < k ==> CellMachine.CaptureInRange(s.cells, CapturesOf(ins)[i])
    ensures |cells| == k && forall i :: 0 <= i < k ==> cells[i] == CellMachine.CapturedCell(s.cells, CapturesOf(ins)[i])
    decreases k
  {
    hide CellMachine.WellFormed;
    if k > 0 {
      var code, at := Engine.Code(s).code, Engine.Ip(s) + 2;
      assert code[at + 2 * k - 2] == ins[2 * k] && code[at + 2 * k - 1] == ins[2 * k + 1];
      SameCaptures(s, ins, k - 1, Engine.CaptureAll(s, code, at, k - 1).value);
    }
  }

  lemma {:induction false} ClosureGoes(s: Config, ins: seq<byte>, n: nat, a: byte, t: Config) returns (ops: seq<Op>)
    requires Fetched(s, ins, n) && CellMachine.WellFormed(s.cells) && GlobalsOk(s)
    requires ins[0] == OP_CLOSURE && |ins| >= 2 && |ins| % 2 == 0 && a == ins[1]
    requires a < |Engine.Code(s).pool| && Engine.Code(s).pool[a].Compiled?
    requires Engine.StepClosure(Engine.Code(s).pool[a].f, s) == Engine.Running(t)
    requires CellMachine.Legal(s.cells, CellMachine.MakeClosure(Engine.Code(s).pool[a].f.arity, CapturesOf(ins)))
    ensures Goes(s, ops, t) && ops == [CellMachine.MakeClosure(Engine.Code(s).pool[a].f.arity, CapturesOf(ins))]
  {
    hide Follows, InstrOk, Goes, Taken, InstrLen, Bytes, CellMachine.Captured, CellMachine.CapturedCell;
    ClosureForm(Engine.Code(s), Engine.Ip(s), ins);
    var f := Engine.Code(s).pool[a].f;
    var cells := Engine.CaptureAll(s, Engine.Code(s).code, Engine.Ip(s) + 2, f.upvalues).value;
    SameCaptures(s, ins, f.upvalues, cells);
    assert cells == CellMachine.CapturedCells(s.cells, CapturesOf(ins));
    SameGlobals(s, t);
    var op := CellMachine.MakeClosure(f.arity, CapturesOf(ins));
    ops := [op];
    OneGoes(s, ins, n, op, Engine.Ip(s) + 2 + 2 * f.upvalues, t);
  }

  lemma {:induction false} SaneClosure(s: Config)
    requires Sane(Picture(s)) && Engine.Active(s) && Whole(Engine.Code(s).code, Engine.Code(s).pool, Engine.Ip(s))
    requires CellMachine.WellFormed(s.cells) && Current(Picture(s))[0] == OP_CLOSURE
    ensures var ins, pool := Current(Picture(s)), Engine.Code(s).pool;
      && |ins| >= 2 && |ins| % 2 == 0 && ins[1] < |pool| && pool[ins[1]].Compiled?
      && CellMachine.Legal(s.cells, CellMachine.MakeClosure(pool[ins[1]].f.arity, CapturesOf(ins)))
  {
    hide FunctionOk, ExprTypes.Disciplined, Inside, WaitingOk, Taken, CellMachine.WellFormed, CellMachine.Captured,
      InstrOk, Bounded, SlotsInRange, CellMachine.Legal, InstrLen, Bytes;
    var p := Picture(s);
    RunningOk(p);
    TypedAt(Code(p), At(p));
    var ins, pool := Current(p), Code(p).pool;
    ClosureForm(Code(p), At(p), ins);
    ClosureLegal(s.cells, ins, Code(p), At(p), TypesOf(Code(p))[At(p)],
      [CellMachine.MakeClosure(pool[ins[1]].f.arity, CapturesOf(ins))]);
  }

  lemma SaneArity(s: Config)
    requires Sane(Picture(s))
    ensures |s.codes| == |s.cells.closures|
    ensures forall id :: 0 <= id < |s.codes| && id < |s.cells.closures| ==>
      s.codes[id].arity == s.cells.closures[id].arity
  {
    hide FunctionOk, ExprTypes.Disciplined, FrameOk, WaitingOk;
  }

  // ----- steps and runs -----

  lemma OperandIs(f: Function, ip: nat, ins: seq<byte>)
    requires Whole(f.code, f.pool, ip) && ins == Bytes(f.code, f.pool, ip) && Engine.HasOperand(ins[0])
    requires ins[0] != OP_CLOSURE
    ensures |ins| == 2 && ip + 2 <= |f.code| && ins[1] == f.code[ip + 1]
  {
  }

  /** Every step of the machine is a legal operation on the cells. */
  lemma {:induction false} StepGoes(w: World, s: Config, t: Config) returns (ops: seq<Op>)
    requires Sane(Picture(s)) && GlobalsOk(s) && Engine.Step(w, s) == Engine.Running(t)
    ensures Goes(s, ops, t) && Sane(Picture(t))
  {
    hide Sane, CellMachine.WellFormed, InstrOk, Taken, Given, InstrLen, Bytes, Free, CellMachine.Captured, Goes, Whole,
      Engine.StepBinary, Engine.StepCall, Engine.StepLocal, Engine.StepUpvalue, Engine.StepGlobal, Engine.StepClosure,
      Engine.StepJump, Engine.StepSimple;
    SaneFetched(s);
    var ins := Current(Picture(s));
    var op, n, f, ip := ins[0], Taken(ins), Engine.Code(s), Engine.Ip(s);
    if Machine.IsBinary(op) {
      ops := BinaryGoes(w, s, ins, n, t);
    } else if op == OP_CLOSE_UPVALUE {
      ops := CloseGoes(w, s, ins, n, t);
    } else if op == OP_RETURN {
      ops := ReturnGoes(w, s, ins, n, t);
    } else if Machine.IsSimple(op) {
      ops := SimpleGoes(w, s, ins, n, t);
    } else if op == OP_CLOSURE {
      SaneClosure(s);
      ClosureForm(f, ip, ins);
      ops := ClosureGoes(s, ins, n, ins[1], t);
    } else if Engine.HasOperand(op) {
      OperandIs(f, ip, ins);
      if op == OP_CALL {
        SaneArity(s);
        ops := CallGoes(w, s, ins, n, ins[1], t);
      } else if op in [OP_GET_LOCAL, OP_SET_LOCAL] {
        ops := SlotGoes(s, ins, n, t);
      } else if op in [OP_GET_UPVALUE, OP_SET_UPVALUE] {
        ops := UpvalueGoes(s, ins, n, t);
      } else {
        ops := NamedGoes(w, s, ins, n, ins[1], t);
      }
    } else {
      ops := JumpGoes(s, ins, n, t);
    }
    GoesSane(s, ops, t);
  }

  lemma GoesSane(s: Config, ops: seq<Op>, t: Config)
    requires Sane(Picture(s)) && Goes(s, ops, t)
    ensures Sane(Picture(t))
  {
    hide Sane, Next, Continues, CellMachine.WellFormed, CellMachine.LegalRun;
    NextStays(Picture(s), ops, Picture(t));
  }

  /** The run that has taken `n` steps is the legal run `ops` of the cell machine. */
  ghost predicate Traced(w: World, ds: seq<Item>, globals: map<string, Datum>, n: nat, ops: seq<Op>)
    requires MakeScript(ds).Accepted? && Scripts.RunOf(w, ds, globals, n).Running?
  {
    var c := Begin(MakeScript(ds).f).cells;
    && CellMachine.WellFormed(c) && CellMachine.LegalRun(c, ops)
    && CellMachine.Run(c, ops) == (Scripts.RunOf(w, ds, globals, n).s.cells, true)
  }

  lemma {:induction false} RunTraced(w: World, ds: seq<Item>, globals: map<string, Datum>, n: nat)
    returns (ops: seq<Op>)
    requires Scripts.Ordinary(ds) && Scripts.Plainly(globals) && Discipline.AllClose(ds, TOP, [], SCRIPT)
    requires Scripts.RunOf(w, ds, globals, n).Running?
    ensures var s := Scripts.RunOf(w, ds, globals, n).s; Sane(Picture(s)) && GlobalsOk(s)
    ensures Traced(w, ds, globals, n, ops)
    decreases n
  {
    hide MakeScript, Functions.Tame, Compact, Discipline.AllClose, FunctionOk, ExprTypes.Disciplined, Sane, Goes,
      CellMachine.WellFormed, CellMachine.LegalRun, CellMachine.Run, Engine.Step, Engine.Steps, GlobalsOk;
    var f := MakeScript(ds).f;
    var start := Engine.Start(f, globals);
    if n == 0 {
      ScriptSound(ds);
      Discipline.ScriptTyped(ds);
      ScriptAlone(ds);
      BeginsSane(f);
      SaneFormed(Begin(f));
      NothingRuns(Begin(f).cells);
      StartsPlain(w, f, globals);
      ops := [];
    } else {
      LastStep(w, start, n);
      var before := RunTraced(w, ds, globals, n - 1);
      var s, t := Scripts.RunOf(w, ds, globals, n - 1).s, Scripts.RunOf(w, ds, globals, n).s;
      var last := StepGoes(w, s, t);
      GoesRuns(s, last, t);
      RunAppend(Begin(f).cells, before, last);
      ops := before + last;
    }
  }

  lemma StartsPlain(w: World, f: Function, globals: map<string, Datum>)
    requires Scripts.Plainly(globals)
    ensures GlobalsOk(Engine.Start(f, globals)) && Picture(Engine.Start(f, globals)) == Begin(f)
    ensures Engine.Steps(w, Engine.Start(f, globals), 0) == Engine.Running(Engine.Start(f, globals))
  {
  }

  /** A run of `n` steps is one of `n - 1` steps and a last one. */
  lemma LastStep(w: World, s: Config, n: nat)
    requires n > 0 && Engine.Steps(w, s, n).Running?
    ensures Engine.Steps(w, s, n - 1).Running?
    ensures Engine.Step(w, Engine.Steps(w, s, n - 1).s) == Engine.Steps(w, s, n)
  {
    hide Engine.Step, Engine.Steps;
    if Engine.Steps(w, s, n - 1).Running? {
      Engine.StepsCompose(w, s, n - 1, 1);
      Engine.OneStep(w, Engine.Steps(w, s, n - 1).s);
    } else {
      Engine.StepsEnded(w, s, n - 1, n);
    }
  }

  lemma GoesRuns(s: Config, ops: seq<Op>, t: Config)
    requires Goes(s, ops, t)
    ensures CellMachine.WellFormed(s.cells) && CellMachine.LegalRun(s.cells, ops) && GlobalsOk(t)
    ensures CellMachine.Run(s.cells, ops) == (t.cells, true)
  {
    hide Next, Continues, CellMachine.WellFormed, CellMachine.LegalRun, CellMachine.Run;
    ContinuesRun(Picture(s), ops, Picture(t));
  }

  /** Every run of a script in which no `continue` leaves a captured local is a legal run of the cell machine. */
  lemma ScriptTraced(w: World, ds: seq<Item>, globals: map<string, Datum>, n: nat)
    requires Scripts.Ordinary(ds) && Scripts.Plainly(globals) && Discipline.AllClose(ds, TOP, [], SCRIPT)
    requires Scripts.RunOf(w, ds, globals, n).Running?
    ensures exists ops :: Traced(w, ds, globals, n, ops)
  {
    hide Scripts.Ordinary, Traced, Discipline.AllClose;
    var ops := RunTraced(w, ds, globals, n);
  }
}
