/** Compiled scripts run legally on the cell machine: frames have the slots their instructions ask for, captured
    variables are closed and never popped, and closures capture only what is there.  So over every run of a script
    the machine with upvalues shows the cells. */
module Legality {
  import opened Bytecode
  import opened Machine
  import opened Instructions
  import opened Functions
  import opened StackTypes
  import opened ExprTypes
  import opened SoundCode
  import CellMachine
  import Values
  import Discipline
  import Upvalues

  type Cells = CellMachine.Cells
  type Op = CellMachine.Op

  /** The cells, the function of each closure, and the next instruction of each frame. */
  datatype Process = Process(cells: Cells, codes: seq<Function>, ips: seq<nat>)

  // ----- what an instruction does to the cells -----

  function PopOps(n: nat): (r: seq<Op>)
    ensures |r| == n
  {
    seq(n, _ => CellMachine.Pop)
  }

  /** Takes off what it takes off, and puts a value there that exists. */
  ghost predicate Plain(n: nat, given: nat, c: Cells, ops: seq<Op>) {
    if given == 0 then ops == PopOps(n)
    else exists v: Values.Datum :: Known(v, c) && ops == PopOps(n) + [CellMachine.Push(v)]
  }

  ghost predicate Known(v: Values.Datum, c: Cells) {
    v.Closure? ==> v.id < |c.closures|
  }

  /** What the machine captures for a closure instruction. */
  function CapturesOf(ins: seq<byte>): (xs: seq<CellMachine.Capture>)
    requires |ins| >= 2 && |ins| % 2 == 0
    ensures |xs| == |ins| / 2 - 1
    ensures forall k :: 0 <= k < |xs| ==> xs[k] == CellMachine.Capture(ins[2 * k + 2] != 0, ins[2 * k + 3])
  {
    seq(|ins| / 2 - 1, k requires 0 <= k < |ins| / 2 - 1 => CellMachine.Capture(ins[2 * k + 2] != 0, ins[2 * k + 3]))
  }

  /** The instruction's operations on the cells.  A call is one of a closure or of a built-in function; which values are
      pushed is left open. */
  ghost predicate Does(ins: seq<byte>, pool: seq<Constant>, c: Cells, ops: seq<Op>)
    requires ins != []
  {
    var op := ins[0];
    if op == OP_GET_LOCAL then |ins| == 2 && ops == [CellMachine.GetLocal(ins[1])]
    else if op == OP_SET_LOCAL then |ins| == 2 && ops == [CellMachine.SetLocal(ins[1])]
    else if op == OP_GET_UPVALUE then |ins| == 2 && ops == [CellMachine.GetUpvalue(ins[1])]
    else if op == OP_SET_UPVALUE then |ins| == 2 && ops == [CellMachine.SetUpvalue(ins[1])]
    else if op == OP_CLOSE_UPVALUE then ops == [CellMachine.CloseUpvalue]
    else if op == OP_RETURN then ops == [CellMachine.Return]
    else if op == OP_CLOSURE then
      |ins| >= 2 && |ins| % 2 == 0 && ins[1] < |pool| && pool[ins[1]].Compiled?
      && ops == [CellMachine.MakeClosure(pool[ins[1]].f.arity, CapturesOf(ins))]
    else (op == OP_CALL && |ins| == 2 && ops == [CellMachine.Call(ins[1])]) || Plain(Taken(ins), Given(op), c, ops)
  }

  // ----- processes in step with the stack types -----

  /** The stack types of a function. */
  ghost function TypesOf(f: Function): (st: seq<Slots>)
    requires Disciplined(f)
    ensures TypedFunction(f, st)
  {
    var st :| TypedFunction(f, st);
    st
  }

  ghost predicate CodeOk(f: Function, g: CellMachine.Function) {
    FunctionOk(f) && Disciplined(f) && f.arity == g.arity && f.upvalues == |g.cells|
  }

  /** The slots from `base` up to `top` are as many as the type says, or will be when a call returns, and the captured
      ones are known. */
  ghost predicate Shows(c: Cells, s: Slots, base: nat, top: nat, height: int) {
    && s.height == height
    && forall slot :: base <= slot < top && slot < |c.locals| && c.locals[slot] in CellMachine.Captured(c.closures) ==>
         slot - base in s.held
  }

  ghost predicate FrameOk(c: Cells, f: Function, ip: nat, base: nat, top: nat, height: int) {
    && FunctionOk(f) && Disciplined(f) && Inside(f, ip)
    && |TypesOf(f)| == |f.code| + 1 && Shows(c, TypesOf(f)[ip], base, top, height)
  }

  ghost predicate Aligned(p: Process) {
    && CellMachine.WellFormed(p.cells) && |p.codes| == |p.cells.closures| && |p.ips| == |p.cells.frames|
  }

  /** The frame `k`, which waits for a call to return. */
  ghost predicate WaitingOk(p: Process, k: nat)
    requires Aligned(p) && k + 1 < |p.cells.frames|
  {
    var base, next := p.cells.frames[k].base, p.cells.frames[k + 1].base;
    FrameOk(p.cells, p.codes[p.cells.frames[k].closure], p.ips[k], base, next, next - base + 1)
  }

  ghost predicate Sane(p: Process) {
    && Aligned(p)
    && (forall id :: 0 <= id < |p.codes| ==> CodeOk(p.codes[id], p.cells.closures[id]))
    && FrameOk(p.cells, Code(p), At(p), Base(p), |p.cells.locals|, |p.cells.locals| - Base(p))
    && forall k :: 0 <= k < |p.cells.frames| - 1 ==> WaitingOk(p, k)
  }

  function Code(p: Process): Function
    requires |p.cells.frames| > 0 && CellMachine.Running(p.cells).closure < |p.codes|
  {
    p.codes[CellMachine.Running(p.cells).closure]
  }

  function At(p: Process): nat
    requires |p.ips| > 0
  {
    p.ips[|p.ips| - 1]
  }

  function Base(p: Process): nat
    requires |p.cells.frames| > 0
  {
    CellMachine.Running(p.cells).base
  }

  // ----- what the types say about one instruction -----

  ghost predicate Typing(ins: seq<byte>, s: Slots) {
    ins != [] && Allowed(ins, s, 1)
  }

  lemma TypedAt(f: Function, ip: nat)
    requires FunctionOk(f) && Disciplined(f) && Inside(f, ip)
    ensures |TypesOf(f)| == |f.code| + 1 && Whole(f.code, f.pool, ip)
    ensures Typing(Bytes(f.code, f.pool, ip), TypesOf(f)[ip])
    ensures InstrOk(f.code, f.pool, f.upvalues, ip, {})
  {
    hide FunctionOk, Disciplined, Inside, InstrLen, Allowed, After;
    StaysInside(f, ip, ip);
    TypedThere(f, TypesOf(f), ip);
  }

  lemma TypedThere(f: Function, st: seq<Slots>, ip: nat)
    requires TypedFunction(f, st) && Inside(f, ip)
    ensures |st| == |f.code| + 1 && Whole(f.code, f.pool, ip) && StepTyped(f.code, f.pool, st, map[], 1, ip)
  {
  }

  /** Where control goes on, the types fit. */
  lemma TypedNext(f: Function, ip: nat, j: nat)
    requires FunctionOk(f) && Disciplined(f) && Inside(f, ip) && Whole(f.code, f.pool, ip) && Follows(f, ip, j)
    ensures Inside(f, j) && |TypesOf(f)| == |f.code| + 1
    ensures Into(After(Bytes(f.code, f.pool, ip), TypesOf(f)[ip]), TypesOf(f)[j])
  {
    hide FunctionOk, Disciplined, Allowed, After, Into, InstrLen, Target, Bytes;
    StaysInside(f, ip, j);
    TypedThere(f, TypesOf(f), ip);
    JumpFits(f, ip);
  }

  lemma JumpFits(f: Function, ip: nat)
    requires Whole(f.code, f.pool, ip)
    ensures IsJump(f.code[ip]) ==> ip + 3 <= |f.code|
  {
  }

  lemma ShowsInto(c: Cells, s: Slots, t: Slots, base: nat, top: nat, height: int)
    requires Shows(c, s, base, top, height) && Into(s, t)
    ensures Shows(c, t, base, top, height)
  {
  }

  // ----- plain instructions -----

  lemma OneOp(c: Cells, op: Op)
    requires CellMachine.WellFormed(c) && CellMachine.Legal(c, op)
    ensures CellMachine.LegalRun(c, [op])
    ensures CellMachine.Run(c, [op]) ==
      if CellMachine.Fails(c, op) then (c, false) else (CellMachine.Step(c, op), true)
  {
    hide CellMachine.Legal, CellMachine.Fails, CellMachine.Step;
    var ops := [op];
    assert ops[1..] == [];
    if !CellMachine.Fails(c, op) { CellMachine.StepWellFormed(c, op); }
  }

  /** Runs one after the other. */
  lemma {:induction false} RunAppend(c: Cells, a: seq<Op>, b: seq<Op>)
    requires CellMachine.WellFormed(c) && CellMachine.LegalRun(c, a)
    requires var r := CellMachine.Run(c, a); r.1 ==> CellMachine.LegalRun(r.0, b)
    ensures CellMachine.LegalRun(c, a + b)
    ensures var r := CellMachine.Run(c, a); r.1 ==> CellMachine.Run(c, a + b) == CellMachine.Run(r.0, b)
    decreases |a|
  {
    hide CellMachine.Legal, CellMachine.Fails, CellMachine.Step, CellMachine.WellFormed;
    if a == [] {
      assert a + b == b;
    } else {
      assert (a + b)[0] == a[0] && (a + b)[1..] == a[1..] + b;
      if !CellMachine.Fails(c, a[0]) {
        CellMachine.StepWellFormed(c, a[0]);
        RunAppend(CellMachine.Step(c, a[0]), a[1..], b);
      }
    }
  }

  /** The newest `n` slots of the running frame are not captured. */
  ghost predicate Free(c: Cells, n: nat)
    requires |c.frames| > 0
  {
    && CellMachine.Running(c).base + 1 + n <= |c.locals|
    && forall k :: |c.locals| - n <= k < |c.locals| ==> c.locals[k] !in CellMachine.Captured(c.closures)
  }

  function Dropped(c: Cells, n: nat): Cells
    requires n <= |c.locals|
  {
    c.(locals := c.locals[..|c.locals| - n])
  }

  lemma {:induction false} PopsRun(c: Cells, n: nat)
    requires CellMachine.WellFormed(c) && Free(c, n)
    ensures CellMachine.LegalRun(c, PopOps(n)) && CellMachine.Run(c, PopOps(n)) == (Dropped(c, n), true)
    decreases n
  {
    hide CellMachine.WellFormed;
    if n == 0 {
      assert c.locals[..|c.locals|] == c.locals;
    } else {
      OneOp(c, CellMachine.Pop);
      var d := CellMachine.Step(c, CellMachine.Pop);
      CellMachine.StepWellFormed(c, CellMachine.Pop);
      assert PopOps(n) == [CellMachine.Pop] + PopOps(n - 1);
      PopsRun(d, n - 1);
      RunAppend(c, [CellMachine.Pop], PopOps(n - 1));
      assert c.locals[..|c.locals| - 1][..|c.locals| - n] == c.locals[..|c.locals| - n];
    }
  }

  /** After a plain instruction. */
  ghost predicate PlainResult(c: Cells, n: nat, given: nat, d: Cells)
    requires n <= |c.locals|
  {
    if given == 0 then d == Dropped(c, n)
    else exists v: Values.Datum :: Known(v, c) && d == CellMachine.Grow(Dropped(c, n), v)
  }

  lemma PlainRun(c: Cells, n: nat, given: nat, ops: seq<Op>)
    requires CellMachine.WellFormed(c) && Free(c, n) && Plain(n, given, c, ops)
    ensures CellMachine.LegalRun(c, ops) && CellMachine.Run(c, ops).1
    ensures PlainResult(c, n, given, CellMachine.Run(c, ops).0)
  {
    hide CellMachine.WellFormed, CellMachine.LegalRun, CellMachine.Run;
    PopsRun(c, n);
    if given != 0 {
      var v: Values.Datum :| Known(v, c) && ops == PopOps(n) + [CellMachine.Push(v)];
      OneOp(Dropped(c, n), CellMachine.Push(v));
      RunAppend(c, PopOps(n), [CellMachine.Push(v)]);
    }
  }

  // ----- every instruction is legal -----

  /** What is popped is not captured. */
  lemma FreeTop(c: Cells, s: Slots, n: nat)
    requires |c.frames| > 0 && Drops(s, n, 1)
    requires var base := CellMachine.Running(c).base; Shows(c, s, base, |c.locals|, |c.locals| - base)
    ensures Free(c, n)
  {
  }

  lemma ClosureLegal(c: Cells, ins: seq<byte>, f: Function, ip: nat, s: Slots, ops: seq<Op>)
    requires CellMachine.WellFormed(c) && ins != [] && Does(ins, f.pool, c, ops) && ins[0] == OP_CLOSURE
    requires Whole(f.code, f.pool, ip) && ins == Bytes(f.code, f.pool, ip)
    requires InstrOk(f.code, f.pool, f.upvalues, ip, {})
    requires SlotsInRange(ins, s.height) && s.height == |c.locals| - CellMachine.Running(c).base
    requires f.upvalues == |c.closures[CellMachine.Running(c).closure].cells|
    ensures |ops| == 1 && CellMachine.Legal(c, ops[0])
  {
    hide CellMachine.WellFormed;
    var xs := CapturesOf(ins);
    forall k | 0 <= k < |xs|
      ensures CellMachine.CaptureInRange(c, xs[k])
    {
      assert ins[2 * k + 2] == f.code[ip + 2 + 2 * k] && ins[2 * k + 3] == f.code[ip + 3 + 2 * k];
      if xs[k].isLocal {
        assert CapturesSlot(ins, k) && SlotOf(ins, k) <= s.height;
      } else {
        assert CaptureOk(f.code, ip + 2 + 2 * k, f.upvalues);
      }
    }
  }

  /** The instruction of the running frame. */
  function Current(p: Process): (ins: seq<byte>)
    requires |p.cells.frames| > 0 && CellMachine.Running(p.cells).closure < |p.codes| && |p.ips| > 0
    requires Whole(Code(p).code, Code(p).pool, At(p))
  {
    Bytes(Code(p).code, Code(p).pool, At(p))
  }

  /** The process can do `ops` next; the script's own return ends it. */
  ghost predicate Next(p: Process, ops: seq<Op>) {
    && |p.cells.frames| > 0 && CellMachine.Running(p.cells).closure < |p.codes| && |p.ips| > 0
    && Whole(Code(p).code, Code(p).pool, At(p))
    && Does(Current(p), Code(p).pool, p.cells, ops)
    && (Current(p)[0] == OP_RETURN ==> |p.cells.frames| > 1)
  }

  lemma RunningOk(p: Process)
    requires Sane(p)
    ensures |p.cells.frames| > 0 && CellMachine.Running(p.cells).closure < |p.codes|
    ensures Base(p) < |p.cells.locals| && CellMachine.FunctionsOk(p.cells.closures, |p.cells.store|)
    ensures CodeOk(Code(p), p.cells.closures[CellMachine.Running(p.cells).closure])
  {
  }

  /** In a process that is in step with the types every instruction is legal. */
  lemma NextLegal(p: Process, ops: seq<Op>)
    requires Sane(p) && Next(p, ops)
    ensures CellMachine.LegalRun(p.cells, ops)
  {
    hide FunctionOk, Disciplined, Inside, Bytes, InstrLen, WaitingOk, Taken, CellMachine.WellFormed,
      CellMachine.LegalRun, CellMachine.Run, TypedFunction, CellMachine.Fails, CellMachine.Step, CellMachine.Captured,
      Plain;
    RunningOk(p);
    var c, f, ip := p.cells, Code(p), At(p);
    TypedAt(f, ip);
    var ins, s := Current(p), TypesOf(f)[ip];
    FreeTop(c, s, Taken(ins));
    if ins[0] == OP_CLOSURE {
      ClosureLegal(c, ins, f, ip, s, ops);
      OneOp(c, ops[0]);
    } else if IsOne(ins[0]) || (ins[0] == OP_CALL && |ins| == 2 && ops == [CellMachine.Call(ins[1])]) {
      OneLegal(c, ins, f, ip, s, ops);
      OneOp(c, ops[0]);
    } else {
      PlainRun(c, Taken(ins), Given(ins[0]), ops);
    }
  }

  /** Instructions with an operation of their own. */
  predicate IsOne(op: byte) {
    op in [OP_GET_LOCAL, OP_SET_LOCAL, OP_GET_UPVALUE, OP_SET_UPVALUE, OP_CLOSE_UPVALUE, OP_RETURN]
  }

  lemma OneLegal(c: Cells, ins: seq<byte>, f: Function, ip: nat, s: Slots, ops: seq<Op>)
    requires CellMachine.WellFormed(c) && ins != [] && Does(ins, f.pool, c, ops)
    requires IsOne(ins[0]) || (ins[0] == OP_CALL && |ins| == 2 && ops == [CellMachine.Call(ins[1])])
    requires Whole(f.code, f.pool, ip) && ins == Bytes(f.code, f.pool, ip)
    requires InstrOk(f.code, f.pool, f.upvalues, ip, {})
    requires Allowed(ins, s, 1) && s.height == |c.locals| - CellMachine.Running(c).base
    requires f.upvalues == |c.closures[CellMachine.Running(c).closure].cells|
    requires ins[0] == OP_RETURN ==> |c.frames| > 1
    ensures |ops| == 1 && CellMachine.Legal(c, ops[0])
  {
    hide CellMachine.WellFormed;
    if IsOne(ins[0]) && |ins| == 2 { assert ins[1] == f.code[ip + 1]; }
  }

  // ----- every instruction keeps the process in step -----

  /** `q` is `p` after the operations: control goes on in the function, enters the closure that is called, or
      returns. */
  ghost predicate Continues(p: Process, ops: seq<Op>, q: Process)
    requires Next(p, ops) && CellMachine.WellFormed(p.cells) && CellMachine.LegalRun(p.cells, ops)
  {
    var (d, ok) := CellMachine.Run(p.cells, ops);
    var ins, below := Current(p), p.ips[..|p.ips| - 1];
    && ok && q.cells == d
    && q.codes == (if ins[0] == OP_CLOSURE then p.codes + [Code(p).pool[ins[1]].f] else p.codes)
    && if ins[0] == OP_RETURN then q.ips == below
       else if IsCall(ins, ops) then q.ips == below + [At(p) + |ins|, 0]
       else exists j: nat :: Follows(Code(p), At(p), j) && q.ips == below + [j]
  }

  predicate IsCall(ins: seq<byte>, ops: seq<Op>)
    requires ins != []
  {
    ins[0] == OP_CALL && |ins| == 2 && ops == [CellMachine.Call(ins[1])]
  }

  /** The slots below `n` are the same, and no more of them are captured. */
  ghost predicate SameBelow(c: Cells, d: Cells, n: nat) {
    && n <= |c.locals| && n <= |d.locals| && c.locals[..n] == d.locals[..n]
    && forall slot :: 0 <= slot < n && d.locals[slot] in CellMachine.Captured(d.closures) ==>
         c.locals[slot] in CellMachine.Captured(c.closures)
  }

  lemma WaitingKept(p: Process, q: Process, k: nat)
    requires Aligned(p) && Aligned(q) && k + 1 < |p.cells.frames| && WaitingOk(p, k)
    requires k + 1 < |q.cells.frames| && q.cells.frames[..k + 2] == p.cells.frames[..k + 2] && q.ips[k] == p.ips[k]
    requires p.codes <= q.codes && SameBelow(p.cells, q.cells, p.cells.frames[k + 1].base)
    ensures WaitingOk(q, k)
  {
    hide FunctionOk, Disciplined, AtBoundary, CellMachine.Captured, CellMachine.FunctionsOk, CellMachine.ValuesOk,
      CellMachine.Distinct, TypedFunction;
    assert q.cells.frames[..k + 2][k] == q.cells.frames[k] && q.cells.frames[..k + 2][k + 1] == q.cells.frames[k + 1];
    assert p.cells.frames[..k + 2][k] == p.cells.frames[k] && p.cells.frames[..k + 2][k + 1] == p.cells.frames[k + 1];
    assert q.codes[p.cells.frames[k].closure] == p.codes[p.cells.frames[k].closure];
    var base, next := p.cells.frames[k].base, p.cells.frames[k + 1].base;
    ShowsBelow(p.cells, q.cells, TypesOf(p.codes[p.cells.frames[k].closure])[p.ips[k]], base, next, next - base + 1);
  }

  lemma ShowsBelow(c: Cells, d: Cells, s: Slots, base: nat, next: nat, height: int)
    requires Shows(c, s, base, next, height) && SameBelow(c, d, next)
    ensures Shows(d, s, base, next, height)
  {
    hide CellMachine.Captured;
  }

  /** A step inside a function: `m` slots stay, and at most one new one, not captured, is on top. */
  ghost predicate Inner(c: Cells, d: Cells, m: nat) {
    && d.frames == c.frames && d.closures == c.closures && m <= |c.locals| && m <= |d.locals| <= m + 1
    && d.locals[..m] == c.locals[..m]
    && (|d.locals| == m + 1 ==> d.locals[m] !in CellMachine.Captured(d.closures))
  }

  lemma InnerShows(c: Cells, d: Cells, m: nat, s: Slots, t: Slots, base: nat)
    requires Inner(c, d, m) && Shows(c, s, base, |c.locals|, |c.locals| - base) && base <= m
    requires t.height == |d.locals| - base && forall k :: k in s.held && k < m - base ==> k in t.held
    ensures Shows(d, t, base, |d.locals|, |d.locals| - base)
  {
    hide CellMachine.Captured;
    assert forall slot :: 0 <= slot < m ==> d.locals[..m][slot] == d.locals[slot];
    assert forall slot :: 0 <= slot < m ==> c.locals[..m][slot] == c.locals[slot];
  }

  lemma InnerBelow(c: Cells, d: Cells, m: nat, n: nat)
    requires Inner(c, d, m) && n <= m
    ensures SameBelow(c, d, n)
  {
    hide CellMachine.Captured;
    assert d.locals[..n] == d.locals[..m][..n] && c.locals[..n] == c.locals[..m][..n];
    assert forall slot :: 0 <= slot < m ==> d.locals[..m][slot] == d.locals[slot];
    assert forall slot :: 0 <= slot < m ==> c.locals[..m][slot] == c.locals[slot];
  }

  /** A new cell is not captured. */
  lemma FreshCell(c: Cells)
    requires CellMachine.WellFormed(c)
    ensures |c.store| !in CellMachine.Captured(c.closures)
  {
  }

  lemma PlainInner(c: Cells, n: nat, given: nat, d: Cells)
    requires CellMachine.WellFormed(c) && n <= |c.locals| && PlainResult(c, n, given, d) && given <= 1
    ensures Inner(c, d, |c.locals| - n) && |d.locals| == |c.locals| - n + given
  {
    hide CellMachine.WellFormed, CellMachine.Captured;
    FreshCell(c);
    var m := |c.locals| - n;
    assert d.locals[..m] == c.locals[..m];
  }

  /** The operations with an instruction of their own, but for returns. */
  lemma OneInner(c: Cells, ins: seq<byte>, pool: seq<Constant>, ops: seq<Op>, d: Cells)
    requires CellMachine.WellFormed(c) && ins != [] && Does(ins, pool, c, ops) && IsOne(ins[0]) && ins[0] != OP_RETURN
    requires |ops| == 1 && CellMachine.Legal(c, ops[0]) && d == CellMachine.Step(c, ops[0])
    ensures var m := if ins[0] == OP_CLOSE_UPVALUE then |c.locals| - 1 else |c.locals|;
      Inner(c, d, m) && |d.locals| == m + Given(ins[0])
  {
    hide CellMachine.WellFormed, CellMachine.Captured;
    FreshCell(c);
    RunningBelow(c);
    var m := if ins[0] == OP_CLOSE_UPVALUE then |c.locals| - 1 else |c.locals|;
    assert d.locals[..m] == c.locals[..m];
  }

  lemma RunningBelow(c: Cells)
    requires CellMachine.WellFormed(c)
    ensures |c.frames| > 0 && CellMachine.Running(c).base < |c.locals|
  {
  }

  /** All frames but the top one stay as they are. */
  lemma AllWaiting(p: Process, q: Process, n: nat)
    requires Sane(p) && Aligned(q) && n < |p.cells.frames| && n < |q.cells.frames|
    requires q.cells.frames[..n + 1] == p.cells.frames[..n + 1] && q.ips[..n] == p.ips[..n] && p.codes <= q.codes
    requires SameBelow(p.cells, q.cells, p.cells.frames[n].base)
    ensures forall k :: 0 <= k < n ==> WaitingOk(q, k)
  {
    hide WaitingOk, FrameOk, CodeOk, CellMachine.WellFormed, CellMachine.Captured;
    forall k | 0 <= k < n
      ensures WaitingOk(q, k)
    {
      assert q.cells.frames[..k + 2] == q.cells.frames[..n + 1][..k + 2] == p.cells.frames[..k + 2];
      assert q.ips[..n][k] == q.ips[k] && p.ips[..n][k] == p.ips[k];
      BaseRises(p.cells, k + 1, n);
      SameLess(p.cells, q.cells, p.cells.frames[n].base, p.cells.frames[k + 1].base);
      WaitingKept(p, q, k);
    }
  }

  lemma BaseRises(c: Cells, i: nat, j: nat)
    requires CellMachine.WellFormed(c) && i <= j < |c.frames|
    ensures c.frames[i].base <= c.frames[j].base
  {
    hide CellMachine.FunctionsOk, CellMachine.ValuesOk, CellMachine.Distinct;
  }

  lemma SameLess(c: Cells, d: Cells, n: nat, m: nat)
    requires SameBelow(c, d, n) && m <= n
    ensures SameBelow(c, d, m)
  {
    hide CellMachine.Captured;
    assert c.locals[..m] == c.locals[..n][..m] && d.locals[..m] == d.locals[..n][..m];
  }

  /** Control goes on in the same function. */
  lemma StraightStays(p: Process, q: Process, m: nat, j: nat)
    requires Sane(p) && CellMachine.WellFormed(q.cells) && Inner(p.cells, q.cells, m) && Base(p) < m
    requires q.codes == p.codes && q.ips == p.ips[..|p.ips| - 1] + [j]
    requires Whole(Code(p).code, Code(p).pool, At(p)) && Follows(Code(p), At(p), j) && Current(p)[0] != OP_CLOSURE
    requires var s := TypesOf(Code(p))[At(p)];
      var t := After(Current(p), s);
      t.height == |q.cells.locals| - Base(p) && forall k :: k in s.held && k < m - Base(p) ==> k in t.held
    ensures Sane(q)
  {
    hide FunctionOk, Disciplined, Inside, WaitingOk, CellMachine.WellFormed, CellMachine.Captured, TypedFunction,
      After, Bytes, InstrLen, Follows;
    RunningOk(p);
    var c, d, f := p.cells, q.cells, Code(p);
    TypedNext(f, At(p), j);
    InnerShows(c, d, m, TypesOf(f)[At(p)], After(Current(p), TypesOf(f)[At(p)]), Base(p));
    InsideFits(f, j);
    ShowsInto(d, After(Current(p), TypesOf(f)[At(p)]), TypesOf(f)[j], Base(p), |d.locals|, |d.locals| - Base(p));
    InnerBelow(c, d, m, Base(p));
    AllWaiting(p, q, |c.frames| - 1);
  }

  lemma InsideFits(f: Function, j: nat)
    requires Inside(f, j)
    ensures j < |f.code|
  {
  }

  /** The variables that are captured after a closure has been made. */
  lemma CapturedThen(c: Cells, arity: nat, xs: seq<CellMachine.Capture>, slot: nat)
    requires CellMachine.WellFormed(c) && CellMachine.Legal(c, CellMachine.MakeClosure(arity, xs))
    requires slot <= |c.locals|
    ensures var d := CellMachine.Step(c, CellMachine.MakeClosure(arity, xs));
      |d.locals| == |c.locals| + 1 &&
      (d.locals[slot] in CellMachine.Captured(d.closures) ==>
        || (slot < |c.locals| && c.locals[slot] in CellMachine.Captured(c.closures))
        || exists k :: 0 <= k < |xs| && xs[k].isLocal && slot == CellMachine.Running(c).base + xs[k].index)
  {
    var d := CellMachine.Step(c, CellMachine.MakeClosure(arity, xs));
    var cell := d.locals[slot];
    if cell in CellMachine.Captured(d.closures) {
      var i, k :| 0 <= i < |d.closures| && 0 <= k < |d.closures[i].cells| && d.closures[i].cells[k] == cell;
      if i < |c.closures| {
        assert c.closures[i].cells[k] == cell;
        assert cell in CellMachine.Captured(c.closures);
        FreshCell(c);
      } else if xs[k].isLocal {
        SameSlot(c, slot, CellMachine.Running(c).base + xs[k].index);
      } else {
        assert c.closures[CellMachine.Running(c).closure].cells[xs[k].index] == cell;
        assert cell in CellMachine.Captured(c.closures);
        FreshCell(c);
      }
    }
  }

  /** Slots with the same cell are the same. */
  lemma SameSlot(c: Cells, i: nat, j: nat)
    requires CellMachine.WellFormed(c) && i <= |c.locals| && j <= |c.locals|
    requires (c.locals + [|c.store|])[i] == (c.locals + [|c.store|])[j]
    ensures i == j
  {
    hide CellMachine.FunctionsOk, CellMachine.ValuesOk, CellMachine.FramesOk;
  }

  /** A closure is made. */
  lemma ClosureStays(p: Process, q: Process, arity: nat, xs: seq<CellMachine.Capture>, j: nat)
    requires Sane(p) && Whole(Code(p).code, Code(p).pool, At(p)) && Follows(Code(p), At(p), j)
    requires Current(p)[0] == OP_CLOSURE && |Current(p)| >= 2 && |Current(p)| % 2 == 0
    requires Current(p)[1] < |Code(p).pool| && Code(p).pool[Current(p)[1]].Compiled?
    requires arity == Code(p).pool[Current(p)[1]].f.arity && xs == CapturesOf(Current(p))
    requires CellMachine.Legal(p.cells, CellMachine.MakeClosure(arity, xs))
    requires q.cells == CellMachine.Step(p.cells, CellMachine.MakeClosure(arity, xs))
    requires q.codes == p.codes + [Code(p).pool[Current(p)[1]].f] && q.ips == p.ips[..|p.ips| - 1] + [j]
    ensures Sane(q)
  {
    hide FunctionOk, Disciplined, Inside, WaitingOk, CellMachine.WellFormed, CellMachine.Captured, TypedFunction,
      Bytes, InstrLen, Follows, CellMachine.Legal, After;
    RunningOk(p);
    var c, d, f := p.cells, q.cells, Code(p);
    var ins, s := Current(p), TypesOf(f)[At(p)];
    CellMachine.ClosureWellFormed(c, arity, xs);
    TypedNext(f, At(p), j);
    InsideFits(f, j);
    forall slot | 0 <= slot <= |c.locals| && d.locals[slot] in CellMachine.Captured(d.closures)
      ensures slot < Base(p) ==> slot < |c.locals| && c.locals[slot] in CellMachine.Captured(c.closures)
      ensures slot >= Base(p) ==> slot - Base(p) in After(ins, s).held
    {
      CapturedThen(c, arity, xs, slot);
      CapturedHeld(ins, s, slot - Base(p));
    }
    MadeHeight(ins, s);
    ShowsInto(d, After(ins, s), TypesOf(f)[j], Base(p), |d.locals|, |d.locals| - Base(p));
    assert d.locals[..Base(p)] == c.locals[..Base(p)];
    AllWaiting(p, q, |c.frames| - 1);
    InnerCode(f, ins, At(p));
  }

  lemma CapturedHeld(ins: seq<byte>, s: Slots, i: int)
    requires |ins| >= 2 && |ins| % 2 == 0 && ins[0] == OP_CLOSURE
    ensures i in s.held ==> i in After(ins, s).held
    ensures forall k :: 0 <= k < |CapturesOf(ins)| && CapturesOf(ins)[k].isLocal && i == CapturesOf(ins)[k].index ==>
      i in After(ins, s).held
  {
    forall k | 0 <= k < |CapturesOf(ins)| && CapturesOf(ins)[k].isLocal && i == CapturesOf(ins)[k].index
      ensures i in After(ins, s).held
    {
      assert CapturesSlot(ins, k) && SlotOf(ins, k) == i;
    }
  }

  lemma MadeHeight(ins: seq<byte>, s: Slots)
    requires ins != [] && ins[0] == OP_CLOSURE
    ensures After(ins, s).height == s.height + 1
  {
  }

  /** The function of the new closure is one of the constants. */
  lemma InnerCode(f: Function, ins: seq<byte>, ip: nat)
    requires FunctionOk(f) && Disciplined(f) && Whole(f.code, f.pool, ip) && ins == Bytes(f.code, f.pool, ip)
    requires ins[0] == OP_CLOSURE && |ins| >= 2 && ins[1] < |f.pool| && f.pool[ins[1]].Compiled?
    ensures var g := f.pool[ins[1]].f; FunctionOk(g) && Disciplined(g) && |ins| == 2 + 2 * g.upvalues
  {
    hide TypedFunction, Sound;
    assert ins[1] == f.code[ip + 1];
  }

  /** A closure is entered: its arguments are its first slots, and none of them is captured. */
  lemma CallStays(p: Process, q: Process, argc: byte)
    requires Sane(p) && Whole(Code(p).code, Code(p).pool, At(p)) && Current(p) == [OP_CALL, argc]
    requires CellMachine.Legal(p.cells, CellMachine.Call(argc)) && !CellMachine.Fails(p.cells, CellMachine.Call(argc))
    requires q.cells == CellMachine.Step(p.cells, CellMachine.Call(argc))
    requires q.codes == p.codes && q.ips == p.ips[..|p.ips| - 1] + [At(p) + 2, 0]
    ensures Sane(q)
  {
    hide FunctionOk, Disciplined, Inside, WaitingOk, CellMachine.WellFormed, CellMachine.Captured, TypedFunction,
      Bytes, InstrLen, Allowed, CodeOk, Into;
    RunningOk(p);
    var c, d, f, last := p.cells, q.cells, Code(p), |p.cells.frames| - 1;
    CellMachine.StepWellFormed(c, CellMachine.Call(argc));
    TypedAt(f, At(p));
    CodeParts(f, c.closures[CellMachine.Running(c).closure]);
    CallFollows(f, At(p));
    TypedNext(f, At(p), At(p) + 2);
    InsideFits(f, At(p) + 2);
    var s, next := TypesOf(f)[At(p)], |c.locals| - argc as int - 1;
    CallTypes(Current(p), s, argc);
    ShowsInto(d, After(Current(p), s), TypesOf(f)[At(p) + 2], Base(p), next, next - Base(p) + 1);
    assert q.cells.frames[..last + 1] == p.cells.frames[..last + 1];
    assert d.locals[..Base(p)] == c.locals[..Base(p)];
    AllWaiting(p, q, last);
    CalleeEnters(p, q, argc);
    assert WaitingOk(q, last) by { WaitingIs(q, last); }
  }

  lemma WaitingIs(p: Process, k: nat)
    requires Aligned(p) && k + 1 < |p.cells.frames|
    requires var base, next := p.cells.frames[k].base, p.cells.frames[k + 1].base;
      FrameOk(p.cells, p.codes[p.cells.frames[k].closure], p.ips[k], base, next, next - base + 1)
    ensures WaitingOk(p, k)
  {
  }

  lemma CodeParts(f: Function, g: CellMachine.Function)
    requires CodeOk(f, g)
    ensures FunctionOk(f) && Disciplined(f) && f.arity == g.arity
  {
  }

  lemma CallFollows(f: Function, ip: nat)
    requires Whole(f.code, f.pool, ip) && Bytes(f.code, f.pool, ip)[0] == OP_CALL
    ensures Follows(f, ip, ip + 2)
  {
  }

  lemma CallTypes(ins: seq<byte>, s: Slots, argc: byte)
    requires ins == [OP_CALL, argc] && Allowed(ins, s, 1)
    ensures Drops(s, argc as int + 1, 1) && After(ins, s) == Slots(s.height - argc as int, s.held)
  {
  }

  lemma CalleeEnters(p: Process, q: Process, argc: byte)
    requires Sane(p) && Aligned(q) && Drops(TypesOf(Code(p))[At(p)], argc as int + 1, 1)
    requires CellMachine.Legal(p.cells, CellMachine.Call(argc)) && !CellMachine.Fails(p.cells, CellMachine.Call(argc))
    requires q.cells == CellMachine.Step(p.cells, CellMachine.Call(argc))
    requires q.codes == p.codes && q.ips == p.ips[..|p.ips| - 1] + [At(p) + 2, 0]
    ensures FrameOk(q.cells, Code(q), At(q), Base(q), |q.cells.locals|, |q.cells.locals| - Base(q))
  {
    hide FunctionOk, Disciplined, AtBoundary, WaitingOk, CellMachine.Captured, TypedFunction;
    var c, d := p.cells, q.cells;
    FreeTop(c, TypesOf(Code(p))[At(p)], argc as int + 1);
    var id := CellMachine.TopValue(c, argc).id;
    assert CodeOk(p.codes[id], c.closures[id]);
    Entry(p.codes[id]);
  }

  /** The first instruction of a function, with its arguments. */
  lemma Entry(f: Function)
    requires FunctionOk(f) && Disciplined(f)
    ensures Inside(f, 0) && |TypesOf(f)| == |f.code| + 1 && Into(Slots(f.arity + 1, {}), TypesOf(f)[0])
  {
    hide Sound;
  }

  /** A function returns: its slots give way to the result. */
  lemma ReturnStays(p: Process, q: Process)
    requires Sane(p) && CellMachine.Legal(p.cells, CellMachine.Return)
    requires q.cells == CellMachine.Step(p.cells, CellMachine.Return)
    requires q.codes == p.codes && q.ips == p.ips[..|p.ips| - 1]
    ensures Sane(q)
  {
    hide FunctionOk, Disciplined, AtBoundary, WaitingOk, CellMachine.WellFormed, CellMachine.Captured, TypedFunction,
      CodeOk, FrameOk;
    RunningOk(p);
    var c, d, n := p.cells, q.cells, |p.cells.frames| - 2;
    CellMachine.ReturnWellFormed(c);
    assert d.frames[n] == c.frames[n];
    assert d.locals[..Base(p)] == c.locals[..Base(p)];
    assert d.frames[..n + 1] == c.frames[..n + 1];
    BaseRises(c, n, n + 1);
    SameLess(c, d, Base(p), c.frames[n].base);
    AllWaiting(p, q, n);
    FreshCell(c);
    ReturnTop(p, q);
  }

  lemma ReturnTop(p: Process, q: Process)
    requires Sane(p) && CellMachine.Legal(p.cells, CellMachine.Return) && Aligned(q)
    requires q.cells == CellMachine.Step(p.cells, CellMachine.Return)
    requires q.codes == p.codes && q.ips == p.ips[..|p.ips| - 1]
    requires |p.cells.store| !in CellMachine.Captured(p.cells.closures)
    ensures FrameOk(q.cells, Code(q), At(q), Base(q), |q.cells.locals|, |q.cells.locals| - Base(q))
  {
    hide FunctionOk, Disciplined, AtBoundary, CellMachine.WellFormed, CellMachine.Captured, TypedFunction, CodeOk;
    var c, d, n := p.cells, q.cells, |p.cells.frames| - 2;
    assert WaitingOk(p, n);
    RunningOk(p);
    assert forall slot :: 0 <= slot < Base(p) ==> d.locals[slot] == c.locals[slot];
  }

  lemma PlainStays(p: Process, ops: seq<Op>, q: Process)
    requires Sane(p) && Next(p, ops) && CellMachine.LegalRun(p.cells, ops) && Continues(p, ops, q)
    requires var ins := Current(p); ins[0] != OP_CLOSURE && !IsOne(ins[0]) && !IsCall(ins, ops)
    ensures Sane(q)
  {
    hide FunctionOk, Disciplined, Inside, Bytes, InstrLen, WaitingOk, Taken, CellMachine.WellFormed,
      CellMachine.LegalRun, CellMachine.Run, TypedFunction, CellMachine.Captured, Plain, Follows, Given, PlainResult;
    RunningOk(p);
    var c, f, ip := p.cells, Code(p), At(p);
    TypedAt(f, ip);
    var ins, s := Current(p), TypesOf(f)[ip];
    var n, given := Taken(ins), Given(ins[0]);
    FreeTop(c, s, n);
    GivenOne(ins[0]);
    PlainRun(c, n, given, ops);
    PlainInner(c, n, given, q.cells);
    var j: nat :| Follows(f, ip, j) && q.ips == p.ips[..|p.ips| - 1] + [j];
    StraightStays(p, q, |c.locals| - n, j);
  }

  lemma GivenOne(op: byte)
    ensures Given(op) <= 1
  {
  }

  lemma OneStays(p: Process, ops: seq<Op>, q: Process)
    requires Sane(p) && Next(p, ops) && CellMachine.LegalRun(p.cells, ops) && Continues(p, ops, q)
    requires IsOne(Current(p)[0]) && Current(p)[0] != OP_RETURN && |ops| == 1 && CellMachine.Legal(p.cells, ops[0])
    requires q.cells == CellMachine.Step(p.cells, ops[0])
    ensures Sane(q)
  {
    hide FunctionOk, Disciplined, Inside, Bytes, InstrLen, WaitingOk, CellMachine.WellFormed, CellMachine.LegalRun,
      CellMachine.Run, TypedFunction, CellMachine.Captured, Follows, CellMachine.Step, CellMachine.Legal,
      CellMachine.Fails, Does, Allowed, After, Given, Inner, IsOne;
    RunningOk(p);
    var c, f, ip := p.cells, Code(p), At(p);
    TypedAt(f, ip);
    var ins, s := Current(p), TypesOf(f)[ip];
    OneInner(c, ins, f.pool, ops, q.cells);
    OneAfter(ins, s);
    NeverFails(c, ins, f.pool, ops);
    CellMachine.StepWellFormed(c, ops[0]);
    NotCall(ins, ops);
    var j: nat :| Follows(f, ip, j) && q.ips == p.ips[..|p.ips| - 1] + [j];
    StraightStays(p, q, if ins[0] == OP_CLOSE_UPVALUE then |c.locals| - 1 else |c.locals|, j);
  }

  lemma OneAfter(ins: seq<byte>, s: Slots)
    requires ins != [] && Allowed(ins, s, 1) && IsOne(ins[0]) && ins[0] != OP_RETURN
    ensures var t, closed := After(ins, s), ins[0] == OP_CLOSE_UPVALUE;
      && t.height == s.height - (if closed then 1 else 0) + Given(ins[0])
      && (closed ==> 1 < s.height) && forall k :: k in s.held && (closed ==> k < s.height - 1) ==> k in t.held
  {
  }

  lemma NotCall(ins: seq<byte>, ops: seq<Op>)
    requires ins != [] && IsOne(ins[0])
    ensures !IsCall(ins, ops) && ins[0] != OP_CLOSURE
  {
  }

  lemma NeverFails(c: Cells, ins: seq<byte>, pool: seq<Constant>, ops: seq<Op>)
    requires CellMachine.WellFormed(c) && ins != [] && Does(ins, pool, c, ops) && IsOne(ins[0])
    requires |ops| == 1 && CellMachine.Legal(c, ops[0])
    ensures !CellMachine.Fails(c, ops[0])
  {
    hide CellMachine.WellFormed, CellMachine.Legal;
  }

  // ----- runs -----

  /** A process in step with the types stays in step. */
  lemma NextStays(p: Process, ops: seq<Op>, q: Process)
    requires Sane(p) && Next(p, ops) && CellMachine.LegalRun(p.cells, ops) && Continues(p, ops, q)
    ensures Sane(q)
  {
    hide FunctionOk, Disciplined, Inside, Bytes, InstrLen, WaitingOk, Taken, CellMachine.WellFormed,
      CellMachine.LegalRun, CellMachine.Run, TypedFunction, CellMachine.Fails, CellMachine.Step, CellMachine.Captured,
      Plain, Follows, After;
    RunningOk(p);
    var c, f, ip := p.cells, Code(p), At(p);
    TypedAt(f, ip);
    var ins, s := Current(p), TypesOf(f)[ip];
    FreeTop(c, s, Taken(ins));
    if ins[0] == OP_CLOSURE {
      ClosureLegal(c, ins, f, ip, s, ops);
      OneOp(c, ops[0]);
      var j: nat :| Follows(f, ip, j) && q.ips == p.ips[..|p.ips| - 1] + [j];
      ClosureStays(p, q, f.pool[ins[1]].f.arity, CapturesOf(ins), j);
    } else if IsOne(ins[0]) || IsCall(ins, ops) {
      OneLegal(c, ins, f, ip, s, ops);
      OneOp(c, ops[0]);
      if ins[0] == OP_RETURN {
        ReturnStays(p, q);
      } else if IsCall(ins, ops) {
        assert ins == [OP_CALL, ins[1]];
        CallStays(p, q, ins[1]);
      } else {
        OneStays(p, ops, q);
      }
    } else {
      PlainStays(p, ops, q);
    }
  }

  /** The closure of the script is in slot 0, and control is at its first instruction. */
  function Begin(f: Function): Process {
    Process(CellMachine.Cells.Cells([Values.Closure(0)], [0], [CellMachine.Frame.Frame(0, 0)],
      [CellMachine.Function.Function(0, [])]), [f], [0])
  }

  /** A run of a script as far as its variables are concerned: `runs[k]` is what the machine does to them in the process
      `ps[k]`. */
  ghost predicate IsRun(f: Function, ps: seq<Process>, runs: seq<seq<Op>>) {
    && |ps| == |runs| && (ps != [] ==> ps[0] == Begin(f))
    && (forall k :: 0 <= k < |ps| ==> Next(ps[k], runs[k]))
    && forall k :: 0 <= k < |ps| - 1 ==>
         (CellMachine.WellFormed(ps[k].cells) && CellMachine.LegalRun(ps[k].cells, runs[k]) ==>
           Continues(ps[k], runs[k], ps[k + 1]))
  }

  function Flatten(runs: seq<seq<Op>>): seq<Op> {
    if runs == [] then [] else Flatten(runs[..|runs| - 1]) + runs[|runs| - 1]
  }

  lemma BeginsSane(f: Function)
    requires FunctionOk(f) && Disciplined(f) && f.arity == 0 && f.upvalues == 0
    ensures Sane(Begin(f))
  {
    hide FunctionOk, Disciplined, TypedFunction, Inside;
    Entry(f);
    InsideFits(f, 0);
  }

  /** Every process of a run is in step with the types, and everything up to it is legal. */
  lemma {:induction false} RunSane(f: Function, ps: seq<Process>, runs: seq<seq<Op>>, k: nat)
    requires FunctionOk(f) && Disciplined(f) && f.arity == 0 && f.upvalues == 0 && IsRun(f, ps, runs) && k < |ps|
    ensures Sane(ps[k]) && CellMachine.WellFormed(Begin(f).cells)
    ensures CellMachine.LegalRun(Begin(f).cells, Flatten(runs[..k]))
    ensures CellMachine.Run(Begin(f).cells, Flatten(runs[..k])) == (ps[k].cells, true)
    decreases k
  {
    hide FunctionOk, Disciplined, Sane, Next, Continues, CellMachine.WellFormed, CellMachine.LegalRun, CellMachine.Run;
    BeginsSane(f);
    SaneFormed(Begin(f));
    if k == 0 {
      assert Flatten(runs[..0]) == [];
      NothingRuns(Begin(f).cells);
    } else {
      RunSane(f, ps, runs, k - 1);
      SaneFormed(ps[k - 1]);
      NextLegal(ps[k - 1], runs[k - 1]);
      assert Continues(ps[k - 1], runs[k - 1], ps[k - 1 + 1]);
      NextStays(ps[k - 1], runs[k - 1], ps[k]);
      ContinuesRun(ps[k - 1], runs[k - 1], ps[k]);
      assert runs[..k][..k - 1] == runs[..k - 1];
      RunAppend(Begin(f).cells, Flatten(runs[..k - 1]), runs[k - 1]);
    }
  }

  lemma SaneFormed(p: Process)
    requires Sane(p)
    ensures CellMachine.WellFormed(p.cells)
  {
  }

  lemma NothingRuns(c: Cells)
    requires CellMachine.WellFormed(c)
    ensures CellMachine.LegalRun(c, []) && CellMachine.Run(c, []) == (c, true)
  {
  }

  lemma ContinuesRun(p: Process, ops: seq<Op>, q: Process)
    requires Next(p, ops) && CellMachine.WellFormed(p.cells) && CellMachine.LegalRun(p.cells, ops)
    requires Continues(p, ops, q)
    ensures CellMachine.Run(p.cells, ops) == (q.cells, true)
  {
    hide CellMachine.Run, CellMachine.WellFormed, CellMachine.LegalRun;
  }

  /** A script has no upvalues. */
  lemma ScriptAlone(ds: seq<Item>)
    requires MakeScript(ds).Accepted? && Functions.Tame(ds)
    ensures MakeScript(ds).f.arity == 0 && MakeScript(ds).f.upvalues == 0
  {
    hide LayItems, ItemsTame, ItemsOutline, Ready, Compact, FunctionOk;
    ScriptReady();
    ChunkGood(0, ds, TOP, SCRIPT);
  }

  /** Over every run of every script that compiles, with functions at any depth, whose loops are tame, whose chunks have
      less than 65535 bytes and in which no `continue` leaves a captured local: everything the machine does to variables
      is legal for the cell machine.  In particular captured variables are closed, not popped. */
  lemma ScriptLegal(ds: seq<Item>, ps: seq<Process>, runs: seq<seq<Op>>)
    requires MakeScript(ds).Accepted? && Functions.Tame(ds) && Compact(MakeScript(ds).f)
    requires Discipline.AllClose(ds, TOP, [], SCRIPT) && IsRun(MakeScript(ds).f, ps, runs)
    ensures CellMachine.WellFormed(Begin(MakeScript(ds).f).cells)
    ensures CellMachine.LegalRun(Begin(MakeScript(ds).f).cells, Flatten(runs))
  {
    hide MakeScript, Functions.Tame, Compact, Discipline.AllClose, FunctionOk, Disciplined, Sane, Next, Continues,
      CellMachine.WellFormed, CellMachine.LegalRun, CellMachine.Run;
    var f, n := MakeScript(ds).f, |ps|;
    ScriptSound(ds);
    Discipline.ScriptTyped(ds);
    ScriptAlone(ds);
    BeginsSane(f);
    SaneFormed(Begin(f));
    if n == 0 {
      NothingRuns(Begin(f).cells);
    } else {
      RunSane(f, ps, runs, n - 1);
      SaneFormed(ps[n - 1]);
      NextLegal(ps[n - 1], runs[n - 1]);
      RunAppend(Begin(f).cells, Flatten(runs[..n - 1]), runs[n - 1]);
    }
  }

  /** So the machine with its stack and its list of open upvalues shows the cells over every such run. */
  method RunScript(ds: seq<Item>, ghost ps: seq<Process>, runs: seq<seq<Op>>) returns (vm: Upvalues.Vm, ok: bool)
    requires MakeScript(ds).Accepted? && Functions.Tame(ds) && Compact(MakeScript(ds).f)
    requires Discipline.AllClose(ds, TOP, [], SCRIPT) && IsRun(MakeScript(ds).f, ps, runs)
    ensures fresh(vm) && vm.Valid() && CellMachine.WellFormed(Begin(MakeScript(ds).f).cells)
    ensures CellMachine.LegalRun(Begin(MakeScript(ds).f).cells, Flatten(runs))
    ensures (vm.spec, ok) == CellMachine.Run(Begin(MakeScript(ds).f).cells, Flatten(runs))
    ensures vm.stack == CellMachine.StackValues(vm.spec)
  {
    ScriptLegal(ds, ps, runs);
    hide MakeScript, Functions.Tame, Compact, Discipline.AllClose, CellMachine.WellFormed, CellMachine.LegalRun,
      CellMachine.Run;
    vm := new Upvalues.Vm();
    ok := vm.Run(Flatten(runs));
  }
}
