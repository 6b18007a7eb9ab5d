/** The machine that executes the chunks of a script with functions: calls in progress, every slot of the stack a cell
    of its own, closures with the cells they have captured. */
module Engine {
  import opened Values
  import opened Bytecode
  import opened CellMachine
  import F = Functions
  import Machine
  import Meaning

  type World = Meaning.World

  /** The cells with the calls in progress, the function of each closure, the next instruction of each call. */
  datatype Config = Config(cells: Cells, codes: seq<F.Function>, ips: seq<nat>, globals: map<string, Datum>,
    output: seq<Datum>)

  datatype Status = Running(s: Config) | Halted(s: Config) | Error(s: Config) | Stuck

  // ----- the running call -----

  predicate Active(s: Config) {
    |s.cells.frames| > 0 && |s.ips| == |s.cells.frames| && CellMachine.Running(s.cells).closure < |s.codes|
    && CellMachine.Running(s.cells).closure < |s.cells.closures|
  }

  function Code(s: Config): F.Function
    requires Active(s)
  {
    s.codes[CellMachine.Running(s.cells).closure]
  }

  /** The cells the running closure has captured. */
  function Captured(s: Config): seq<nat>
    requires Active(s)
  {
    s.cells.closures[CellMachine.Running(s.cells).closure].cells
  }

  function Ip(s: Config): nat
    requires |s.ips| > 0
  {
    s.ips[|s.ips| - 1]
  }

  function Base(s: Config): nat
    requires |s.cells.frames| > 0
  {
    CellMachine.Running(s.cells).base
  }

  /** Control goes on at `ip`. */
  function At(s: Config, ip: nat): Config
    requires |s.ips| > 0
  {
    s.(ips := s.ips[|s.ips| - 1 := ip])
  }

  // ----- cells -----

  /** What a cell holds; cells that do not exist are not read. */
  function Load(c: Cells, cell: nat): Datum {
    if cell < |c.store| then c.store[cell] else Basic(Nil)
  }

  function Save(c: Cells, cell: nat, v: Datum): Cells {
    if cell < |c.store| then c.(store := c.store[cell := v]) else c
  }

  function Height(s: Config): nat {
    |s.cells.locals|
  }

  /** The `n`-th value from the top of the stack. */
  function Peek(s: Config, n: nat): Datum
    requires n < Height(s)
  {
    Load(s.cells, s.cells.locals[Height(s) - 1 - n])
  }

  /** The topmost `n` values, the lowest first. */
  function Tops(s: Config, n: nat): (vs: seq<Datum>)
    requires n <= Height(s)
    ensures |vs| == n
  {
    seq(n, i requires 0 <= i < n => Peek(s, n - 1 - i))
  }

  function Drop(c: Cells, n: nat): Cells
    requires n <= |c.locals|
  {
    c.(locals := c.locals[..|c.locals| - n])
  }

  /** `v` takes the place of the topmost `n` values, and control goes on at `ip`. */
  function Replace(s: Config, ip: nat, n: nat, v: Datum): Config
    requires n <= Height(s) && |s.ips| > 0
  {
    At(s.(cells := Grow(Drop(s.cells, n), v)), ip)
  }

  function Popped(s: Config, ip: nat, n: nat): Config
    requires n <= Height(s) && |s.ips| > 0
  {
    At(s.(cells := Drop(s.cells, n)), ip)
  }

  // ----- single instructions -----

  /** Functions are equal to nothing and take part in no other operation. */
  function Operation(pr: Primitives, op: byte, a: Datum, b: Datum): Option<Datum> {
    if a.Basic? && b.Basic? then
      match Machine.BinaryOutcome(pr, op, a.v, b.v)
      case Some(v) => Some(Basic(v))
      case None => None
    else if op == OP_EQUAL then Some(Basic(Bool(false)))
    else None
  }

  function StepBinary(w: World, op: byte, s: Config): Status
    requires Active(s)
  {
    if Height(s) < 2 then Stuck
    else match Operation(w.pr, op, Peek(s, 1), Peek(s, 0))
      case Some(v) => Running(Replace(s, Ip(s) + 1, 2, v))
      case None => Error(s)
  }

  predicate Falsey(v: Datum) {
    v.Basic? && IsFalsey(v.v)
  }

  /** Nil and false count as false, for the evaluation as for the machine; every number, string and function is true. */
  lemma FalseValues(v: Datum)
    ensures Falsey(v) <==> v == Basic(Nil) || v == Basic(Bool(false))
    ensures Meaning.Untrue(v) <==> Falsey(v)
  {
  }

  /** The slots of a call give way to its result; the script's own return ends the run. */
  function StepReturn(s: Config): Status
    requires Active(s) && Height(s) > 0
  {
    if |s.cells.frames| == 1 then
      if Height(s) < 2 then Stuck else Halted(s.(cells := Drop(s.cells, 2)))
    else if Base(s) > Height(s) then Stuck
    else
      var below := s.cells.(locals := s.cells.locals[..Base(s)], frames := s.cells.frames[..|s.cells.frames| - 1]);
      Running(s.(cells := Grow(below, Peek(s, 0)), ips := s.ips[..|s.ips| - 1]))
  }

  function StepSimple(w: World, op: byte, s: Config): Status
    requires Active(s)
  {
    var next := Ip(s) + 1;
    if op == OP_NIL then Running(Replace(s, next, 0, Basic(Nil)))
    else if op == OP_TRUE then Running(Replace(s, next, 0, Basic(Bool(true))))
    else if op == OP_FALSE then Running(Replace(s, next, 0, Basic(Bool(false))))
    else if Height(s) == 0 then Stuck
    else
      var v := Peek(s, 0);
      if op == OP_POP || op == OP_CLOSE_UPVALUE then Running(Popped(s, next, 1))
      else if op == OP_NOT then Running(Replace(s, next, 1, Basic(Bool(Falsey(v)))))
      else if op == OP_NEGATE then
        if v.Basic? && v.v.Number? then Running(Replace(s, next, 1, Basic(Number(w.pr.negate(v.v.n))))) else Error(s)
      else if op == OP_PRINT then Running(Popped(s, next, 1).(output := s.output + [v]))
      else StepReturn(s)
  }

  function StepJump(op: byte, d: nat, s: Config): Status
    requires Active(s)
  {
    var next := Ip(s) + 3;
    if op == OP_LOOP then (if d <= next then Running(At(s, next - d)) else Stuck)
    else if op == OP_JUMP then Running(At(s, next + d))
    else if Height(s) == 0 then Stuck
    else if Falsey(Peek(s, 0)) == (op == OP_JUMP_IF_FALSE) then Running(At(s, next + d))
    else Running(At(s, next))
  }

  function StepGlobal(op: byte, x: string, s: Config): Status
    requires Active(s)
  {
    var next := Ip(s) + 2;
    if op == OP_GET_GLOBAL then
      if x in s.globals then Running(Replace(s, next, 0, s.globals[x])) else Error(s)
    else if Height(s) == 0 then Stuck
    else if op == OP_DEFINE_GLOBAL then
      Running(Popped(s, next, 1).(globals := s.globals[x := Peek(s, 0)]))
    else if x in s.globals then Running(At(s, next).(globals := s.globals[x := Peek(s, 0)]))
    else Error(s)
  }

  function StepLocal(op: byte, slot: nat, s: Config): Status
    requires Active(s)
  {
    var next := Ip(s) + 2;
    if Base(s) + slot >= Height(s) then Stuck
    else if op == OP_GET_LOCAL then Running(Replace(s, next, 0, Load(s.cells, s.cells.locals[Base(s) + slot])))
    else Running(At(s.(cells := Save(s.cells, s.cells.locals[Base(s) + slot], Peek(s, 0))), next))
  }

  function StepUpvalue(op: byte, i: nat, s: Config): Status
    requires Active(s)
  {
    var next := Ip(s) + 2;
    if i >= |Captured(s)| then Stuck
    else if op == OP_GET_UPVALUE then Running(Replace(s, next, 0, Load(s.cells, Captured(s)[i])))
    else if Height(s) == 0 then Stuck
    else Running(At(s.(cells := Save(s.cells, Captured(s)[i], Peek(s, 0))), next))
  }

  /** A built-in function gives its result; a closure with the right number of arguments becomes one more call, if there
      is room; nothing else can be called. */
  function StepCall(w: World, argc: nat, s: Config): Status
    requires Active(s)
  {
    if Height(s) <= argc then Stuck else
      match Peek(s, argc)
      case Basic(Native(id)) => Running(Replace(s, Ip(s) + 2, argc + 1, Basic(w.builtin(id, Tops(s, argc)))))
      case Closure(id) =>
        if id >= |s.codes| || id >= |s.cells.closures| || s.codes[id].arity != argc || |s.cells.frames| == FRAMES_MAX
        then Error(s)
        else
          var frame := Frame.Frame(id, Height(s) - argc - 1);
          Running(At(s, Ip(s) + 2).(cells := s.cells.(frames := s.cells.frames + [frame]),
            ips := At(s, Ip(s) + 2).ips + [0]))
      case _ => Error(s)
  }

  /** Where the instruction finds a variable for a new closure; the closure itself is on the stack already. */
  function CaptureFrom(s: Config, isLocal: bool, index: nat): Option<nat>
    requires Active(s)
  {
    if isLocal then
      if Base(s) + index < Height(s) then Some(s.cells.locals[Base(s) + index])
      else if Base(s) + index == Height(s) then Some(|s.cells.store|)
      else None
    else if index < |Captured(s)| then Some(Captured(s)[index])
    else None
  }

  /** The cells for the upvalues whose operands begin at `at`. */
  function CaptureAll(s: Config, code: seq<byte>, at: nat, n: nat): Option<seq<nat>>
    requires Active(s) && at + 2 * n <= |code|
    decreases n
  {
    if n == 0 then Some([]) else
      match (CaptureAll(s, code, at, n - 1), CaptureFrom(s, code[at + 2 * n - 2] != 0, code[at + 2 * n - 1]))
      case (Some(cells), Some(cell)) => Some(cells + [cell])
      case _ => None
  }

  function StepClosure(f: F.Function, s: Config): Status
    requires Active(s)
  {
    var code, ip := Code(s).code, Ip(s);
    if ip + 2 + 2 * f.upvalues > |code| then Stuck else
      match CaptureAll(s, code, ip + 2, f.upvalues)
      case None => Stuck
      case Some(cells) =>
        var made := CellMachine.Function.Function(f.arity, cells);
        var grown := Grow(s.cells, Closure(|s.cells.closures|));
        Running(At(s.(cells := grown.(closures := s.cells.closures + [made]), codes := s.codes + [f]),
          ip + 2 + 2 * f.upvalues))
  }

  function StepByte(w: World, op: byte, a: byte, s: Config): Status
    requires Active(s)
  {
    var pool := Code(s).pool;
    if op == OP_CALL then StepCall(w, a, s)
    else if op == OP_GET_LOCAL || op == OP_SET_LOCAL then StepLocal(op, a, s)
    else if op == OP_GET_UPVALUE || op == OP_SET_UPVALUE then StepUpvalue(op, a, s)
    else if a >= |pool| then Stuck
    else if pool[a].Compiled? then (if op == OP_CLOSURE then StepClosure(pool[a].f, s) else Stuck)
    else if op == OP_CLOSURE then Stuck
    else if op == OP_CONSTANT then Running(Replace(s, Ip(s) + 2, 0, Basic(pool[a].v)))
    else if pool[a].v.Str? then StepGlobal(op, pool[a].v.s, s)
    else Stuck
  }

  predicate HasOperand(op: byte) {
    Machine.HasByteOperand(op) || op == OP_GET_UPVALUE || op == OP_SET_UPVALUE || op == OP_CLOSURE
  }

  function Step(w: World, s: Config): Status {
    if !Active(s) || Ip(s) >= |Code(s).code| then Stuck else
      var code, ip := Code(s).code, Ip(s);
      var op := code[ip];
      if Machine.IsBinary(op) then StepBinary(w, op, s)
      else if Machine.IsSimple(op) || op == OP_CLOSE_UPVALUE then StepSimple(w, op, s)
      else if HasOperand(op) && ip + 2 <= |code| then StepByte(w, op, code[ip + 1], s)
      else if Machine.IsJump(op) && ip + 3 <= |code| then StepJump(op, ReadU16(code, ip + 1), s)
      else Stuck
  }

  /** The status after `n` steps; a finished run stays as it is. */
  function Steps(w: World, s: Config, n: nat): Status
    decreases n
  {
    if n == 0 then Running(s) else
      var r := Step(w, s);
      if r.Running? then Steps(w, r.s, n - 1) else r
  }

  lemma {:induction false} StepsCompose(w: World, s: Config, m: nat, n: nat)
    requires Steps(w, s, m).Running?
    ensures Steps(w, s, m + n) == Steps(w, Steps(w, s, m).s, n)
    decreases m
  {
    hide Step;
    if m > 0 { StepsCompose(w, Step(w, s).s, m - 1, n); }
  }

  lemma {:induction false} StepsEnded(w: World, s: Config, m: nat, n: nat)
    requires !Steps(w, s, m).Running? && m <= n
    ensures Steps(w, s, n) == Steps(w, s, m)
    decreases m
  {
    hide Step;
    if Step(w, s).Running? { StepsEnded(w, Step(w, s).s, m - 1, n - 1); }
  }

  lemma OneStep(w: World, s: Config)
    ensures Steps(w, s, 1) == Step(w, s)
  {
  }

  /** The machine before the first instruction of a script: the script's closure is in slot 0 and is called. */
  function Start(f: F.Function, globals: map<string, Datum>): Config {
    Config(Cells.Cells([Closure(0)], [0], [Frame.Frame(0, 0)], [CellMachine.Function.Function(0, [])]), [f], [0],
      globals, [])
  }
}
