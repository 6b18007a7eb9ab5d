/** The stack machine that executes a chunk: its transition function and the imperative VM. */
module Machine {
  import opened Values
  import opened Bytecode

  datatype Program = Program(code: seq<byte>, pool: seq<Value>, pr: Primitives)

  datatype Config = Config(ip: nat, stack: seq<Value>, globals: map<string, Value>, output: seq<Value>)

  /** A run is going on, has reached the end of the script, has met a run-time error, or has left
      what the instruction set defines. */
  datatype Status = Running(s: Config) | Halted(s: Config) | Error(s: Config) | Stuck

  function Top(s: Config, n: nat): Value
    requires n < |s.stack|
  {
    s.stack[|s.stack| - 1 - n]
  }

  /** Replace the `n` topmost values by `v` and go to `ip`. */
  function Replace(s: Config, ip: nat, n: nat, v: Value): Config
    requires n <= |s.stack|
  {
    s.(ip := ip, stack := s.stack[..|s.stack| - n] + [v])
  }

  function ArithmeticOf(op: byte): Option<NumOp> {
    if op == OP_ADD then Some(Plus)
    else if op == OP_SUBTRACT then Some(Minus)
    else if op == OP_MULTIPLY then Some(Times)
    else if op == OP_DIVIDE then Some(Divide)
    else if op == OP_MOD then Some(Modulo)
    else if op == OP_SHL then Some(ShiftLeft)
    else if op == OP_SHR then Some(ShiftRight)
    else None
  }

  /** The value of a two-operand instruction on operands `a` below `b`; None is a run-time error. */
  function BinaryOutcome(pr: Primitives, op: byte, a: Value, b: Value): Option<Value> {
    if op == OP_EQUAL then Some(Bool(ValueEqual(a, b)))
    else if op == OP_ADD && a.Str? && b.Str? then Some(Str(a.s + b.s))
    else if !a.Number? || !b.Number? then None
    else if op == OP_GREATER then Some(Bool(Greater(a.n, b.n)))
    else if op == OP_LESS then Some(Bool(Less(a.n, b.n)))
    else match ArithmeticOf(op)
      case Some(f) => Some(Number(pr.arith(f, a.n, b.n)))
      case None => None
  }

  predicate IsBinary(op: byte) {
    op == OP_EQUAL || op == OP_GREATER || op == OP_LESS || ArithmeticOf(op).Some?
  }

  predicate IsSimple(op: byte) {
    op == OP_NIL || op == OP_TRUE || op == OP_FALSE || op == OP_POP || op == OP_NOT || op == OP_NEGATE
    || op == OP_PRINT || op == OP_RETURN
  }

  predicate IsJump(op: byte) {
    op == OP_JUMP_IF_FALSE || op == OP_JUMP_IF_TRUE || op == OP_JUMP || op == OP_LOOP
  }

  predicate HasByteOperand(op: byte) {
    op == OP_CONSTANT || op == OP_DEFINE_GLOBAL || op == OP_GET_GLOBAL || op == OP_SET_GLOBAL
    || op == OP_GET_LOCAL || op == OP_SET_LOCAL || op == OP_CALL
  }

  function StepBinary(pr: Primitives, op: byte, s: Config): Status {
    if |s.stack| < 2 then Stuck
    else match BinaryOutcome(pr, op, Top(s, 1), Top(s, 0))
      case Some(v) => Running(Replace(s, s.ip + 1, 2, v))
      case None => Error(s)
  }

  function StepSimple(pr: Primitives, op: byte, s: Config): Status {
    if op == OP_NIL then Running(Replace(s, s.ip + 1, 0, Value.Nil))
    else if op == OP_TRUE then Running(Replace(s, s.ip + 1, 0, Bool(true)))
    else if op == OP_FALSE then Running(Replace(s, s.ip + 1, 0, Bool(false)))
    else if |s.stack| == 0 then Stuck
    else
      var v, below := Top(s, 0), s.stack[..|s.stack| - 1];
      if op == OP_POP then Running(s.(ip := s.ip + 1, stack := below))
      else if op == OP_NOT then Running(Replace(s, s.ip + 1, 1, Bool(IsFalsey(v))))
      else if op == OP_NEGATE then
        if v.Number? then Running(Replace(s, s.ip + 1, 1, Number(pr.negate(v.n)))) else Error(s)
      else if op == OP_PRINT then Running(s.(ip := s.ip + 1, stack := below, output := s.output + [v]))
      // OP_RETURN in the only frame: the result and slot 0 are popped
      else if |s.stack| == 1 then Stuck
      else Halted(s.(ip := s.ip + 1, stack := s.stack[..|s.stack| - 2]))
  }

  function StepJump(op: byte, d: nat, s: Config): Status {
    var next := s.ip + 3;
    if op == OP_LOOP then (if d <= next then Running(s.(ip := next - d)) else Stuck)
    else if op == OP_JUMP then Running(s.(ip := next + d))
    else if |s.stack| == 0 then Stuck
    else if IsFalsey(Top(s, 0)) == (op == OP_JUMP_IF_FALSE) then Running(s.(ip := next + d))
    else Running(s.(ip := next))
  }

  function StepGlobal(op: byte, x: string, s: Config): Status {
    var next := s.ip + 2;
    if op == OP_GET_GLOBAL then
      if x in s.globals then Running(Replace(s, next, 0, s.globals[x])) else Error(s)
    else if |s.stack| == 0 then Stuck
    else if op == OP_DEFINE_GLOBAL then
      Running(Config(next, s.stack[..|s.stack| - 1], s.globals[x := Top(s, 0)], s.output))
    else if x in s.globals then Running(s.(ip := next, globals := s.globals[x := Top(s, 0)]))
    else Error(s)
  }

  /** Only built-in functions can be called: the fragment has no function declarations. */
  function StepCall(pr: Primitives, argc: nat, s: Config): Status {
    if |s.stack| <= argc then Stuck else
      var f := Top(s, argc);
      if f.Native? then
        Running(Replace(s, s.ip + 2, argc + 1, pr.native(f.id, s.stack[|s.stack| - argc..])))
      else Error(s)
  }

  function StepByte(p: Program, op: byte, a: byte, s: Config): Status {
    if op == OP_CALL then StepCall(p.pr, a, s)
    else if op == OP_GET_LOCAL then
      if a < |s.stack| then Running(Replace(s, s.ip + 2, 0, s.stack[a])) else Stuck
    else if op == OP_SET_LOCAL then
      if a < |s.stack| then Running(s.(ip := s.ip + 2, stack := s.stack[a := Top(s, 0)])) else Stuck
    else if a >= |p.pool| then Stuck
    else if op == OP_CONSTANT then Running(Replace(s, s.ip + 2, 0, p.pool[a]))
    else if p.pool[a].Str? then StepGlobal(op, p.pool[a].s, s)
    else Stuck
  }

  function Step(p: Program, s: Config): Status {
    if s.ip >= |p.code| then Stuck else
      var op := p.code[s.ip];
      if IsBinary(op) then StepBinary(p.pr, op, s)
      else if IsSimple(op) then StepSimple(p.pr, op, s)
      else if HasByteOperand(op) && s.ip + 2 <= |p.code| then StepByte(p, op, p.code[s.ip + 1], s)
      else if IsJump(op) && s.ip + 3 <= |p.code| then StepJump(op, ReadU16(p.code, s.ip + 1), s)
      else Stuck
  }

  /** The status after `n` steps; a finished run stays as it is. */
  function Steps(p: Program, s: Config, n: nat): Status
    decreases n
  {
    if n == 0 then Running(s) else
      var r := Step(p, s);
      if r.Running? then Steps(p, r.s, n - 1) else r
  }

  lemma {:induction false} StepsCompose(p: Program, s: Config, m: nat, n: nat)
    requires Steps(p, s, m).Running?
    ensures Steps(p, s, m + n) == Steps(p, Steps(p, s, m).s, n)
    decreases m
  {
    if m > 0 {
      StepsCompose(p, Step(p, s).s, m - 1, n);
    }
  }

  /** A run that has ended is not changed by more steps. */
  lemma {:induction false} StepsEnded(p: Program, s: Config, m: nat, n: nat)
    requires !Steps(p, s, m).Running? && m <= n
    ensures Steps(p, s, n) == Steps(p, s, m)
    decreases m
  {
    if Step(p, s).Running? {
      StepsEnded(p, Step(p, s).s, m - 1, n - 1);
    }
  }
}
