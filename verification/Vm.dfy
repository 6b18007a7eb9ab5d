/** The virtual machine: its instruction handlers change the stack, the globals and the instruction
    pointer in place; each is proved against the transition function. */
module VirtualMachine {
  import opened Values
  import opened Bytecode
  import opened Machine

  class Vm {
    const program: Program
    var ip: nat
    var stack: seq<Value>
    var globals: map<string, Value>
    var output: seq<Value>

    function Now(): Config
      reads this
    {
      Config(ip, stack, globals, output)
    }

    /** A handler's result: it goes on as `r` says, or stops where `r` stops.  A run-time error
        leaves its message on the stack; only the end of the script leaves the stack empty. */
    ghost predicate Follows(ok: bool, r: Status)
      reads this
    {
      match r
      case Running(s) => ok && s == Now()
      case Halted(s) => !ok && s == Now()
      case Error(s) => !ok && s.globals == globals && s.output == output && stack != []
      case Stuck => true
    }

    constructor (p: Program, script: Value, initial: map<string, Value>)
      ensures program == p && Now() == Config(0, [script], initial, [])
    {
      program, ip, stack, globals, output := p, 0, [script], initial, [];
    }

    // ----- the stack -----

    method Push(v: Value)
      modifies this`stack
      ensures stack == old(stack) + [v]
    {
      stack := stack + [v];
    }

    method Pop() returns (v: Value)
      requires |stack| > 0
      modifies this`stack
      ensures stack == old(stack)[..|old(stack)| - 1] && v == old(stack)[|stack|]
    {
      v := stack[|stack| - 1];
      stack := stack[..|stack| - 1];
    }

    function Peek(distance: nat): Value
      requires distance < |stack|
      reads this
    {
      stack[|stack| - 1 - distance]
    }

    method RuntimeError(message: string)
      modifies this`stack
      ensures stack != []
    {
      Push(Str(message));
    }

    // ----- reading the chunk -----

    method ReadU8() returns (b: byte)
      requires ip < |program.code|
      modifies this`ip
      ensures ip == old(ip) + 1 && b == program.code[old(ip)]
    {
      b := program.code[ip];
      ip := ip + 1;
    }

    method ReadOffset() returns (d: nat)
      requires ip + 2 <= |program.code|
      modifies this`ip
      ensures ip == old(ip) + 2 && d == ReadU16(program.code, old(ip))
    {
      ip := ip + 2;
      var high, low: int := program.code[ip - 1], program.code[ip - 2];
      d := high * 256 + low;
    }

    // ----- handlers; `at` is the position of the instruction -----

    method Literal(v: Value)
      modifies this`stack
      ensures stack == old(stack) + [v]
    {
      Push(v);
    }

    method Equal()
      requires |stack| >= 2
      modifies this`stack
      ensures stack == old(stack)[..|old(stack)| - 2] + [Bool(ValueEqual(old(Peek(1)), old(Peek(0))))]
    {
      var b := Pop();
      var a := Pop();
      Push(Bool(ValueEqual(a, b)));
    }

    method Add() returns (ok: bool)
      requires |stack| >= 2
      modifies this`stack
      ensures Binary(ok, OP_ADD, old(stack))
    {
      if Peek(0).Str? && Peek(1).Str? {
        var s2, s1 := Peek(0), Peek(1);
        var s3 := s1.s + s2.s;
        var _ := Pop();
        var _ := Pop();
        Push(Str(s3));
      } else if Peek(0).Number? && Peek(1).Number? {
        var b := Pop();
        var a := Pop();
        Push(Number(program.pr.arith(Plus, a.n, b.n)));
      } else {
        RuntimeError("Operands must be two numbers or two strings");
        return false;
      }
      ok := true;
    }

    /** What a two-operand instruction does to the stack. */
    ghost predicate Binary(ok: bool, op: byte, before: seq<Value>)
      requires |before| >= 2
      reads this
    {
      var r := BinaryOutcome(program.pr, op, before[|before| - 2], before[|before| - 1]);
      ok == r.Some? && (if ok then stack == before[..|before| - 2] + [r.value] else stack != [])
    }

    /** The instructions that take two numbers. */
    method Numeric(op: byte) returns (ok: bool)
      requires |stack| >= 2
      requires op == OP_GREATER || op == OP_LESS || (op != OP_ADD && ArithmeticOf(op).Some?)
      modifies this`stack
      ensures Binary(ok, op, old(stack))
    {
      if !Peek(0).Number? || !Peek(1).Number? {
        RuntimeError("Operands must be numbers");
        return false;
      }
      var b := Pop();
      var a := Pop();
      if op == OP_GREATER {
        Push(Bool(Greater(a.n, b.n)));
      } else if op == OP_LESS {
        Push(Bool(Less(a.n, b.n)));
      } else {
        Push(Number(program.pr.arith(ArithmeticOf(op).value, a.n, b.n)));
      }
      ok := true;
    }

    method Negate() returns (ok: bool)
      requires |stack| >= 1
      modifies this`stack
      ensures ok == old(Peek(0)).Number?
      ensures ok ==> stack == old(stack)[..|old(stack)| - 1] + [Number(program.pr.negate(old(Peek(0)).n))]
      ensures !ok ==> stack != []
    {
      if !Peek(0).Number? {
        RuntimeError("Operand must be a number");
        return false;
      }
      var a := Pop();
      Push(Number(program.pr.negate(a.n)));
      ok := true;
    }

    method Not()
      requires |stack| >= 1
      modifies this`stack
      ensures stack == old(stack)[..|old(stack)| - 1] + [Bool(IsFalsey(old(Peek(0))))]
    {
      var a := Pop();
      Push(Bool(IsFalsey(a)));
    }

    method Print()
      requires |stack| >= 1
      modifies this`stack, this`output
      ensures stack == old(stack)[..|old(stack)| - 1] && output == old(output) + [old(Peek(0))]
    {
      var v := Pop();
      output := output + [v];
    }

    method Jump()
      requires ip + 2 <= |program.code|
      modifies this`ip
      ensures ip == old(ip) + 2 + ReadU16(program.code, old(ip))
    {
      var d := ReadOffset();
      ip := ip + d;
    }

    method JumpIf(falsey: bool)
      requires ip + 2 <= |program.code| && |stack| >= 1
      modifies this`ip
      ensures ip == old(ip) + 2 + if IsFalsey(old(Peek(0))) == falsey then ReadU16(program.code, old(ip)) else 0
    {
      var d := ReadOffset();
      if IsFalsey(Peek(0)) == falsey { ip := ip + d; }
    }

    method Loop()
      requires ip + 2 <= |program.code| && ReadU16(program.code, ip) <= ip + 2
      modifies this`ip
      ensures ip == old(ip) + 2 - ReadU16(program.code, old(ip))
    {
      var d := ReadOffset();
      ip := ip - d;
    }

    method GetGlobal(x: string) returns (ok: bool)
      modifies this`stack
      ensures ok == (x in globals)
      ensures ok ==> stack == old(stack) + [globals[x]]
      ensures !ok ==> stack != []
    {
      if x !in globals {
        RuntimeError("Undefined variable '" + x + "'");
        return false;
      }
      Push(globals[x]);
      ok := true;
    }

    method DefineGlobal(x: string)
      requires |stack| >= 1
      modifies this`stack, this`globals
      ensures globals == old(globals)[x := old(Peek(0))] && stack == old(stack)[..|old(stack)| - 1]
    {
      globals := globals[x := Peek(0)];
      var _ := Pop();
    }

    /** The assignment is made first and taken back if it created the variable. */
    method SetGlobal(x: string) returns (ok: bool)
      requires |stack| >= 1
      modifies this`stack, this`globals
      ensures ok == (x in old(globals))
      ensures ok ==> globals == old(globals)[x := old(Peek(0))] && stack == old(stack)
      ensures !ok ==> globals == old(globals) && stack != []
    {
      var isNew := x !in globals;
      globals := globals[x := Peek(0)];
      if isNew {
        globals := map k | k in globals && k != x :: globals[k];
        RuntimeError("Undefined variable '" + x + "'");
        return false;
      }
      ok := true;
    }

    method Call(argc: byte) returns (ok: bool)
      requires argc < |stack|
      modifies this`stack
      ensures ok == old(Peek(argc)).Native?
      ensures ok ==> stack == old(stack)[..|old(stack)| - argc - 1]
                       + [program.pr.native(old(Peek(argc)).id, old(stack)[|old(stack)| - argc..])]
      ensures !ok ==> stack != []
    {
      var callee := Peek(argc);
      if !callee.Native? {
        RuntimeError("Object not callable");
        return false;
      }
      var result := program.pr.native(callee.id, stack[|stack| - argc..]);
      stack := stack[..|stack| - argc - 1];
      Push(result);
      ok := true;
    }

    /** The return of the script, whose frame is the only one. */
    method Return() returns (ok: bool)
      requires |stack| >= 2
      modifies this`stack
      ensures !ok && stack == old(stack)[..|old(stack)| - 2]
    {
      var _ := Pop();
      var _ := Pop();
      ok := false;
    }

    // ----- dispatch -----

    method RunSimple(op: byte) returns (ok: bool)
      requires IsSimple(op) && ip > 0 && StepSimple(program.pr, op, Now().(ip := ip - 1)) != Stuck
      modifies this`stack, this`output
      ensures Follows(ok, StepSimple(program.pr, op, old(Now()).(ip := ip - 1)))
    {
      ok := true;
      if op == OP_NIL { Literal(Value.Nil); }
      else if op == OP_TRUE { Literal(Bool(true)); }
      else if op == OP_FALSE { Literal(Bool(false)); }
      else if op == OP_POP { var _ := Pop(); }
      else if op == OP_NOT { Not(); }
      else if op == OP_NEGATE { ok := Negate(); }
      else if op == OP_PRINT { Print(); }
      else { ok := Return(); }
      assert old(stack)[..|old(stack)|] == old(stack);
    }

    method RunBinary(op: byte) returns (ok: bool)
      requires IsBinary(op) && ip > 0 && StepBinary(program.pr, op, Now().(ip := ip - 1)) != Stuck
      modifies this`stack
      ensures Follows(ok, StepBinary(program.pr, op, old(Now()).(ip := ip - 1)))
    {
      if op == OP_EQUAL {
        Equal();
        ok := true;
      } else if op == OP_ADD {
        ok := Add();
      } else {
        ok := Numeric(op);
      }
    }

    method RunByte(op: byte) returns (ok: bool)
      requires HasByteOperand(op) && 0 < ip < |program.code|
      requires StepByte(program, op, program.code[ip], Now().(ip := ip - 1)) != Stuck
      modifies this`ip, this`stack, this`globals
      ensures Follows(ok, StepByte(program, op, program.code[old(ip)], old(Now()).(ip := old(ip) - 1)))
    {
      assert stack[..|stack|] == stack;
      var a := ReadU8();
      ok := true;
      if op == OP_CALL { ok := Call(a); }
      else if op == OP_GET_LOCAL { Push(stack[a]); }
      else if op == OP_SET_LOCAL { stack := stack[a := Peek(0)]; }
      else if op == OP_CONSTANT { Push(program.pool[a]); }
      else {
        var x := program.pool[a].s;
        if op == OP_GET_GLOBAL { ok := GetGlobal(x); }
        else if op == OP_SET_GLOBAL { ok := SetGlobal(x); }
        else { DefineGlobal(x); }
      }
    }

    method RunJump(op: byte)
      requires IsJump(op) && ip > 0 && ip + 2 <= |program.code|
      requires StepJump(op, ReadU16(program.code, ip), Now().(ip := ip - 1)) != Stuck
      modifies this`ip
      ensures Follows(true, StepJump(op, ReadU16(program.code, old(ip)), old(Now()).(ip := old(ip) - 1)))
    {
      if op == OP_JUMP { Jump(); }
      else if op == OP_LOOP { Loop(); }
      else { JumpIf(op == OP_JUMP_IF_FALSE); }
    }

    /** One turn of the dispatch loop. */
    method RunOne() returns (ok: bool)
      requires Step(program, Now()) != Stuck
      modifies this
      ensures Follows(ok, Step(program, old(Now())))
    {
      var op := ReadU8();
      if IsBinary(op) { ok := RunBinary(op); }
      else if IsSimple(op) { ok := RunSimple(op); }
      else if HasByteOperand(op) { ok := RunByte(op); }
      else {
        RunJump(op);
        ok := true;
      }
    }

    /** `vm_run` on a run that ends: 0 exactly if it ends with the script's return. */
    method Run(ghost n: nat) returns (status: int)
      requires Steps(program, Now(), n).Halted? || Steps(program, Now(), n).Error?
      requires Steps(program, Now(), n).Halted? ==> Steps(program, Now(), n).s.stack == []
      modifies this
      ensures var r := Steps(program, old(Now()), n);
        && status == (if r.Halted? then 0 else -1)
        && globals == r.s.globals && output == r.s.output
      decreases n
    {
      ghost var start := Now();
      ghost var k := n;
      while true
        invariant Steps(program, Now(), k) == Steps(program, start, n)
        decreases k
      {
        var ok := RunOne();
        if !ok {
          status := if stack == [] then 0 else -1;
          return;
        }
        k := k - 1;
      }
    }
  }
}
