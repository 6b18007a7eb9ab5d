/** The dispatch loop for scripts with functions: it reads the bytes of the running function, changes the stack, the
    upvalues and the calls in place, and is proved against the machine on cells, and so against the evaluation. */
module Dispatch {
  import opened Values
  import opened Bytecode
  import opened Functions
  import opened Instructions
  import opened StackTypes
  import opened Legality
  import opened Shown
  import CellMachine
  import Discipline
  import Engine
  import Machine
  import Scripts
  import Upvalues

  /** The next instruction is to be executed, the script has returned, or there was a run-time error. */
  datatype Report = GoesOn | Returned | Stopped

  class Interpreter {
    const w: World
    /** The stack, the calls in progress, the closures and the open upvalues. */
    const vm: Upvalues.Vm
    /** The function of each closure, and the next instruction of each call. */
    var codes: seq<Function>
    var ips: seq<nat>
    var globals: map<string, Datum>
    var output: seq<Datum>
    ghost var s: Config

    ghost predicate Fields()
      reads this
    {
      codes == s.codes && ips == s.ips && globals == s.globals && output == s.output
    }

    ghost predicate Valid()
      reads this, vm, Upvalues.Members(vm.list), vm.shared.Values
    {
      vm.Valid() && vm.spec == s.cells && Fields() && Sane(Picture(s)) && GlobalsOk(s)
    }

    /** What one instruction, or a run, may do. */
    ghost predicate Follows(r: Report, st: Engine.Status)
      reads this, vm, Upvalues.Members(vm.list), vm.shared.Values
    {
      match st
      case Running(t) => r == GoesOn && Valid() && s == t
      case Halted(t) => r == Returned && globals == t.globals && output == t.output
      case Error(t) => r == Stopped && globals == t.globals && output == t.output
      case Stuck => true
    }

    /** The closure of a script is called. */
    constructor (w: World, f: Function, globals: map<string, Datum>)
      requires Sane(Picture(Engine.Start(f, globals))) && GlobalsOk(Engine.Start(f, globals))
      ensures Valid() && fresh(vm) && fresh(vm.shared.Values) && this.w == w && s == Engine.Start(f, globals)
    {
      hide Sane, GlobalsOk;
      this.w, codes, ips, this.globals, output, s := w, [f], [0], globals, [], Engine.Start(f, globals);
      vm := new Upvalues.Vm();
    }

    // ----- the running function -----

    /** The values on the stack are those of the cells. */
    lemma StackShows()
      requires Valid()
      ensures Engine.Active(s) && |vm.stack| == Engine.Height(s) && vm.frames == s.cells.frames
      ensures forall n :: 0 <= n < |vm.stack| ==> vm.stack[|vm.stack| - 1 - n] == Engine.Peek(s, n)
      ensures forall n :: 0 <= n <= |vm.stack| ==> vm.stack[|vm.stack| - n..] == Engine.Tops(s, n)
    {
      hide CellMachine.WellFormed, Sane, Fields, GlobalsOk;
      SaneFetched(s);
      forall n | 0 <= n < |vm.stack|
        ensures vm.stack[|vm.stack| - 1 - n] == Engine.Peek(s, n)
      {
        TopKnown(s, n);
        CellTop(n);
      }
    }

    lemma CellTop(n: nat)
      requires Valid() && n < |vm.stack|
      ensures CellMachine.WellFormed(s.cells) && n < |s.cells.locals|
      ensures vm.stack[|vm.stack| - 1 - n] == CellMachine.TopValue(s.cells, n)
    {
      hide Sane, Fields, GlobalsOk;
    }

    /** The instruction that is next. */
    ghost predicate At(op: byte)
      requires Valid()
      reads this, vm, Upvalues.Members(vm.list), vm.shared.Values
    {
      && Engine.Active(s) && Whole(Engine.Code(s).code, Engine.Code(s).pool, Engine.Ip(s))
      && Current(Picture(s))[0] == op
    }

    /** Carry out the operations of an instruction. */
    method Move(ops: seq<Op>, codes': seq<Function>, ips': seq<nat>, globals': map<string, Datum>, output': seq<Datum>,
        ghost t: Config)
      requires Valid() && Goes(s, ops, t)
      requires t.codes == codes' && t.ips == ips' && t.globals == globals' && t.output == output'
      modifies this, vm, vm.shared.Values
      ensures Valid() && s == t
      ensures forall u :: u in vm.shared.Values ==> u in old(vm.shared.Values) || fresh(u)
    {
      hide Sane, Goes, GlobalsOk, Upvalues.Vm.Valid, CellMachine.WellFormed, CellMachine.LegalRun, CellMachine.Run;
      GoesRuns(s, ops, t);
      GoesSane(s, ops, t);
      var _ := vm.Run(ops);
      label ran:
      codes, ips, globals, output := codes', ips', globals', output';
      s := t;
      assert unchanged@ran(vm, Upvalues.Members(vm.list), vm.shared.Values);
    }

    /** The next instruction of the running call is at `ip`. */
    function Jumped(ip: nat): seq<nat>
      requires |ips| > 0
      reads this
    {
      ips[|ips| - 1 := ip]
    }

    // ----- handlers -----

    method Binary(op: byte) returns (r: Report)
      requires Valid() && At(op) && Machine.IsBinary(op) && !Engine.StepBinary(w, op, s).Stuck?
      modifies this, vm, vm.shared.Values
      ensures Follows(r, old(Engine.StepBinary(w, op, s)))
      ensures forall u :: u in vm.shared.Values ==> u in old(vm.shared.Values) || fresh(u)
    {
      hide Sane, Goes, CellMachine.WellFormed, Fetched, Machine.BinaryOutcome, Machine.IsBinary, Upvalues.Vm.Valid;
      StackShows();
      SaneFetched(s);
      var n, ip := |vm.stack|, ips[|ips| - 1];
      var v := Engine.Operation(w.pr, op, vm.stack[n - 2], vm.stack[n - 1]);
      r := Stopped;
      if v.Some? {
        ghost var t, ins := Engine.StepBinary(w, op, s).s, Current(Picture(s));
        var _ := BinaryGoes(w, s, ins, Taken(ins), t);
        Move(PopsThenPushes(2, v), codes, Jumped(ip + 1), globals, output, t);
        r := GoesOn;
      }
    }

    /** `v` takes the place of the topmost values, as many as the instruction takes. */
    method Simple(op: byte) returns (r: Report)
      requires Valid() && At(op) && Machine.IsSimple(op) && op != OP_RETURN && !Engine.StepSimple(w, op, s).Stuck?
      modifies this, vm, vm.shared.Values
      ensures Follows(r, old(Engine.StepSimple(w, op, s)))
      ensures forall u :: u in vm.shared.Values ==> u in old(vm.shared.Values) || fresh(u)
    {
      hide Sane, Goes, CellMachine.WellFormed, Fetched, Upvalues.Vm.Valid, GlobalsOk;
      StackShows();
      SaneFetched(s);
      var n, next := |vm.stack|, Jumped(ips[|ips| - 1] + 1);
      if op == OP_NEGATE && !(vm.stack[n - 1].Basic? && vm.stack[n - 1].v.Number?) {
        r := Stopped;
        return;
      }
      ghost var t, ins := Engine.StepSimple(w, op, s).s, Current(Picture(s));
      var _ := SimpleGoes(w, s, ins, Taken(ins), t);
      if op == OP_POP {
        Move(PopOps(1), codes, next, globals, output, t);
      } else if op == OP_PRINT {
        Move(PopOps(1), codes, next, globals, output + [vm.stack[n - 1]], t);
      } else if op == OP_NOT {
        Move(PopsThenPushes(1, Some(Basic(Bool(Engine.Falsey(vm.stack[n - 1]))))), codes, next, globals, output, t);
      } else if op == OP_NEGATE {
        var v := Basic(Number(w.pr.negate(vm.stack[n - 1].v.n)));
        Move(PopsThenPushes(1, Some(v)), codes, next, globals, output, t);
      } else {
        var v := if op == OP_NIL then Basic(Value.Nil) else Basic(Bool(op == OP_TRUE));
        Move(PopsThenPushes(0, Some(v)), codes, next, globals, output, t);
      }
      r := GoesOn;
    }

    method CloseUpvalue() returns (r: Report)
      requires Valid() && At(OP_CLOSE_UPVALUE) && !Engine.StepSimple(w, OP_CLOSE_UPVALUE, s).Stuck?
      modifies this, vm, vm.shared.Values
      ensures Follows(r, old(Engine.StepSimple(w, OP_CLOSE_UPVALUE, s)))
      ensures forall u :: u in vm.shared.Values ==> u in old(vm.shared.Values) || fresh(u)
    {
      hide Sane, Goes, CellMachine.WellFormed, Upvalues.Vm.Valid, GlobalsOk;
      SaneFetched(s);
      ghost var t, ins := Engine.StepSimple(w, OP_CLOSE_UPVALUE, s).s, Current(Picture(s));
      var _ := CloseGoes(w, s, ins, Taken(ins), t);
      Move([CellMachine.CloseUpvalue], codes, Jumped(ips[|ips| - 1] + 1), globals, output, t);
      r := GoesOn;
    }

    /** The script's own return ends the run. */
    method Return() returns (r: Report)
      requires Valid() && At(OP_RETURN) && !Engine.StepSimple(w, OP_RETURN, s).Stuck?
      modifies this, vm, vm.shared.Values
      ensures Follows(r, old(Engine.StepSimple(w, OP_RETURN, s)))
      ensures forall u :: u in vm.shared.Values ==> u in old(vm.shared.Values) || fresh(u)
    {
      hide Sane, Goes, CellMachine.WellFormed, Upvalues.Vm.Valid, GlobalsOk;
      StackShows();
      SaneFetched(s);
      if |vm.frames| == 1 {
        r := Returned;
      } else {
        ghost var t, ins := Engine.StepSimple(w, OP_RETURN, s).s, Current(Picture(s));
        var _ := ReturnGoes(w, s, ins, Taken(ins), t);
        Move([CellMachine.Return], codes, ips[..|ips| - 1], globals, output, t);
        r := GoesOn;
      }
    }

    method Jump(op: byte, d: nat) returns (r: Report)
      requires Valid() && At(op) && Machine.IsJump(op) && Engine.Ip(s) + 3 <= |Engine.Code(s).code|
      requires d == ReadU16(Engine.Code(s).code, Engine.Ip(s) + 1) && !Engine.StepJump(op, d, s).Stuck?
      modifies this, vm, vm.shared.Values
      ensures Follows(r, old(Engine.StepJump(op, d, s)))
      ensures forall u :: u in vm.shared.Values ==> u in old(vm.shared.Values) || fresh(u)
    {
      hide Sane, Goes, CellMachine.WellFormed, Upvalues.Vm.Valid, GlobalsOk, ReadU16, Fetched;
      StackShows();
      SaneFetched(s);
      var next := ips[|ips| - 1] + 3;
      ghost var t, ins := Engine.StepJump(op, d, s).s, Current(Picture(s));
      var _ := JumpGoes(s, ins, Taken(ins), t);
      if op == OP_LOOP {
        next := next - d;
      } else if op == OP_JUMP || Engine.Falsey(vm.stack[|vm.stack| - 1]) == (op == OP_JUMP_IF_FALSE) {
        next := next + d;
      }
      Move([], codes, Jumped(next), globals, output, t);
      r := GoesOn;
    }

    /** Constants and globals. */
    method Named(op: byte, k: Constant, ghost a: byte) returns (r: Report)
      requires Valid() && At(op) && op in [OP_CONSTANT, OP_GET_GLOBAL, OP_SET_GLOBAL, OP_DEFINE_GLOBAL]
      requires a < |Engine.Code(s).pool| && k == Engine.Code(s).pool[a] && !Engine.StepByte(w, op, a, s).Stuck?
      modifies this, vm, vm.shared.Values
      ensures Follows(r, old(Engine.StepByte(w, op, a, s)))
      ensures forall u :: u in vm.shared.Values ==> u in old(vm.shared.Values) || fresh(u)
    {
      hide Sane, Goes, CellMachine.WellFormed, Upvalues.Vm.Valid, GlobalsOk, Fetched;
      StackShows();
      SaneFetched(s);
      var n, next := |vm.stack|, Jumped(ips[|ips| - 1] + 2);
      if (op == OP_GET_GLOBAL || op == OP_SET_GLOBAL) && k.v.s !in globals {
        r := Stopped;
        return;
      }
      ghost var t, ins := Engine.StepByte(w, op, a, s).s, Current(Picture(s));
      var _ := NamedGoes(w, s, ins, Taken(ins), a, t);
      if op == OP_CONSTANT {
        Move([CellMachine.Push(Basic(k.v))], codes, next, globals, output, t);
      } else if op == OP_GET_GLOBAL {
        Move([CellMachine.Push(globals[k.v.s])], codes, next, globals, output, t);
      } else {
        var ops := PopOps(if op == OP_DEFINE_GLOBAL then 1 else 0);
        Move(ops, codes, next, globals[k.v.s := vm.stack[n - 1]], output, t);
      }
      r := GoesOn;
    }

    method Variable(op: byte, i: byte) returns (r: Report)
      requires Valid() && At(op) && op in [OP_GET_LOCAL, OP_SET_LOCAL, OP_GET_UPVALUE, OP_SET_UPVALUE]
      requires Engine.Ip(s) + 2 <= |Engine.Code(s).code| && i == Engine.Code(s).code[Engine.Ip(s) + 1]
      requires !Engine.StepByte(w, op, i, s).Stuck?
      modifies this, vm, vm.shared.Values
      ensures Follows(r, old(Engine.StepByte(w, op, i, s)))
      ensures forall u :: u in vm.shared.Values ==> u in old(vm.shared.Values) || fresh(u)
    {
      hide Sane, Goes, CellMachine.WellFormed, Upvalues.Vm.Valid, GlobalsOk, Bytes, Whole;
      SaneFetched(s);
      ghost var t, ins := Engine.StepByte(w, op, i, s).s, Current(Picture(s));
      SlotForm(Engine.Code(s), Engine.Ip(s), ins);
      var next := Jumped(ips[|ips| - 1] + 2);
      if op == OP_GET_LOCAL || op == OP_SET_LOCAL {
        var _ := SlotGoes(s, ins, Taken(ins), t);
        Move([if op == OP_GET_LOCAL then CellMachine.GetLocal(i) else CellMachine.SetLocal(i)], codes, next, globals,
          output, t);
      } else {
        var _ := UpvalueGoes(s, ins, Taken(ins), t);
        Move([if op == OP_GET_UPVALUE then CellMachine.GetUpvalue(i) else CellMachine.SetUpvalue(i)], codes, next,
          globals, output, t);
      }
      r := GoesOn;
    }

    /** A built-in function takes its arguments off the stack and leaves its result. */
    method CallBuiltin(id: nat, argc: byte)
      requires Valid() && At(OP_CALL) && Engine.Ip(s) + 2 <= |Engine.Code(s).code|
      requires argc == Engine.Code(s).code[Engine.Ip(s) + 1] && Engine.StepCall(w, argc, s).Running?
      requires argc < |vm.stack| && vm.stack[|vm.stack| - 1 - argc] == Basic(Native(id))
      modifies this, vm, vm.shared.Values
      ensures Valid() && Engine.Running(s) == old(Engine.StepCall(w, argc, s))
      ensures forall u :: u in vm.shared.Values ==> u in old(vm.shared.Values) || fresh(u)
    {
      hide Sane, Goes, CellMachine.WellFormed, Upvalues.Vm.Valid, GlobalsOk, Bytes, Whole, Engine.Tops;
      StackShows();
      SaneFetched(s);
      SaneArity(s);
      ghost var ins, t := Current(Picture(s)), Engine.StepCall(w, argc, s).s;
      CallForm(Engine.Code(s), Engine.Ip(s), ins);
      var _ := CallGoes(w, s, ins, Taken(ins), argc, t);
      var v := Basic(w.builtin(id, vm.stack[|vm.stack| - argc..]));
      Move(PopsThenPushes(argc as nat + 1, Some(v)), codes, Jumped(ips[|ips| - 1] + 2), globals, output, t);
    }

    /** A closure becomes one more call in progress. */
    method Enter(id: nat, argc: byte)
      requires Valid() && At(OP_CALL) && Engine.Ip(s) + 2 <= |Engine.Code(s).code|
      requires argc == Engine.Code(s).code[Engine.Ip(s) + 1] && Engine.StepCall(w, argc, s).Running?
      requires argc < |vm.stack| && vm.stack[|vm.stack| - 1 - argc] == Closure(id)
      modifies this, vm, vm.shared.Values
      ensures Valid() && Engine.Running(s) == old(Engine.StepCall(w, argc, s))
      ensures forall u :: u in vm.shared.Values ==> u in old(vm.shared.Values) || fresh(u)
    {
      hide Sane, Goes, CellMachine.WellFormed, Upvalues.Vm.Valid, GlobalsOk, Bytes, Whole, Engine.Tops;
      StackShows();
      SaneFetched(s);
      SaneArity(s);
      ghost var ins, t := Current(Picture(s)), Engine.StepCall(w, argc, s).s;
      CallForm(Engine.Code(s), Engine.Ip(s), ins);
      var _ := CallGoes(w, s, ins, Taken(ins), argc, t);
      Move([CellMachine.Call(argc)], codes, Jumped(ips[|ips| - 1] + 2) + [0], globals, output, t);
    }

    method Call(argc: byte) returns (r: Report)
      requires Valid() && At(OP_CALL) && Engine.Ip(s) + 2 <= |Engine.Code(s).code|
      requires argc == Engine.Code(s).code[Engine.Ip(s) + 1] && !Engine.StepCall(w, argc, s).Stuck?
      modifies this, vm, vm.shared.Values
      ensures Follows(r, old(Engine.StepCall(w, argc, s)))
      ensures forall u :: u in vm.shared.Values ==> u in old(vm.shared.Values) || fresh(u)
    {
      hide Sane, CellMachine.WellFormed, Upvalues.Vm.Valid, GlobalsOk, Engine.Tops;
      StackShows();
      SaneArity(s);
      r := Stopped;
      match vm.stack[|vm.stack| - 1 - argc] {
        case Basic(Native(id)) =>
          CallBuiltin(id, argc);
          r := GoesOn;
        case Closure(id) =>
          if id < |codes| && codes[id].arity == argc && |vm.frames| != CellMachine.FRAMES_MAX {
            Enter(id, argc);
            r := GoesOn;
          }
        case _ =>
      }
    }

    method MakeClosure(f: Function, ghost a: byte) returns (r: Report)
      requires Valid() && At(OP_CLOSURE) && Engine.Ip(s) + 2 <= |Engine.Code(s).code|
      requires a == Engine.Code(s).code[Engine.Ip(s) + 1] && a < |Engine.Code(s).pool|
      requires Engine.Code(s).pool[a] == Compiled(f) && !Engine.StepClosure(f, s).Stuck?
      modifies this, vm, vm.shared.Values
      ensures Follows(r, old(Engine.StepClosure(f, s)))
      ensures forall u :: u in vm.shared.Values ==> u in old(vm.shared.Values) || fresh(u)
    {
      hide Sane, Goes, CellMachine.WellFormed, Upvalues.Vm.Valid, GlobalsOk, Bytes, Whole, Engine.CaptureAll,
        CellMachine.Legal;
      StackShows();
      SaneFetched(s);
      SaneClosure(s);
      ghost var t, ins := Engine.StepClosure(f, s).s, Current(Picture(s));
      ClosureForm(Engine.Code(s), Engine.Ip(s), ins);
      var code, ip := codes[vm.frames[|vm.frames| - 1].closure].code, ips[|ips| - 1];
      var _ := ClosureGoes(s, ins, Taken(ins), a, t);
      var captures := CapturesOf(code[ip..ip + 2 + 2 * f.upvalues]);
      Move([CellMachine.MakeClosure(f.arity, captures)], codes + [f], Jumped(ip + 2 + 2 * f.upvalues), globals, output,
        t);
      r := GoesOn;
    }

    // ----- the loop -----

    /** Fetch an instruction and hand it to its handler. */
    method RunOne() returns (r: Report)
      requires Valid() && !Engine.Step(w, s).Stuck?
      modifies this, vm, vm.shared.Values
      ensures Follows(r, old(Engine.Step(w, s)))
      ensures forall u :: u in vm.shared.Values ==> u in old(vm.shared.Values) || fresh(u)
    {
      hide Sane, CellMachine.WellFormed, Upvalues.Vm.Valid, GlobalsOk, Fields, Bytes, Whole, Engine.StepBinary,
        Engine.StepSimple, Engine.StepJump, Engine.StepCall, Engine.StepClosure, Engine.StepGlobal, Engine.StepLocal,
        Engine.StepUpvalue, ReadU16, Follows;
      StackShows();
      FieldsAre();
      SaneFetched(s);
      var f, ip := codes[vm.frames[|vm.frames| - 1].closure], ips[|ips| - 1];
      var op := f.code[ip];
      if Machine.IsBinary(op) {
        r := Binary(op);
      } else if op == OP_CLOSE_UPVALUE {
        r := CloseUpvalue();
      } else if op == OP_RETURN {
        r := Return();
      } else if Machine.IsSimple(op) {
        r := Simple(op);
      } else if Engine.HasOperand(op) {
        var a := f.code[ip + 1];
        if op == OP_CALL {
          r := Call(a);
        } else if op in [OP_GET_LOCAL, OP_SET_LOCAL, OP_GET_UPVALUE, OP_SET_UPVALUE] {
          r := Variable(op, a);
        } else if op == OP_CLOSURE {
          r := MakeClosure(f.pool[a].f, a);
        } else {
          r := Named(op, f.pool[a], a);
        }
      } else {
        r := Jump(op, ReadU16(f.code, ip + 1));
      }
    }

    lemma FieldsAre()
      requires Valid()
      ensures codes == s.codes && ips == s.ips
    {
    }

    /** At most `n` instructions. */
    method Run(n: nat) returns (r: Report)
      requires Valid() && forall k :: !Engine.Steps(w, s, k).Stuck?
      modifies this, vm, vm.shared.Values
      ensures Follows(r, old(Engine.Steps(w, s, n)))
    {
      hide Sane, CellMachine.WellFormed, Upvalues.Vm.Valid, GlobalsOk, Fields, Engine.Step, Engine.Steps;
      r := GoesOn;
      ghost var start, i := s, 0;
      var left := n;
      NoSteps(start);
      while r == GoesOn && left > 0
        invariant i + left == n && !Engine.Steps(w, start, i).Stuck?
        invariant Follows(r, Engine.Steps(w, start, i))
        invariant forall u :: u in vm.shared.Values ==> u in old(vm.shared.Values) || fresh(u)
      {
        assert Engine.Steps(w, start, i) == Engine.Running(s);
        NextStep(start, i);
        r := RunOne();
        left, i := left - 1, i + 1;
      }
      if r != GoesOn { Engine.StepsEnded(w, start, i, n); }
    }

    lemma NoSteps(s: Config)
      ensures Engine.Steps(w, s, 0) == Engine.Running(s)
    {
    }

    lemma NextStep(s: Config, i: nat)
      requires Engine.Steps(w, s, i).Running?
      ensures Engine.Steps(w, s, i + 1) == Engine.Step(w, Engine.Steps(w, s, i).s)
    {
      hide Engine.Step, Engine.Steps;
      Engine.StepsCompose(w, s, i, 1);
      Engine.OneStep(w, Engine.Steps(w, s, i).s);
    }
  }

  // ----- whole scripts -----

  /** Compiled scripts on the machine with its one stack and its list of open upvalues, for at most `n` instructions: a
      run that returns leaves the globals and the output of an evaluation that ends normally,
        a run that stops those of an
      evaluation that fails. */
  method RunScript(w: World, ds: seq<Item>, globals: map<string, Datum>, n: nat) returns (m: Interpreter, r: Report)
    requires Scripts.Ordinary(ds) && Scripts.Plainly(globals) && Discipline.AllClose(ds, TOP, [], SCRIPT)
    ensures match Scripts.RunOf(w, ds, globals, n)
      case Running(s) => r == GoesOn && m.Valid() && m.s == s
      case Halted(_) => r == Returned && Scripts.Ends(w, ds, globals, n + 1, m.globals, m.output)
      case Error(_) => r == Stopped && Scripts.Crashes(w, ds, globals, n + 1, m.globals, m.output)
      case Stuck => false
  {
    hide MakeScript, Functions.Tame, Compact, Discipline.AllClose, Sane, GlobalsOk, Engine.Step, Engine.Steps,
      CellMachine.WellFormed, Upvalues.Vm.Valid;
    var f := MakeScript(ds).f;
    StartsPlain(w, f, globals);
    var _ := RunTraced(w, ds, globals, 0);
    forall k: nat
      ensures !Engine.Steps(w, Engine.Start(f, globals), k).Stuck?
    {
      Scripts.EndedRun(w, ds, globals, k);
    }
    m := new Interpreter(w, f, globals);
    r := m.Run(n);
    Scripts.EndedRun(w, ds, globals, n);
  }
}
