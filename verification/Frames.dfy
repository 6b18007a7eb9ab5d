/** Control over calls and returns: compiler, disassembler and machine agree on where the instructions of
    every function are, closures included, and no frame ever leaves sound chunks. */
module Frames {
  import opened Bytecode
  import opened Machine
  import opened Instructions
  import opened Functions
  import opened SoundCode
  import CellMachine
  import ClosureCode

  /** A call in progress: its function and its next instruction. */
  datatype Frame = Frame(f: Function, ip: nat)

  /** `g` is `f`, or a constant of it, or of one of its constants, and so on. */
  ghost predicate Contains(f: Function, g: Function)
    decreases f
  {
    g == f || exists i :: 0 <= i < |f.pool| && f.pool[i].Compiled? && Contains(f.pool[i].f, g)
  }

  lemma {:induction false} ContainsOk(f: Function, g: Function)
    requires FunctionOk(f) && Contains(f, g)
    ensures FunctionOk(g)
    decreases f
  {
    if g != f {
      var i :| 0 <= i < |f.pool| && f.pool[i].Compiled? && Contains(f.pool[i].f, g);
      ContainsOk(f.pool[i].f, g);
    }
  }

  /** The machine at the top frame: it goes on in its function, calls one of the script's functions, or
      returns.  Which of these, and which function, depends on the values. */
  ghost predicate Moves(script: Function, fs: seq<Frame>, next: seq<Frame>) {
    && fs != []
    && var top, below := fs[|fs| - 1], fs[..|fs| - 1];
    && Whole(top.f.code, top.f.pool, top.ip)
    && var op, len := top.f.code[top.ip], InstrLen(top.f.code, top.f.pool, top.ip);
    || (op == OP_RETURN && next == below)
    || (op == OP_CALL && exists g :: Contains(script, g) && next == below + [Frame(top.f, top.ip + len), Frame(g, 0)])
    || (exists j: nat :: Follows(top.f, top.ip, j) && next == below + [Frame(top.f, j)])
  }

  ghost predicate FrameOk(script: Function, fr: Frame) {
    Contains(script, fr.f) && Inside(fr.f, fr.ip)
  }

  ghost predicate FramesOk(script: Function, fs: seq<Frame>) {
    forall i :: 0 <= i < |fs| ==> FrameOk(script, fs[i])
  }

  lemma StartInside(f: Function)
    requires FunctionOk(f)
    ensures Inside(f, 0)
  {
  }

  lemma MoveStays(script: Function, fs: seq<Frame>, next: seq<Frame>)
    requires FunctionOk(script) && FramesOk(script, fs) && Moves(script, fs, next)
    ensures FramesOk(script, next)
  {
    hide FunctionOk, Inside, Contains, InstrLen, Target;
    var top, below := fs[|fs| - 1], fs[..|fs| - 1];
    var op, len := top.f.code[top.ip], InstrLen(top.f.code, top.f.pool, top.ip);
    assert FrameOk(script, top);
    ContainsOk(script, top.f);
    StaysInside(top.f, top.ip, top.ip + len);
    if op == OP_CALL && exists g :: Contains(script, g) && next == below + [Frame(top.f, top.ip + len), Frame(g, 0)] {
      var g :| Contains(script, g) && next == below + [Frame(top.f, top.ip + len), Frame(g, 0)];
      ContainsOk(script, g);
      StartInside(g);
      assert Follows(top.f, top.ip, top.ip + len);
    } else if op != OP_RETURN || next != below {
      var j: nat :| Follows(top.f, top.ip, j) && next == below + [Frame(top.f, j)];
      StaysInside(top.f, top.ip, j);
    }
  }

  /** A run of a script, from the first instruction of its top level. */
  ghost predicate IsRun(script: Function, run: seq<seq<Frame>>) {
    && run != [] && run[0] == [Frame(script, 0)]
    && forall k :: 0 <= k < |run| - 1 ==> Moves(script, run[k], run[k + 1])
  }

  /** Over every run of every script that compiles, with tame loops and chunks of less than 65535 bytes, through calls
      and returns, every frame is at an instruction of its function. */
  lemma {:induction false} FramesStay(ds: seq<Item>, run: seq<seq<Frame>>, k: nat)
    requires MakeScript(ds).Accepted? && Tame(ds) && Compact(MakeScript(ds).f)
    requires IsRun(MakeScript(ds).f, run) && k < |run|
    ensures FramesOk(MakeScript(ds).f, run[k])
    decreases k
  {
    hide MakeScript, Tame, Compact, FunctionOk, FramesOk, Moves;
    ScriptSound(ds);
    if k == 0 {
      FirstFrame(MakeScript(ds).f);
    } else {
      FramesStay(ds, run, k - 1);
      assert Moves(MakeScript(ds).f, run[k - 1], run[k - 1 + 1]);
      MoveStays(MakeScript(ds).f, run[k - 1], run[k]);
    }
  }

  lemma FirstFrame(f: Function)
    requires FunctionOk(f)
    ensures FramesOk(f, [Frame(f, 0)])
  {
    StartInside(f);
  }

  /** How the machine comes past an instruction: it reads the opcode and, byte after byte, the operands.
      For a closure these are the captures the compiler wrote, in a number the function constant says. */
  method Fetch(f: Function, ip: nat) returns (captures: seq<CellMachine.Capture>, next: nat)
    requires FunctionOk(f) && Inside(f, ip)
    ensures Whole(f.code, f.pool, ip) && next == ip + InstrLen(f.code, f.pool, ip)
    ensures f.code[ip] == OP_CLOSURE ==>
      && ip + 1 < |f.code| && f.code[ip + 1] < |f.pool| && f.pool[f.code[ip + 1]].Compiled?
      && |captures| == f.pool[f.code[ip + 1]].f.upvalues
      && forall i :: 0 <= i < |captures| && !captures[i].isLocal ==> captures[i].index < f.upvalues
  {
    StaysInside(f, ip, ip);
    hide FunctionOk, Inside;
    captures := [];
    var op := f.code[ip];
    if op == OP_CLOSURE {
      var n := f.pool[f.code[ip + 1]].f.upvalues;
      captures, next := ClosureCode.ReadCaptures(f.code, ip, n);
      forall i | 0 <= i < n && !captures[i].isLocal
        ensures captures[i].index < f.upvalues
      {
        assert CaptureOk(f.code, ip + 2 + 2 * i, f.upvalues);
      }
    } else {
      next := ip + 1;
      if HasByteOperand(op) || IsUpvalue(op) {
        next := next + 1;
      } else if IsJump(op) {
        next := next + 2;
      }
    }
  }
}
