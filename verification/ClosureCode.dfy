/** The instruction that makes a closure: what the compiler writes after its constant is what the
    machine captures, and both agree with the disassembler on where the next instruction is. */
module ClosureCode {
  import opened Bytecode
  import Lexical
  import CellMachine

  /** Two bytes for each upvalue: where it is, and its index there. */
  function Operands(upvalues: seq<Lexical.Entry>): (bytes: seq<byte>)
    requires InRange(upvalues)
    ensures |bytes| == 2 * |upvalues|
    ensures forall i :: 0 <= i < |upvalues| ==>
      bytes[2 * i] == (if upvalues[i].isLocal then 1 else 0) && bytes[2 * i + 1] == upvalues[i].index
  {
    if upvalues == [] then []
    else
      var last := upvalues[|upvalues| - 1];
      Operands(upvalues[..|upvalues| - 1]) + [if last.isLocal then 1 else 0, last.index]
  }

  predicate InRange(upvalues: seq<Lexical.Entry>) {
    forall i :: 0 <= i < |upvalues| ==> upvalues[i].index <= UINT8_MAX
  }

  /** In a well-linked chain every upvalue's index fits in a byte. */
  lemma IndexesFit(chain: seq<Lexical.Level>)
    requires |chain| > 1 && Lexical.WellLinked(chain)
    ensures InRange(chain[0].upvalues)
  {
    assert Lexical.LevelOk(chain[1..][0]);
    forall i | 0 <= i < |chain[0].upvalues|
      ensures chain[0].upvalues[i].index <= UINT8_MAX
    {
      assert Lexical.EntryOk(chain[0].upvalues[i], chain[1]);
    }
  }

  function ClosureBytes(constant: byte, upvalues: seq<Lexical.Entry>): seq<byte>
    requires InRange(upvalues)
  {
    [OP_CLOSURE, constant] + Operands(upvalues)
  }

  /** The captures a compiled function asks for. */
  function Captures(upvalues: seq<Lexical.Entry>): (xs: seq<CellMachine.Capture>)
    ensures |xs| == |upvalues|
    ensures forall i :: 0 <= i < |upvalues| ==> xs[i] == CellMachine.Capture(upvalues[i].isLocal, upvalues[i].index)
  {
    seq(|upvalues|, i requires 0 <= i < |upvalues| => CellMachine.Capture(upvalues[i].isLocal, upvalues[i].index))
  }

  /** Emit the instruction for a function whose compiler has collected these upvalues. */
  method EmitClosure(before: seq<byte>, constant: byte, upvalues: seq<Lexical.Entry>) returns (code: seq<byte>)
    requires InRange(upvalues)
    ensures code == before + ClosureBytes(constant, upvalues)
  {
    code := before + [OP_CLOSURE, constant];
    for i := 0 to |upvalues|
      invariant code == before + ClosureBytes(constant, upvalues[..i])
    {
      assert upvalues[..i + 1][..i] == upvalues[..i];
      code := code + [if upvalues[i].isLocal then 1 else 0];
      code := code + [upvalues[i].index];
    }
    assert upvalues[..|upvalues|] == upvalues;
  }

  /** Read the operands of the instruction at `at`, as the machine does when it makes the closure. */
  method ReadCaptures(code: seq<byte>, at: nat, n: nat) returns (xs: seq<CellMachine.Capture>, ip: nat)
    requires at + 2 + 2 * n <= |code|
    ensures |xs| == n && ip == at + 2 + 2 * n
    ensures forall i :: 0 <= i < n ==>
      xs[i] == CellMachine.Capture(code[at + 2 + 2 * i] != 0, code[at + 2 + 2 * i + 1])
  {
    xs, ip := [], at + 2;
    for j := 0 to n
      invariant |xs| == j && ip == at + 2 + 2 * j
      invariant forall i :: 0 <= i < j ==>
        xs[i] == CellMachine.Capture(code[at + 2 + 2 * i] != 0, code[at + 2 + 2 * i + 1])
    {
      var isLocal := code[ip];
      ip := ip + 1;
      var index: int := code[ip];
      ip := ip + 1;
      xs := xs + [CellMachine.Capture(isLocal != 0, index)];
    }
  }

  /** Where the disassembler finds the next instruction. */
  method SkipClosure(code: seq<byte>, at: nat, n: nat) returns (offset: nat)
    requires at + 2 + 2 * n <= |code|
    ensures offset == at + 2 + 2 * n
  {
    offset := at + 2;
    for j := 0 to n
      invariant offset == at + 2 + 2 * j
    {
      offset := offset + 1;
      offset := offset + 1;
    }
  }

  /** Reading back what the compiler has written: the captures are exactly the function's upvalues,
      in order, and what follows is the next instruction for machine and disassembler alike. */
  method ClosureRoundTrip(before: seq<byte>, constant: byte, upvalues: seq<Lexical.Entry>, after: seq<byte>)
    returns (xs: seq<CellMachine.Capture>, next: nat, offset: nat)
    requires InRange(upvalues)
    ensures xs == Captures(upvalues)
    ensures next == offset == |before + ClosureBytes(constant, upvalues)|
  {
    var code := EmitClosure(before, constant, upvalues);
    code := code + after;
    ReadsBack(before, constant, upvalues, after);
    xs, next := ReadCaptures(code, |before|, |upvalues|);
    offset := SkipClosure(code, |before|, |upvalues|);
    assert xs == Captures(upvalues);
  }

  lemma ReadsBack(before: seq<byte>, constant: byte, upvalues: seq<Lexical.Entry>, after: seq<byte>)
    requires InRange(upvalues)
    ensures var code, at := before + ClosureBytes(constant, upvalues) + after, |before|;
      && at + 2 + 2 * |upvalues| <= |code|
      && code[at] == OP_CLOSURE && code[at + 1] == constant
      && forall i :: 0 <= i < |upvalues| ==>
           (code[at + 2 + 2 * i] != 0) == upvalues[i].isLocal && code[at + 2 + 2 * i + 1] == upvalues[i].index
  {
    var code, at := before + ClosureBytes(constant, upvalues) + after, |before|;
    forall i | 0 <= i < |upvalues|
      ensures (code[at + 2 + 2 * i] != 0) == upvalues[i].isLocal && code[at + 2 + 2 * i + 1] == upvalues[i].index
    {
      assert code[at + 2 + 2 * i] == Operands(upvalues)[2 * i];
      assert code[at + 2 + 2 * i + 1] == Operands(upvalues)[2 * i + 1];
    }
  }
}
