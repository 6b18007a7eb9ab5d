/** The growing buffer of code bytes and line numbers, its constants, and the disassembler's walk. */
module Chunks {
  import opened Bytecode
  import opened Functions
  import opened Instructions
  import opened Machine
  import ClosureCode

  const MIN_CHUNK_SIZE := 8
  const CHUNK_GROWTH_FACTOR := 2

  class Chunk {
    var code: array<byte>
    var lines: array<int>
    var count: nat
    var constants: seq<Constant>

    ghost predicate Valid()
      reads this
    {
      && count <= code.Length == lines.Length && code.Length >= MIN_CHUNK_SIZE
      && code as object != lines
    }

    ghost function Code(): seq<byte>
      requires Valid()
      reads this, code
    {
      code[..count]
    }

    ghost function Lines(): seq<int>
      requires Valid()
      reads this, lines
    {
      lines[..count]
    }

    constructor ()
      ensures Valid() && Code() == [] && Lines() == [] && constants == [] && fresh(code) && fresh(lines)
    {
      code := new byte[MIN_CHUNK_SIZE];
      lines := new int[MIN_CHUNK_SIZE];
      count, constants := 0, [];
    }

    method Grow()
      requires Valid()
      modifies this`code, this`lines
      ensures Valid() && fresh(code) && fresh(lines)
      ensures code.Length == old(code.Length) * CHUNK_GROWTH_FACTOR
      ensures Code() == old(Code()) && Lines() == old(Lines())
    {
      var n := code.Length * CHUNK_GROWTH_FACTOR;
      var c, l := new byte[n], new int[n];
      forall i | 0 <= i < count {
        c[i] := code[i];
      }
      forall i | 0 <= i < count {
        l[i] := lines[i];
      }
      code, lines := c, l;
    }

    /** Append bytes that stand on one line.  The buffer is doubled at most once, which is enough for
        as many bytes as it holds. */
    method WriteBytes(bytes: seq<byte>, line: int)
      requires Valid() && |bytes| <= code.Length
      modifies this`code, this`lines, this`count, code, lines
      ensures Valid() && Code() == old(Code()) + bytes
      ensures |Lines()| == |Code()| && old(Lines()) <= Lines()
      ensures forall i :: old(count) <= i < count ==> lines[i] == line
      ensures code == old(code) || fresh(code)
      ensures lines == old(lines) || fresh(lines)
      ensures code.Length >= old(code.Length)
    {
      if code.Length < count + |bytes| {
        Grow();
      }
      ghost var before, lined, start := Code(), Lines(), count;
      forall i | 0 <= i < |bytes| {
        code[count + i] := bytes[i];
      }
      assert code[..count + |bytes|] == before + bytes;
      assert lines[..count] == lined;
      MarkLines(|bytes|, line);
      assert lines[..start] == lined;
    }

    /** The next `n` bytes stand on this line. */
    method MarkLines(n: nat, line: int)
      requires Valid() && count + n <= code.Length
      modifies this`count, lines
      ensures Valid() && count == old(count) + n
      ensures lines[..old(count)] == old(lines[..count])
      ensures forall i :: old(count) <= i < count ==> lines[i] == line
    {
      var left := n;
      while left > 0
        invariant 0 <= left <= n && count == old(count) + n - left
        invariant lines[..old(count)] == old(lines[..count])
        invariant forall i :: old(count) <= i < count ==> lines[i] == line
      {
        lines[count] := line;
        count := count + 1;
        left := left - 1;
      }
    }

    /** One instruction: its opcode and its operand bytes. */
    method WriteOpcode(op: byte, operands: seq<byte>, line: int)
      requires Valid() && |operands| <= MIN_CHUNK_SIZE
      modifies this`code, this`lines, this`count, code, lines
      ensures Valid() && Code() == old(Code()) + [op] + operands
      ensures old(Lines()) <= Lines() && forall i :: old(count) <= i < count ==> lines[i] == line
      ensures code == old(code) || fresh(code)
      ensures lines == old(lines) || fresh(lines)
    {
      WriteBytes([op], line);
      if operands != [] {
        WriteBytes(operands, line);
      }
    }

    /** The index of an equal constant, or of the new one. */
    method AddConstant(k: Constant) returns (i: nat)
      modifies this`constants
      ensures i == FirstSame(old(constants), k, 0)
      ensures constants == if i < |old(constants)| then old(constants) else old(constants) + [k]
      ensures i < |constants| && constants[i] == k
    {
      i := 0;
      while i < |constants|
        invariant 0 <= i <= |constants| && constants == old(constants)
        invariant FirstSame(constants, k, 0) == FirstSame(constants, k, i)
      {
        if Same(constants[i], k) {
          return;
        }
        i := i + 1;
      }
      constants := constants + [k];
      i := |constants| - 1;
    }

    /** The offset behind the instruction at `offset`; an unknown opcode counts as one byte. */
    method DisassembleInstruction(offset: nat) returns (next: nat)
      requires Valid() && Whole(Code(), constants, offset)
      ensures next == offset + InstrLen(Code(), constants, offset)
    {
      ghost var c := Code();
      var op := code[offset];
      assert c[offset] == op;
      if op == OP_CLOSURE {
        assert c[offset + 1] == code[offset + 1];
        next := ClosureCode.SkipClosure(code[..count], offset, constants[code[offset + 1]].f.upvalues);
      } else if HasByteOperand(op) || IsUpvalue(op) || NamesMember(op) {
        next := offset + 2;
      } else if IsJump(op) || IsInvoke(op) {
        next := offset + 3;
      } else {
        next := offset + 1;
      }
    }

    /** The offsets the disassembler comes to: exactly the instructions, in order. */
    method Disassemble() returns (offsets: seq<nat>)
      requires Valid() && Decodes(Code(), constants, 0)
      ensures forall j: nat :: j in offsets <==> j < count && AtBoundary(Code(), constants, j)
      ensures forall i, j :: 0 <= i < j < |offsets| ==> offsets[i] < offsets[j]
    {
      hide Decodes, InstrLen;
      offsets := [];
      ghost var c := Code();
      var offset := 0;
      WalkStarts(c, constants);
      while offset < count
        invariant c == Code() && Walked(c, constants, offsets, offset)
        decreases count - offset
      {
        WalkStep(c, constants, offsets, offset);
        var next := DisassembleInstruction(offset);
        offsets := offsets + [offset];
        offset := next;
      }
    }
  }

  /** The walk has come to an offset, through exactly the instructions before it. */
  ghost predicate Walked(code: seq<byte>, pool: seq<Constant>, offsets: seq<nat>, offset: nat) {
    && Decodes(code, pool, 0) && AtBoundary(code, pool, offset) && offset <= |code|
    && (forall j: nat :: j in offsets <==> j < offset && AtBoundary(code, pool, j))
    && (forall i, j :: 0 <= i < j < |offsets| ==> offsets[i] < offsets[j])
  }

  lemma WalkStarts(code: seq<byte>, pool: seq<Constant>)
    requires Decodes(code, pool, 0)
    ensures Walked(code, pool, [], 0)
  {
  }

  lemma WalkStep(code: seq<byte>, pool: seq<Constant>, offsets: seq<nat>, offset: nat)
    requires Walked(code, pool, offsets, offset) && offset < |code|
    ensures Whole(code, pool, offset)
    ensures Walked(code, pool, offsets + [offset], offset + InstrLen(code, pool, offset))
  {
    hide InstrLen, Decodes;
    DecodesFrom(code, pool, 0, offset);
    StepReads(code, pool, offset);
    var next := offset + InstrLen(code, pool, offset);
    DecodesFrom(code, pool, offset, next);
    ReadsOn(code, pool, 0, offset, next);
    forall j: nat | j < next && AtBoundary(code, pool, j)
      ensures j <= offset
    {
      if j > offset {
        Through(code, pool, 0, offset, j);
        StepBack(code, pool, offset, j);
      }
    }
    assert forall i :: 0 <= i < |offsets| ==> offsets[i] in offsets;
    forall j: nat
      ensures j in offsets + [offset] <==> j < next && AtBoundary(code, pool, j)
    {
      assert j in offsets + [offset] <==> j in offsets || j == offset;
    }
  }

  lemma StepReads(code: seq<byte>, pool: seq<Constant>, i: nat)
    requires Decodes(code, pool, i) && i < |code|
    ensures Whole(code, pool, i) && Reads(code, pool, i, i + InstrLen(code, pool, i))
  {
  }

  /** No boundary lies inside an instruction. */
  lemma StepBack(code: seq<byte>, pool: seq<Constant>, i: nat, j: nat)
    requires i < |code| && Reads(code, pool, i, j) && i != j
    ensures i + InstrLen(code, pool, i) <= j
  {
    ReadsForward(code, pool, i + InstrLen(code, pool, i), j);
  }
}
