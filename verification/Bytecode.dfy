/** The instruction set of a chunk, as bytes. */
module Bytecode {

  type byte = b: int | 0 <= b < 256

  const OP_CONSTANT: byte := 0
  const OP_NIL: byte := 1
  const OP_FALSE: byte := 2
  const OP_POP: byte := 3
  const OP_TRUE: byte := 4
  const OP_GET_PROPERTY: byte := 5
  const OP_SET_PROPERTY: byte := 6
  const OP_GET_SUPER: byte := 7
  const OP_EQUAL: byte := 8
  const OP_GREATER: byte := 9
  const OP_LESS: byte := 10
  const OP_ADD: byte := 11
  const OP_SUBTRACT: byte := 12
  const OP_MULTIPLY: byte := 13
  const OP_DIVIDE: byte := 14
  const OP_MOD: byte := 15
  const OP_SHL: byte := 16
  const OP_SHR: byte := 17
  const OP_NEGATE: byte := 18
  const OP_NOT: byte := 19
  const OP_DEFINE_GLOBAL: byte := 20
  const OP_GET_GLOBAL: byte := 21
  const OP_SET_GLOBAL: byte := 22
  const OP_GET_LOCAL: byte := 23
  const OP_SET_LOCAL: byte := 24
  const OP_GET_UPVALUE: byte := 25
  const OP_SET_UPVALUE: byte := 26
  const OP_JUMP_IF_FALSE: byte := 29
  const OP_JUMP_IF_TRUE: byte := 30
  const OP_JUMP: byte := 31
  const OP_LOOP: byte := 32
  const OP_PRINT: byte := 33
  const OP_CALL: byte := 34
  const OP_CLOSE_UPVALUE: byte := 35
  const OP_CLOSURE: byte := 36
  const OP_RETURN: byte := 37
  const OP_CLASS: byte := 38
  const OP_METHOD: byte := 39
  const OP_INVOKE: byte := 40
  const OP_SUPER_INVOKE: byte := 41

  const UINT8_MAX := 255
  const UINT16_MAX := 65535

  /** A 16-bit operand, least significant byte first; wider numbers lose their upper bits. */
  function U16(n: int): (r: seq<byte>)
    ensures |r| == 2
  {
    [n % 256, n / 256 % 256]
  }

  function ReadU16(code: seq<byte>, at: nat): (r: nat)
    requires at + 2 <= |code|
    ensures r <= UINT16_MAX
  {
    var low: int := code[at];
    var high: int := code[at + 1];
    low + 256 * high
  }

  /** `part` stands in `code` from offset `at` on. */
  ghost predicate Holds(code: seq<byte>, at: nat, part: seq<byte>) {
    at + |part| <= |code| && code[at..at + |part|] == part
  }

  lemma HoldsSplit(code: seq<byte>, at: nat, a: seq<byte>, b: seq<byte>)
    requires Holds(code, at, a + b)
    ensures Holds(code, at, a) && Holds(code, at + |a|, b)
  {
    var w := code[at..at + |a + b|];
    assert code[at..at + |a|] == w[..|a|] == a;
    assert code[at + |a|..at + |a| + |b|] == w[|a|..] == b;
  }

  lemma HoldsJump(code: seq<byte>, at: nat, op: byte, d: nat, rest: seq<byte>)
    requires d <= UINT16_MAX
    requires Holds(code, at, [op] + U16(d) + rest)
    ensures code[at] == op && at + 3 <= |code| && ReadU16(code, at + 1) == d
    ensures Holds(code, at + 3, rest)
  {
    HoldsSplit(code, at, [op] + U16(d), rest);
    var w := code[at..at + 3];
    assert w == [op] + U16(d);
    assert code[at] == w[0] && code[at + 1] == w[1] && code[at + 2] == w[2];
  }
}
