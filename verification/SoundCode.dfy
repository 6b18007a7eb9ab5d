/** Sound chunks.  The code of every tree is sound; the chunk the compiler leaves is that code, and so sound,
    in scripts whose loops are tame and whose functions have less than 65535 bytes: the chunk of the script and
    of every function in it.  `Leaving` has a script for which it is not. */
module SoundCode {
  import opened Values
  import opened Bytecode
  import opened Codegen
  import opened Machine
  import opened Instructions
  import opened Functions
  import ClosureCode
  import ExitSearch
  import Laying
  import Lexical
  import Nesting
  import Patching
  import Pieces
  import Syntax

  // ----- single instructions -----

  lemma NothingSound(pool: seq<Constant>, up: nat)
    ensures Sound([], pool, up, {})
  {
  }

  lemma SingleSound(code: seq<byte>, pool: seq<Constant>, up: nat, exits: set<int>)
    requires code != [] && Whole(code, pool, 0) && |code| == InstrLen(code, pool, 0)
    requires InstrOk(code, pool, up, 0, exits)
    ensures Sound(code, pool, up, exits)
  {
    hide InstrOk, InstrLen;
    assert Decodes(code, pool, |code|);
    forall i: nat | i < |code| && AtBoundary(code, pool, i)
      ensures i == 0
    {
      if i != 0 {
        ReadsForward(code, pool, InstrLen(code, pool, 0), i);
      }
    }
  }

  lemma ByteSound(op: byte, pool: seq<Constant>, up: nat)
    requires IsSimple(op) || IsBinary(op) || op == OP_CLOSE_UPVALUE
    ensures Sound([op], pool, up, {})
  {
    SingleSound([op], pool, up, {});
  }

  lemma OperandSound(op: byte, a: byte, pool: seq<Constant>, up: nat)
    requires HasByteOperand(op) || IsUpvalue(op)
    requires NeedsConstant(op) ==> a < |pool| && pool[a].Plain?
    requires NeedsName(op) ==> pool[a].v.Str?
    requires IsUpvalue(op) ==> a < up
    ensures Sound([op, a], pool, up, {})
  {
    SingleSound([op, a], pool, up, {});
  }

  function Leads(op: byte, d: nat): int {
    if op == OP_LOOP then 3 - d else 3 + d
  }

  lemma JumpSound(op: byte, d: nat, pool: seq<Constant>, up: nat)
    requires IsJump(op) && d <= UINT16_MAX
    ensures Sound(JumpCode(op, d), pool, up, {Leads(op, d)})
  {
    var code := JumpCode(op, d);
    assert code[1] == d % 256 && code[2] == d / 256 % 256;
    assert ReadU16(code, 1) == d;
    SingleSound(code, pool, up, {Leads(op, d)});
  }

  /** A jump with the pop after it, which is where a jump past another one leads. */
  lemma GuardSound(op: byte, d: nat, pool: seq<Constant>, up: nat)
    requires IsJump(op) && d <= UINT16_MAX
    ensures Sound(JumpCode(op, d) + [OP_POP], pool, up, {Leads(op, d)})
    ensures AtBoundary(JumpCode(op, d) + [OP_POP], pool, 3)
  {
    hide JumpCode, Sound;
    JumpSound(op, d, pool, up);
    ByteSound(OP_POP, pool, up);
    JoinSame(JumpCode(op, d), {Leads(op, d)}, [OP_POP], {}, pool, up, {Leads(op, d)});
    EndIsBoundary(JumpCode(op, d), pool, up, {Leads(op, d)});
    OuterBoundary(JumpCode(op, d), [OP_POP], pool, up, {Leads(op, d)}, {}, 3);
  }

  /** Pieces whose outside jumps all stay outside. */
  lemma JoinSame(a: seq<byte>, ea: set<int>, b: seq<byte>, eb: set<int>, pool: seq<Constant>, up: nat,
      exits: set<int>)
    requires Sound(a, pool, up, ea) && Sound(b, pool, up, eb) && ea <= exits
    requires forall e :: e in eb ==> |a| + e in exits
    ensures Sound(a + b, pool, up, exits)
  {
    hide Sound;
    Join(a, ea, b, eb, pool, up, exits);
  }

  lemma EndIsBoundary(code: seq<byte>, pool: seq<Constant>, up: nat, exits: set<int>)
    requires Sound(code, pool, up, exits)
    ensures AtBoundary(code, pool, |code|) && AtBoundary(code, pool, 0)
  {
    ReadsEnd(code, pool, 0);
  }

  lemma OuterBoundary(a: seq<byte>, b: seq<byte>, pool: seq<Constant>, up: nat, ea: set<int>, eb: set<int>, j: nat)
    requires Sound(a, pool, up, ea) && Sound(b, pool, up, eb) && j <= |a| && AtBoundary(a, pool, j)
    ensures AtBoundary(a + b, pool, j)
  {
    JoinedBoundary(a, b, pool, j);
  }

  lemma InnerBoundary(a: seq<byte>, b: seq<byte>, pool: seq<Constant>, up: nat, ea: set<int>, eb: set<int>, j: nat)
    requires Sound(a, pool, up, ea) && Sound(b, pool, up, eb) && AtBoundary(b, pool, j)
    ensures AtBoundary(a + b, pool, |a| + j)
  {
    JoinedBoundary(a, b, pool, |a| + j);
  }

  // ----- conditionals and loops -----

  /** Places counted from `k` bytes further back. */
  function Shift(places: set<int>, k: int): (r: set<int>)
    ensures forall x {:trigger x in r} :: x in r <==> x - k in places
  {
    var r := set x | x in places :: k + x;
    assert forall x :: x in places ==> k + x in r;
    assert forall x {:trigger x in r} :: x - k in places ==> k + (x - k) in r;
    r
  }

  /** A conditional jump over `t` and the jump after it. */
  lemma BranchSound(t: seq<byte>, jump: byte, d: nat, rest: seq<byte>, et: set<int>, er: set<int>,
      pool: seq<Constant>, up: nat, exits: set<int>)
    requires IsJump(jump) && d <= UINT16_MAX && |t| + 4 <= UINT16_MAX
    requires Sound(t, pool, up, et) && Sound(JumpCode(jump, d) + [OP_POP] + rest, pool, up, er)
    requires AtBoundary(JumpCode(jump, d) + [OP_POP] + rest, pool, 3)
    requires forall e :: e in et ==> 4 + e in exits
    requires forall e :: e in er ==> 4 + |t| + e in exits
    ensures Sound((JumpCode(OP_JUMP_IF_FALSE, |t| + 4) + [OP_POP]) + (t + (JumpCode(jump, d) + [OP_POP] + rest)),
      pool, up, exits)
  {
    hide Sound, JumpCode, AtBoundary, Shift;
    var guard, tail := JumpCode(OP_JUMP_IF_FALSE, |t| + 4) + [OP_POP], JumpCode(jump, d) + [OP_POP] + rest;
    GuardSound(OP_JUMP_IF_FALSE, |t| + 4, pool, up);
    var inner := et + Shift(er, |t|);
    JoinSame(t, et, tail, er, pool, up, inner);
    InnerBoundary(t, tail, pool, up, et, er, 3);
    Join(guard, {|t| + 7}, t + tail, inner, pool, up, exits);
  }

  lemma IfSound(c: seq<byte>, t: seq<byte>, e: seq<byte>, pool: seq<Constant>, up: nat, et: set<int>,
      ee: set<int>, exits: set<int>)
    requires Sound(c, pool, up, {}) && Sound(t, pool, up, et) && Sound(e, pool, up, ee)
    requires |t| + 4 <= UINT16_MAX && |e| + 1 <= UINT16_MAX
    requires forall x :: x in et ==> |c| + 4 + x in exits
    requires forall x :: x in ee ==> |c| + 4 + |t| + 4 + x in exits
    ensures Sound(IfCode(c, t, e), pool, up, exits)
  {
    hide Sound, JumpCode, AtBoundary, IfCode, Shift;
    ElseSound(e, ee, pool, up);
    var inner := Shift(et, 4) + Shift(Shift(ee, 4), 4 + |t|);
    BranchSound(t, OP_JUMP, |e| + 1, e, et, Shift(ee, 4), pool, up, inner);
    CondSound(c, t, e, pool, up, inner, exits);
  }

  lemma CondSound(c: seq<byte>, t: seq<byte>, e: seq<byte>, pool: seq<Constant>, up: nat, inner: set<int>,
      exits: set<int>)
    requires Sound(c, pool, up, {})
    requires Sound((JumpCode(OP_JUMP_IF_FALSE, |t| + 4) + [OP_POP])
      + (t + (JumpCode(OP_JUMP, |e| + 1) + [OP_POP] + e)), pool, up, inner)
    requires forall x :: x in inner ==> |c| + x in exits
    ensures Sound(IfCode(c, t, e), pool, up, exits)
  {
    hide Sound, JumpCode, IfCode;
    JoinSame(c, {},
      (JumpCode(OP_JUMP_IF_FALSE, |t| + 4) + [OP_POP]) + (t + (JumpCode(OP_JUMP, |e| + 1) + [OP_POP] + e)),
      inner, pool, up, exits);
    IfParts(c, t, e);
  }

  lemma ElseSound(e: seq<byte>, ee: set<int>, pool: seq<Constant>, up: nat)
    requires Sound(e, pool, up, ee) && |e| + 1 <= UINT16_MAX
    ensures Sound(JumpCode(OP_JUMP, |e| + 1) + [OP_POP] + e, pool, up, Shift(ee, 4))
    ensures AtBoundary(JumpCode(OP_JUMP, |e| + 1) + [OP_POP] + e, pool, 3)
  {
    hide Sound, JumpCode, AtBoundary, Shift;
    var d := |e| + 1;
    var guard := JumpCode(OP_JUMP, d) + [OP_POP];
    GuardSound(OP_JUMP, d, pool, up);
    EndIsBoundary(e, pool, up, ee);
    Join(guard, {3 + d}, e, ee, pool, up, Shift(ee, 4));
    OuterBoundary(guard, e, pool, up, {3 + d}, ee, 3);
  }

  lemma IfParts(c: seq<byte>, t: seq<byte>, e: seq<byte>)
    ensures IfCode(c, t, e) ==
      c + ((JumpCode(OP_JUMP_IF_FALSE, |t| + 4) + [OP_POP]) + (t + (JumpCode(OP_JUMP, |e| + 1) + [OP_POP] + e)))
  {
    hide JumpCode;
  }

  lemma WhileSound(c: seq<byte>, b: seq<byte>, pool: seq<Constant>, up: nat)
    requires Sound(c, pool, up, {}) && Sound(b, pool, up, {-(|c| + 4)})
    requires |c| + |b| + 7 <= UINT16_MAX
    ensures Sound(WhileCode(c, b), pool, up, {})
  {
    hide Sound, JumpCode, AtBoundary;
    var d := |c| + |b| + 7;
    GuardSound(OP_LOOP, d, pool, up);
    var guard := JumpCode(OP_LOOP, d) + [OP_POP];
    assert guard + [] == guard;
    BranchSound(b, OP_LOOP, d, [], {-(|c| + 4)}, {3 - d}, pool, up, {-|c|});
    var rest := (JumpCode(OP_JUMP_IF_FALSE, |b| + 4) + [OP_POP]) + (b + (guard + []));
    EndIsBoundary(c, pool, up, {});
    Join(c, {}, rest, {-|c|}, pool, up, {});
    assert WhileCode(c, b) == c + rest;
  }

  lemma ShortSound(left: seq<byte>, jump: byte, right: seq<byte>, pool: seq<Constant>, up: nat)
    requires jump == OP_JUMP_IF_FALSE || jump == OP_JUMP_IF_TRUE
    requires Sound(left, pool, up, {}) && Sound(right, pool, up, {}) && |right| + 1 <= UINT16_MAX
    ensures Sound(left + (JumpCode(jump, |right| + 1) + [OP_POP]) + right, pool, up, {})
  {
    hide Sound, JumpCode, AtBoundary;
    var d := |right| + 1;
    var guard := JumpCode(jump, d) + [OP_POP];
    GuardSound(jump, d, pool, up);
    EndIsBoundary(right, pool, up, {});
    Join(guard, {3 + d}, right, {}, pool, up, {});
    JoinSame(left, {}, guard + right, {}, pool, up, {});
    assert left + guard + right == left + (guard + right);
  }

  lemma {:induction false} PopsSound(n: nat, pool: seq<Constant>, up: nat)
    ensures Sound(Pops(n), pool, up, {})
    decreases n
  {
    hide Sound;
    if n == 0 {
      NothingSound(pool, up);
      assert Pops(0) == [];
    } else {
      PopsSound(n - 1, pool, up);
      ByteSound(OP_POP, pool, up);
      JoinSame(Pops(n - 1), {}, [OP_POP], {}, pool, up, {});
      assert Pops(n) == Pops(n - 1) + [OP_POP];
    }
  }

  lemma {:induction false} EndLocalsSound(locals: seq<Lexical.Local>, level: int, pool: seq<Constant>, up: nat)
    ensures Sound(EndLocals(locals, level), pool, up, {})
    decreases locals
  {
    hide Sound;
    if locals == [] || locals[|locals| - 1].level <= level {
      NothingSound(pool, up);
    } else {
      var first := if locals[|locals| - 1].captured then OP_CLOSE_UPVALUE else OP_POP;
      ByteSound(first, pool, up);
      EndLocalsSound(locals[..|locals| - 1], level, pool, up);
      JoinSame([first], {}, EndLocals(locals[..|locals| - 1], level), {}, pool, up, {});
    }
  }

  // ----- sound code holds nothing that looks like an open jump -----

  /** The instruction a byte is in. */
  lemma {:induction false} Covering(code: seq<byte>, pool: seq<Constant>, i: nat, k: nat) returns (j: nat)
    requires Decodes(code, pool, i) && i <= k < |code|
    ensures Reads(code, pool, i, j) && j <= k && Whole(code, pool, j) && k < j + InstrLen(code, pool, j)
    decreases |code| - i
  {
    hide InstrLen;
    j := i;
    if k >= i + InstrLen(code, pool, i) {
      j := Covering(code, pool, i + InstrLen(code, pool, i), k);
    }
  }

  /** No instruction begins with 255, no jump leads over 65535 bytes, and of two neighbouring bytes of a capture
      one is 0 or 1. */
  lemma NoneOpen(code: seq<byte>, pool: seq<Constant>, up: nat, k: nat)
    requires Sound(code, pool, up, {}) && |code| < UINT16_MAX && k + 3 <= |code|
    ensures !((code[k] == OP_JUMP_IF_FALSE || code[k] == OP_JUMP) && code[k + 1] == 255 && code[k + 2] == 255)
  {
    hide Reads, Decodes;
    var i := Covering(code, pool, 0, k + 1);
    assert AtBoundary(code, pool, i) && InstrOk(code, pool, up, i, {});
    NextBoundary(code, pool, i);
    var next := i + InstrLen(code, pool, i);
    assert next < |code| ==> InstrOk(code, pool, up, next, {});
    if code[i] == OP_CLOSURE {
      var j := if (k + 1 - i) % 2 == 0 then k + 1 else k + 2;
      assert i + 2 <= j < next ==> CaptureOk(code, j, up);
    }
  }

  lemma SoundQuiet(code: seq<byte>, pool: seq<Constant>, up: nat)
    requires Sound(code, pool, up, {}) && |code| < UINT16_MAX
    ensures Patching.NoPlaceholder(code)
  {
    hide Sound;
    forall k | 0 <= k <= |code| - 3
      ensures !ExitSearch.IsPlaceholder(code, k, OP_JUMP_IF_FALSE) && !ExitSearch.IsPlaceholder(code, k, OP_JUMP)
    {
      NoneOpen(code, pool, up, k);
    }
  }

  // ----- what compiling a piece promises -----

  /** The chunk of a function is sound code with the implicit return behind it, and so are the chunks of the
      functions among its constants. */
  ghost predicate FunctionOk(f: Function)
    decreases f
  {
    && |f.code| >= 2 && f.code[|f.code| - 2..] == [OP_NIL, OP_RETURN]
    && Sound(f.code[..|f.code| - 2], f.pool, f.upvalues, {})
    && forall i :: 0 <= i < |f.pool| && f.pool[i].Compiled? ==> FunctionOk(f.pool[i].f)
  }

  /** The functions that are not too long are sound. */
  ghost predicate PoolOk(pool: seq<Constant>) {
    forall i :: 0 <= i < |pool| && pool[i].Compiled? && Compact(pool[i].f) ==> FunctionOk(pool[i].f)
  }

  /** Functions keep the upvalues they have. */
  ghost predicate UpGrows(chain: seq<Lexical.Level>, after: seq<Lexical.Level>) {
    |chain| == |after| && forall d :: 0 <= d < |chain| ==> chain[d].upvalues <= after[d].upvalues
  }

  function Ups(chain: Chain): nat {
    |chain[0].upvalues|
  }

  /** A piece that compiles leaves the chain well linked, only adds constants and upvalues, and its code is
      sound with what it leaves. */
  ghost predicate Good(m: Made, pool: seq<Constant>, chain: Chain, exits: set<int>) {
    m.Made? ==>
      && Lexical.WellLinked(m.chain) && UpGrows(chain, m.chain) && pool <= m.pool && PoolOk(m.pool)
      && Sound(m.code, m.pool, Ups(m.chain), exits)
  }

  ghost predicate Ready(pool: seq<Constant>, chain: Chain) {
    PoolOk(pool) && Lexical.WellLinked(chain)
  }

  lemma UpGrowsOn(a: Chain, b: Chain, c: Chain)
    requires UpGrows(a, b) && UpGrows(b, c)
    ensures UpGrows(a, c)
  {
  }

  lemma GoodReady(m: Made, pool: seq<Constant>, chain: Chain, exits: set<int>)
    requires Good(m, pool, chain, exits) && m.Made?
    ensures Ready(m.pool, m.chain) && Ups(chain) <= Ups(m.chain)
  {
  }

  /** Two pieces, the second compiled after the first. */
  lemma GoodThen(m: Made, em: set<int>, n: Made, en: set<int>, pool: seq<Constant>, chain: Chain, exits: set<int>)
    requires m.Made? && n.Made? && Good(m, pool, chain, em) && Good(n, m.pool, m.chain, en)
    requires em <= exits && forall e :: e in en ==> |m.code| + e in exits
    ensures Good(Made(m.code + n.code, n.pool, n.chain), pool, chain, exits)
  {
    hide Sound, Lexical.WellLinked, PoolOk;
    UpGrowsOn(chain, m.chain, n.chain);
    Weaken(m.code, m.pool, Ups(m.chain), em, n.pool, Ups(n.chain), em);
    JoinSame(m.code, em, n.code, en, n.pool, Ups(n.chain), exits);
  }

  lemma GoodAppend(m: Made, tail: seq<byte>, pool: seq<Constant>, chain: Chain, exits: set<int>)
    requires Good(m, pool, chain, exits) && m.Made? && Sound(tail, m.pool, Ups(m.chain), {})
    ensures Good(m.Append(tail), pool, chain, exits)
  {
    hide Sound, Lexical.WellLinked, PoolOk, UpGrows;
    JoinSame(m.code, exits, tail, {}, m.pool, Ups(m.chain), exits);
  }

  lemma GoodMore(m: Made, exits: set<int>, pool: seq<Constant>, chain: Chain, exits': set<int>)
    requires Good(m, pool, chain, exits) && exits <= exits'
    ensures Good(m, pool, chain, exits')
  {
    hide Sound, Lexical.WellLinked, PoolOk, UpGrows;
    if m.Made? { Weaken(m.code, m.pool, Ups(m.chain), exits, m.pool, Ups(m.chain), exits'); }
  }

  /** Two pieces whose code comes in the other order. */
  lemma GoodBefore(m: Made, n: Made, pool: seq<Constant>, chain: Chain)
    requires m.Made? && n.Made? && Good(m, pool, chain, {}) && Good(n, m.pool, m.chain, {})
    ensures Good(n.Append(m.code), pool, chain, {})
  {
    hide Sound, Lexical.WellLinked, PoolOk;
    UpGrowsOn(chain, m.chain, n.chain);
    Weaken(m.code, m.pool, Ups(m.chain), {}, n.pool, Ups(n.chain), {});
    JoinSame(n.code, {}, m.code, {}, n.pool, Ups(n.chain), {});
  }

  // ----- constants and names -----

  lemma UpGrowsSelf(chain: Chain)
    ensures UpGrows(chain, chain)
  {
  }

  lemma PoolMore(pool: seq<Constant>, k: Constant)
    requires PoolOk(pool) && (k.Compiled? && Compact(k.f) ==> FunctionOk(k.f))
    ensures PoolOk(pool + [k])
  {
    hide FunctionOk, Compact;
  }

  lemma ConstantGood(op: byte, v: Value, pool: seq<Constant>, chain: Chain)
    requires Ready(pool, chain) && (op == OP_CONSTANT || (NeedsName(op) && v.Str?))
    ensures Good(Functions.WithConstant(op, Plain(v), pool, chain), pool, chain, {})
  {
    hide Sound, Lexical.WellLinked, PoolOk, FirstSame;
    var m := Functions.WithConstant(op, Plain(v), pool, chain);
    UpGrowsSelf(chain);
    PoolMore(pool, Plain(v));
    if m.Made? { OperandSound(op, m.code[1], m.pool, Ups(chain)); }
  }

  lemma {:induction false} AccessGood(ops: Ops, x: string, pool: seq<Constant>, chain: Chain)
    requires Ready(pool, chain) && (ops == GET || ops == SET)
    ensures Good(Functions.Access(ops, x, pool, chain), pool, chain, {})
  {
    hide Sound, Lexical.WellLinked, PoolOk, Functions.WithConstant, Lexical.ResolveUp, Lexical.Newest;
    UpGrowsSelf(chain);
    var slot := Lexical.Newest(chain[0].locals, x);
    if slot >= 0 {
      if slot <= UINT8_MAX { OperandSound(ops.local, slot, pool, Ups(chain)); }
    } else {
      Lexical.LookupGrows(chain, x);
      var u := Lexical.ResolveUp(chain, x);
      LookupUps(chain, u.chain);
      if !u.full && !u.early && u.index <= UINT8_MAX {
        if u.index >= 0 {
          OperandSound(ops.up, u.index, pool, Ups(u.chain));
        } else {
          ConstantGood(ops.global, Str(x), pool, u.chain);
          GoodFrom(Functions.WithConstant(ops.global, Plain(Str(x)), pool, u.chain), pool, chain, u.chain);
        }
      }
    }
  }

  lemma LookupUps(chain: Chain, after: Chain)
    requires Lexical.Grows(chain, after)
    ensures UpGrows(chain, after)
  {
    forall d | 0 <= d < |chain|
      ensures chain[d].upvalues <= after[d].upvalues
    {
      assert Lexical.LevelGrows(chain[d], after[d]);
    }
  }

  /** What is good after a lookup is good from before it. */
  lemma GoodFrom(m: Made, pool: seq<Constant>, chain: Chain, between: Chain)
    requires Good(m, pool, between, {}) && UpGrows(chain, between)
    ensures Good(m, pool, chain, {})
  {
    hide Sound, Lexical.WellLinked, PoolOk;
    if m.Made? { UpGrowsOn(chain, between, m.chain); }
  }

  // ----- expressions -----

  lemma BinarySound(op: Syntax.BinOp, pool: seq<Constant>, up: nat)
    ensures Sound(BinaryCode(op), pool, up, {})
  {
    hide Sound;
    var code := BinaryCode(op);
    ByteSound(code[0], pool, up);
    if |code| == 1 {
      assert code == [code[0]];
    } else {
      ByteSound(code[1], pool, up);
      JoinSame([code[0]], {}, [code[1]], {}, pool, up, {});
      assert code == [code[0]] + [code[1]];
    }
  }

  lemma LiteralGood(v: Value, pool: seq<Constant>, chain: Chain)
    requires Ready(pool, chain)
    ensures Good(MakeLiteral(v, pool, chain), pool, chain, {})
  {
    hide Sound, Lexical.WellLinked, PoolOk, Functions.WithConstant;
    UpGrowsSelf(chain);
    match v
    case Nil => ByteSound(OP_NIL, pool, Ups(chain));
    case Bool(b) => ByteSound(if b then OP_TRUE else OP_FALSE, pool, Ups(chain));
    case _ => ConstantGood(OP_CONSTANT, v, pool, chain);
  }

  lemma ShortGood(jump: byte, m: Made, n: Made, pool: seq<Constant>, chain: Chain)
    requires jump == OP_JUMP_IF_FALSE || jump == OP_JUMP_IF_TRUE
    requires m.Made? && Good(m, pool, chain, {}) && Good(n, m.pool, m.chain, {})
    ensures Good(Short(jump, m.code, n), pool, chain, {})
  {
    hide Sound, Lexical.WellLinked, PoolOk, JumpCode;
    if n.Made? && |n.code| + 1 <= UINT16_MAX {
      UpGrowsOn(chain, m.chain, n.chain);
      Weaken(m.code, m.pool, Ups(m.chain), {}, n.pool, Ups(n.chain), {});
      ShortSound(m.code, jump, n.code, n.pool, Ups(n.chain));
    }
  }

  lemma {:induction false} ExprGood(e: Expr, pool: seq<Constant>, chain: Chain)
    requires Ready(pool, chain)
    ensures Good(MakeExpr(e, pool, chain), pool, chain, {})
    decreases e, 1
  {
    hide Good, Ready, Functions.Access, MakeLiteral, Short, Ups, BinaryCode;
    match e
    case Literal(v) => LiteralGood(v, pool, chain);
    case Variable(x) => AccessGood(GET, x, pool, chain);
    case Assign(x, rhs) =>
      var m := Functions.Access(SET, x, pool, chain);
      AccessGood(SET, x, pool, chain);
      if m.Made? {
        GoodReady(m, pool, chain, {});
        ExprGood(rhs, m.pool, m.chain);
        if MakeExpr(rhs, m.pool, m.chain).Made? { GoodBefore(m, MakeExpr(rhs, m.pool, m.chain), pool, chain); }
        else { NotGood(pool, chain); }
      } else {
        NotGood(pool, chain);
      }
    case Unary(op, a) =>
      var m := MakeExpr(a, pool, chain);
      ExprGood(a, pool, chain);
      if m.Made? {
        ByteSound(UnaryCode(op)[0], m.pool, Ups(m.chain));
        GoodAppend(m, UnaryCode(op), pool, chain, {});
      }
    case Binary(op, a, b) =>
      PairGood(a, b, pool, chain);
      var m := Pair(a, b, pool, chain);
      if m.Made? {
        BinarySound(op, m.pool, Ups(m.chain));
        GoodAppend(m, BinaryCode(op), pool, chain, {});
      } else {
        NotGood(pool, chain);
      }
    case Conj(a, b) => ShortsGood(a, b, OP_JUMP_IF_FALSE, pool, chain);
    case Disj(a, b) => ShortsGood(a, b, OP_JUMP_IF_TRUE, pool, chain);
    case Call(f, args) =>
      var m := MakeExpr(f, pool, chain);
      ExprGood(f, pool, chain);
      if m.Made? {
        GoodReady(m, pool, chain, {});
        ArgsGood(args, m.pool, m.chain);
        var n := MakeArgs(args, m.pool, m.chain);
        if n.Made? && |args| <= UINT8_MAX {
          GoodThen(m, {}, n, {}, pool, chain, {});
          OperandSound(OP_CALL, |args|, n.pool, Ups(n.chain));
          GoodAppend(Made(m.code + n.code, n.pool, n.chain), [OP_CALL, |args|], pool, chain, {});
        } else {
          NotGood(pool, chain);
        }
      } else {
        NotGood(pool, chain);
      }
  }

  lemma NotGood(pool: seq<Constant>, chain: Chain)
    ensures forall m: Made, exits: set<int> :: !m.Made? ==> Good(m, pool, chain, exits)
  {
  }

  /** Two operands, the left one first. */
  function Pair(a: Expr, b: Expr, pool: seq<Constant>, chain: Chain): Made {
    var m := MakeExpr(a, pool, chain);
    if !m.Made? then m else
      var n := MakeExpr(b, m.pool, m.chain);
      if !n.Made? then n else Made(m.code + n.code, n.pool, n.chain)
  }

  lemma {:induction false} PairGood(a: Expr, b: Expr, pool: seq<Constant>, chain: Chain)
    requires Ready(pool, chain)
    ensures Good(Pair(a, b, pool, chain), pool, chain, {})
    decreases if a < b then b else a, 2
  {
    hide Good, Ready, MakeExpr;
    var m := MakeExpr(a, pool, chain);
    ExprGood(a, pool, chain);
    NotGood(pool, chain);
    if m.Made? {
      GoodReady(m, pool, chain, {});
      ExprGood(b, m.pool, m.chain);
      var n := MakeExpr(b, m.pool, m.chain);
      if n.Made? { GoodThen(m, {}, n, {}, pool, chain, {}); }
    }
  }

  lemma {:induction false} ShortsGood(a: Expr, b: Expr, jump: byte, pool: seq<Constant>, chain: Chain)
    requires Ready(pool, chain) && (jump == OP_JUMP_IF_FALSE || jump == OP_JUMP_IF_TRUE)
    ensures var m := MakeExpr(a, pool, chain);
      Good(if !m.Made? then m else Short(jump, m.code, MakeExpr(b, m.pool, m.chain)), pool, chain, {})
    decreases if a < b then b else a, 2
  {
    hide Good, Ready, MakeExpr, Short;
    var m := MakeExpr(a, pool, chain);
    ExprGood(a, pool, chain);
    NotGood(pool, chain);
    if m.Made? {
      GoodReady(m, pool, chain, {});
      ExprGood(b, m.pool, m.chain);
      ShortGood(jump, m, MakeExpr(b, m.pool, m.chain), pool, chain);
    }
  }

  lemma {:induction false} ArgsGood(args: seq<Expr>, pool: seq<Constant>, chain: Chain)
    requires Ready(pool, chain)
    ensures Good(MakeArgs(args, pool, chain), pool, chain, {})
    decreases args, 0
  {
    hide Good, Ready, MakeExpr;
    NotGood(pool, chain);
    if args == [] {
      EmptyGood(pool, chain);
    } else {
      var init, last := args[..|args| - 1], args[|args| - 1];
      var m := MakeArgs(init, pool, chain);
      ArgsGood(init, pool, chain);
      if m.Made? {
        GoodReady(m, pool, chain, {});
        ExprGood(last, m.pool, m.chain);
        if MakeExpr(last, m.pool, m.chain).Made? {
          GoodThen(m, {}, MakeExpr(last, m.pool, m.chain), {}, pool, chain, {});
        }
      }
    }
  }

  lemma EmptyGood(pool: seq<Constant>, chain: Chain)
    requires Ready(pool, chain)
    ensures Good(Made([], pool, chain), pool, chain, {})
  {
    hide Sound, Lexical.WellLinked, PoolOk;
    NothingSound(pool, Ups(chain));
    UpGrowsSelf(chain);
  }

  // ----- locals -----

  /** The locals of the innermost function may change: nothing inside it refers to them. */
  lemma LocalsChange(chain: Chain, locals: seq<Lexical.Local>)
    requires Lexical.WellLinked(chain) && |locals| <= UINT8_MAX + 1
    ensures Lexical.WellLinked(WithLocals(chain, locals)) && UpGrows(chain, WithLocals(chain, locals))
  {
    var after := WithLocals(chain, locals);
    if |chain| > 1 {
      assert after[1..] == chain[1..];
      assert Lexical.EntriesOk(after[0], after[1]);
    }
  }

  lemma LocalsFit(chain: Chain)
    requires Lexical.WellLinked(chain)
    ensures |chain[0].locals| <= UINT8_MAX + 1
  {
  }

  /** The locals are set after a piece. */
  lemma GoodLocals(m: Made, locals: seq<Lexical.Local>, pool: seq<Constant>, chain: Chain, exits: set<int>)
    requires m.Made? && Good(m, pool, chain, exits) && |locals| <= UINT8_MAX + 1
    ensures Good(m.(chain := WithLocals(m.chain, locals)), pool, chain, exits)
  {
    hide Sound, Lexical.WellLinked, PoolOk;
    LocalsChange(m.chain, locals);
    UpGrowsOn(chain, m.chain, WithLocals(m.chain, locals));
  }

  /** The locals are set before a piece. */
  lemma LocalsGood(m: Made, locals: seq<Lexical.Local>, pool: seq<Constant>, chain: Chain, exits: set<int>)
    requires Lexical.WellLinked(chain) && |locals| <= UINT8_MAX + 1
    requires Good(m, pool, WithLocals(chain, locals), exits)
    ensures Good(m, pool, chain, exits)
  {
    hide Sound, Lexical.WellLinked, PoolOk;
    LocalsChange(chain, locals);
    if m.Made? { UpGrowsOn(chain, WithLocals(chain, locals), m.chain); }
  }

  lemma EndScopeGood(m: Made, level: int, pool: seq<Constant>, chain: Chain, exits: set<int>)
    requires Good(m, pool, chain, exits)
    ensures Good(EndScope(m, level), pool, chain, exits)
  {
    hide Sound, Lexical.WellLinked, PoolOk, UpGrows, WithLocals;
    if m.Made? {
      var locals := m.chain[0].locals;
      LocalsFit(m.chain);
      EndLocalsSound(locals, level, m.pool, Ups(m.chain));
      GoodAppend(m, EndLocals(locals, level), pool, chain, exits);
      GoodLocals(m.Append(EndLocals(locals, level)), locals[..|locals| - Deeper(locals, level)], pool, chain, exits);
    }
  }

  lemma FinishGood(m: Made, level: nat, pool: seq<Constant>, chain: Chain)
    requires Good(m, pool, chain, {})
    ensures Good(Finish(m, level), pool, chain, {})
  {
    hide Sound, Lexical.WellLinked, PoolOk, UpGrows, WithLocals;
    if m.Made? {
      var locals := m.chain[0].locals;
      LocalsFit(m.chain);
      if locals != [] {
        GoodLocals(m, locals[|locals| - 1 := locals[|locals| - 1].(level := level)], pool, chain, {});
      }
    }
  }

  // ----- statements -----

  /** Where `continue` leads, counted from a place in a loop. */
  function Outs(c: Spot): set<int> {
    if c.loop.NoLoop? then {} else {0 - c.loop.distance}
  }

  lemma {:induction false} SimpleGood(e: Expr, op: byte, pool: seq<Constant>, chain: Chain, exits: set<int>)
    requires Ready(pool, chain) && IsSimple(op)
    ensures Good(MakeExpr(e, pool, chain).Append([op]), pool, chain, exits)
  {
    hide Good, Ready, MakeExpr, IsSimple, Ups;
    ExprGood(e, pool, chain);
    NotGood(pool, chain);
    var m := MakeExpr(e, pool, chain);
    if m.Made? {
      ByteSound(op, m.pool, Ups(m.chain));
      GoodAppend(m, [op], pool, chain, {});
      GoodMore(m.Append([op]), {}, pool, chain, exits);
    }
  }

  lemma ContinueGood(c: Spot, pool: seq<Constant>, chain: Chain)
    requires Ready(pool, chain)
    ensures Good(MakeStmt(Statement.Continue, c, pool, chain), pool, chain, Outs(c))
  {
    hide Sound, Lexical.WellLinked, PoolOk, Pops, JumpCode, Deeper;
    UpGrowsSelf(chain);
    if c.loop.InLoop? {
      var n := Deeper(chain[0].locals, c.loop.level);
      var d := c.loop.distance + n + 3;
      if d <= UINT16_MAX {
        PopsSound(n, pool, Ups(chain));
        JumpSound(OP_LOOP, d, pool, Ups(chain));
        JoinSame(Pops(n), {}, JumpCode(OP_LOOP, d), {3 - d}, pool, Ups(chain), Outs(c));
      }
    }
  }

  lemma ReturnGood(value: Option<Expr>, c: Spot, pool: seq<Constant>, chain: Chain)
    requires Ready(pool, chain)
    ensures Good(MakeStmt(Statement.Return(value), c, pool, chain), pool, chain, Outs(c))
  {
    hide Sound, Good, Ready, MakeExpr, Ups;
    NotGood(pool, chain);
    if |chain| > 1 {
      match value
      case None =>
        EmptyGood(pool, chain);
        ByteSound(OP_NIL, pool, Ups(chain));
        ByteSound(OP_RETURN, pool, Ups(chain));
        GoodAppend(Made([], pool, chain), [OP_NIL], pool, chain, {});
        GoodAppend(Made([] + [OP_NIL], pool, chain), [OP_RETURN], pool, chain, {});
        assert [] + [OP_NIL] + [OP_RETURN] == [OP_NIL, OP_RETURN];
        GoodMore(Made([OP_NIL, OP_RETURN], pool, chain), {}, pool, chain, Outs(c));
      case Some(e) => SimpleGood(e, OP_RETURN, pool, chain, Outs(c));
    }
  }

  /** A conditional whose parts have been compiled one after the other. */
  lemma IfGood(m: Made, t: Made, f: Made, c: Spot, pool: seq<Constant>, chain: Chain)
    requires m.Made? && t.Made? && f.Made?
    requires Good(m, pool, chain, {}) && Good(t, m.pool, m.chain, Outs(c.Past(|m.code| + 4)))
    requires Good(f, t.pool, t.chain, Outs(c.Past(|m.code| + 4 + |t.code| + 4)))
    requires |t.code| + 4 <= UINT16_MAX && |f.code| + 1 <= UINT16_MAX
    ensures Good(Made(IfCode(m.code, t.code, f.code), f.pool, f.chain), pool, chain, Outs(c))
  {
    hide Sound, Lexical.WellLinked, PoolOk, IfCode;
    var et, ef := Outs(c.Past(|m.code| + 4)), Outs(c.Past(|m.code| + 4 + |t.code| + 4));
    UpGrowsOn(chain, m.chain, t.chain);
    UpGrowsOn(chain, t.chain, f.chain);
    UpGrowsOn(m.chain, t.chain, f.chain);
    Weaken(m.code, m.pool, Ups(m.chain), {}, f.pool, Ups(f.chain), {});
    Weaken(t.code, t.pool, Ups(t.chain), et, f.pool, Ups(f.chain), et);
    IfSound(m.code, t.code, f.code, f.pool, Ups(f.chain), et, ef, Outs(c));
  }

  lemma WhileGood(m: Made, b: Made, c: Spot, pool: seq<Constant>, chain: Chain)
    requires m.Made? && b.Made? && Good(m, pool, chain, {}) && Good(b, m.pool, m.chain, Outs(c.Inside(|m.code|)))
    requires |m.code| + |b.code| + 7 <= UINT16_MAX
    ensures Good(Made(WhileCode(m.code, b.code), b.pool, b.chain), pool, chain, Outs(c))
  {
    hide Sound, Lexical.WellLinked, PoolOk, WhileCode;
    UpGrowsOn(chain, m.chain, b.chain);
    Weaken(m.code, m.pool, Ups(m.chain), {}, b.pool, Ups(b.chain), {});
    WhileSound(m.code, b.code, b.pool, Ups(b.chain));
    Weaken(WhileCode(m.code, b.code), b.pool, Ups(b.chain), {}, b.pool, Ups(b.chain), Outs(c));
  }

  lemma {:induction false} StmtGood(s: Statement, c: Spot, pool: seq<Constant>, chain: Chain)
    requires Ready(pool, chain) && FunctionsTame(s)
    ensures Good(MakeStmt(s, c, pool, chain), pool, chain, Outs(c))
    decreases s, 1
  {
    hide Good, Ready, MakeExpr, MakeItems, EndScope, IfCode, WhileCode, Outs;
    NotGood(pool, chain);
    match s
    case Do(e) => SimpleGood(e, OP_POP, pool, chain, Outs(c));
    case Print(e) => SimpleGood(e, OP_PRINT, pool, chain, Outs(c));
    case Block(items) =>
      ItemsGood(items, c.(level := c.level + 1), pool, chain);
      SameOuts(c);
      EndScopeGood(MakeItems(items, c.(level := c.level + 1), pool, chain), c.level, pool, chain, Outs(c));
    case If(e, t, f) => ConditionalGood(e, t, f, c, pool, chain);
    case While(e, b) =>
      ExprGood(e, pool, chain);
      var m := MakeExpr(e, pool, chain);
      if m.Made? {
        GoodReady(m, pool, chain, {});
        StmtGood(b, c.Inside(|m.code|), m.pool, m.chain);
        var n := MakeStmt(b, c.Inside(|m.code|), m.pool, m.chain);
        if n.Made? && |m.code| + |n.code| + 7 <= UINT16_MAX { WhileGood(m, n, c, pool, chain); }
      }
    case Continue => ContinueGood(c, pool, chain);
    case Return(value) => ReturnGood(value, c, pool, chain);
  }

  lemma SameOuts(c: Spot)
    ensures Outs(c.(level := c.level + 1)) == Outs(c)
  {
  }

  lemma {:induction false} ConditionalGood(e: Expr, t: Statement, f: Option<Statement>, c: Spot, pool: seq<Constant>,
      chain: Chain)
    requires Ready(pool, chain) && FunctionsTame(Statement.If(e, t, f))
    ensures Good(MakeStmt(Statement.If(e, t, f), c, pool, chain), pool, chain, Outs(c))
    decreases Statement.If(e, t, f), 0
  {
    hide Good, Ready, MakeExpr, MakeStmt, IfCode, Outs;
    IfMade(e, t, f, c, pool, chain);
    NotGood(pool, chain);
    var m := MakeExpr(e, pool, chain);
    ExprGood(e, pool, chain);
    if m.Made? {
      GoodReady(m, pool, chain, {});
      var past := c.Past(|m.code| + 4);
      StmtGood(t, past, m.pool, m.chain);
      var n := MakeStmt(t, past, m.pool, m.chain);
      if n.Made? {
        GoodReady(n, m.pool, m.chain, Outs(past));
        var after := c.Past(|m.code| + 4 + |n.code| + 4);
        var k := if f.None? then Made([], n.pool, n.chain) else MakeStmt(f.value, after, n.pool, n.chain);
        if f.None? {
          EmptyGood(n.pool, n.chain);
          GoodMore(k, {}, n.pool, n.chain, Outs(after));
        } else {
          StmtGood(f.value, after, n.pool, n.chain);
        }
        if k.Made? && |n.code| + 4 <= UINT16_MAX && |k.code| + 1 <= UINT16_MAX { IfGood(m, n, k, c, pool, chain); }
      }
    }
  }

  // ----- declarations and functions -----

  lemma InitGood(init: Option<Expr>, pool: seq<Constant>, chain: Chain)
    requires Ready(pool, chain)
    ensures Good(MakeInit(init, pool, chain), pool, chain, {})
  {
    hide Good, Ready, MakeExpr, Ups;
    match init
    case None =>
      EmptyGood(pool, chain);
      ByteSound(OP_NIL, pool, Ups(chain));
      GoodAppend(Made([], pool, chain), [OP_NIL], pool, chain, {});
      assert [] + [OP_NIL] == [OP_NIL];
    case Some(e) => ExprGood(e, pool, chain);
  }

  lemma {:induction false} ItemsGood(ds: seq<Item>, c: Spot, pool: seq<Constant>, chain: Chain)
    requires Ready(pool, chain) && ItemsTame(ds)
    ensures Good(MakeItems(ds, c, pool, chain), pool, chain, Outs(c))
    decreases ds, 0
  {
    hide Good, Ready, MakeItem;
    NotGood(pool, chain);
    if ds == [] {
      EmptyGood(pool, chain);
      GoodMore(Made([], pool, chain), {}, pool, chain, Outs(c));
    } else {
      var init, last := ds[..|ds| - 1], ds[|ds| - 1];
      var m := MakeItems(init, c, pool, chain);
      ItemsGood(init, c, pool, chain);
      if m.Made? {
        GoodReady(m, pool, chain, Outs(c));
        ItemGood(last, c.Past(|m.code|), m.pool, m.chain);
        var n := MakeItem(last, c.Past(|m.code|), m.pool, m.chain);
        if n.Made? { GoodThen(m, Outs(c), n, Outs(c.Past(|m.code|)), pool, chain, Outs(c)); }
      }
    }
  }

  lemma {:induction false} ItemGood(d: Item, c: Spot, pool: seq<Constant>, chain: Chain)
    requires Ready(pool, chain) && ItemTame(d)
    ensures Good(MakeItem(d, c, pool, chain), pool, chain, Outs(c))
    decreases d, 2
  {
    hide Good, MakeStmt, MakeInit, MakeFunction, Functions.WithConstant, WithLocals, Outs, Lexical.WellLinked, PoolOk;
    NotGood(pool, chain);
    match d
    case Stat(s) => StmtGood(s, c, pool, chain);
    case Var(x, init) =>
      if c.level == 0 {
        var def := Functions.WithConstant(OP_DEFINE_GLOBAL, Plain(Str(x)), pool, chain);
        ConstantGood(OP_DEFINE_GLOBAL, Str(x), pool, chain);
        if def.Made? {
          GoodReady(def, pool, chain, {});
          InitGood(init, def.pool, def.chain);
          DefineGood(def, MakeInit(init, def.pool, def.chain), c, pool, chain);
        }
      } else if |chain[0].locals| <= UINT8_MAX {
        var locals := chain[0].locals + [Lexical.Local(x, -1, false)];
        LocalsChange(chain, locals);
        InitGood(init, pool, WithLocals(chain, locals));
        LocalsGood(MakeInit(init, pool, WithLocals(chain, locals)), locals, pool, chain, {});
        FinishGood(MakeInit(init, pool, WithLocals(chain, locals)), c.level, pool, chain);
        GoodMore(Finish(MakeInit(init, pool, WithLocals(chain, locals)), c.level), {}, pool, chain, Outs(c));
      }
    case Fun(x, params, body) =>
      if c.level == 0 {
        var def := Functions.WithConstant(OP_DEFINE_GLOBAL, Plain(Str(x)), pool, chain);
        ConstantGood(OP_DEFINE_GLOBAL, Str(x), pool, chain);
        if def.Made? {
          GoodReady(def, pool, chain, {});
          FunctionGood(params, body, def.pool, def.chain);
          DefineGood(def, MakeFunction(params, body, def.pool, def.chain), c, pool, chain);
        }
      } else if |chain[0].locals| <= UINT8_MAX {
        var locals := chain[0].locals + [Lexical.Local(x, c.level, false)];
        LocalsChange(chain, locals);
        FunctionGood(params, body, pool, WithLocals(chain, locals));
        LocalsGood(MakeFunction(params, body, pool, WithLocals(chain, locals)), locals, pool, chain, {});
        GoodMore(MakeFunction(params, body, pool, WithLocals(chain, locals)), {}, pool, chain, Outs(c));
      }
  }

  lemma DefineGood(def: Made, value: Made, c: Spot, pool: seq<Constant>, chain: Chain)
    requires def.Made? && Good(def, pool, chain, {}) && Good(value, def.pool, def.chain, {})
    ensures Good(Define(def, value), pool, chain, Outs(c))
  {
    hide Good;
    NotGood(pool, chain);
    if value.Made? {
      GoodBefore(def, value, pool, chain);
      GoodMore(value.Append(def.code), {}, pool, chain, Outs(c));
    }
  }

  /** A function starts behind the functions around it. */
  lemma InnerReady(params: seq<Ident>, chain: Chain)
    requires Lexical.WellLinked(chain) && |params| <= UINT8_MAX
    ensures Ready([], Enter(params, chain)) && Enter(params, chain)[1..] == chain
  {
    assert Enter(params, chain)[1..] == chain;
  }

  lemma {:induction false} FunctionGood(params: seq<Ident>, body: seq<Item>, pool: seq<Constant>, chain: Chain)
    requires Ready(pool, chain) && ItemsOutline(body).Tame() && ItemsTame(body)
    ensures Good(MakeFunction(params, body, pool, chain), pool, chain, {})
    decreases body, 3
  {
    hide Good, MakeItems, LayItems, ItemsTame, ItemsOutline, MakeClosure, Lexical.WellLinked, Compact, FunctionOk;
    NotGood(pool, chain);
    if |params| <= UINT8_MAX && Distinct(params) {
      var start := Enter(params, chain);
      InnerReady(params, chain);
      var inner := LayItems(body, BODY, start);
      if inner.Made? {
        ChunkGood(|params|, body, BODY, start);
        ClosureGood(|params|, inner, start, pool, chain);
      }
    }
  }

  /** The chunk of a tame function is sound if it is not too long. */
  lemma {:induction false} ChunkGood(arity: nat, body: seq<Item>, c: Spot, chain: Chain)
    requires Ready([], chain) && c.loop.NoLoop? && ItemsOutline(body).Tame() && ItemsTame(body)
    requires LayItems(body, c, chain).Made?
    ensures var r := LayItems(body, c, chain);
      && Lexical.WellLinked(r.chain) && UpGrows(chain, r.chain)
      && (Compact(Ended(arity, r)) ==> FunctionOk(Ended(arity, r)))
    decreases body, 2
  {
    hide MakeItems, ItemsTame, ItemsOutline, Lexical.WellLinked, UpGrows, Sound, FunctionOk, PoolOk;
    ItemsGood(body, c, [], chain);
    var m, r := MakeItems(body, c, [], chain), LayItems(body, c, chain);
    LaidSize(body, c, chain);
    if Compact(Ended(arity, r)) {
      TameChunk(body, c, chain);
      CompactPool(arity, m);
      EndedOk(arity, m);
    }
  }

  lemma CompactPool(arity: nat, m: Made)
    requires m.Made? && PoolOk(m.pool) && Compact(Ended(arity, m))
    ensures forall i :: 0 <= i < |m.pool| && m.pool[i].Compiled? ==> FunctionOk(m.pool[i].f)
  {
    hide FunctionOk;
  }

  /** Searches change the code of a function, nothing else. */
  lemma LaidSize(body: seq<Item>, c: Spot, chain: Chain)
    requires LayItems(body, c, chain).Made?
    ensures var m, r := MakeItems(body, c, [], chain), LayItems(body, c, chain);
      m.Made? && r == m.(code := r.code) && |r.code| == |m.code|
  {
    hide MakeItems, ShapeItems, ItemsOutline, Pieces.Lay, Pieces.CodeOf, Pieces.Fits;
    ItemsShaped(body, c, [], chain);
    Pieces.LayGrown(ShapeItems(body, c, [], chain), ExitSearch.Done([]));
  }

  /** The chunk of a tame function of less than 65535 bytes is the code of its tree. */
  lemma {:induction false} TameChunk(body: seq<Item>, c: Spot, chain: Chain)
    requires Ready([], chain) && c.loop.NoLoop? && ItemsOutline(body).Tame() && ItemsTame(body)
    requires MakeItems(body, c, [], chain).Made? && |MakeItems(body, c, [], chain).code| < UINT16_MAX
    ensures LayItems(body, c, chain) == MakeItems(body, c, [], chain)
    decreases body, 1
  {
    hide MakeItems, ShapeItems, ItemsTame, ItemsOutline, Sound, Ready, PoolOk, Pieces.Lay, Pieces.CodeOf, Pieces.Fits,
      Patching.NoPlaceholder;
    ItemsGood(body, c, [], chain);
    var m := MakeItems(body, c, [], chain);
    ItemsShaped(body, c, [], chain);
    SoundQuiet(m.code, m.pool, Ups(m.chain));
    Nesting.TameLaid(ShapeItems(body, c, [], chain));
  }

  /** And for a function of less than 65535 bytes with no loop in a first branch: wherever the compiler comes to
      its end, the chunk is the code of its tree if and only if no loop is in a loop. */
  lemma {:induction false} NestedChunk(body: seq<Item>, c: Spot, chain: Chain)
    requires Ready([], chain) && c.loop.NoLoop? && ItemsOutline(body).FirstsPlain() && ItemsTame(body)
    requires LayItems(body, c, chain).Made? && |LayItems(body, c, chain).code| < UINT16_MAX
    ensures MakeItems(body, c, [], chain).Made?
    ensures LayItems(body, c, chain).code == MakeItems(body, c, [], chain).code <==> !ItemsOutline(body).Nested()
  {
    hide MakeItems, ShapeItems, ItemsTame, ItemsOutline, Sound, Ready, PoolOk, Pieces.Lay, Pieces.CodeOf, Pieces.Fits,
      Patching.NoPlaceholder, Laying.Clear;
    LaidSize(body, c, chain);
    ItemsGood(body, c, [], chain);
    var m, p := MakeItems(body, c, [], chain), ShapeItems(body, c, [], chain);
    ItemsShaped(body, c, [], chain);
    SoundQuiet(m.code, m.pool, Ups(m.chain));
    assert [] + m.code == m.code;
    Laying.PlainIsClear(p, []);
    Nesting.NoneNested(p);
  }

  /** The function's chunk and the closure instruction that refers to it. */
  lemma ClosureGood(arity: nat, inner: Made, start: Chain, pool: seq<Constant>, chain: Chain)
    requires inner.Made? && Lexical.WellLinked(inner.chain) && UpGrows(start, inner.chain) && |start| > 1
    requires start[1..] == chain && Ready(pool, chain)
    requires Compact(Ended(arity, inner)) ==> FunctionOk(Ended(arity, inner))
    ensures |inner.chain| > 1 && Good(MakeClosure(arity, inner, pool), pool, chain, {})
  {
    hide Sound, PoolOk, Lexical.LevelOk, FirstSame, Compact, FunctionOk;
    var upvalues, outer := inner.chain[0].upvalues, inner.chain[1..];
    var f := Ended(arity, inner);
    NeverSame(pool, f, 0);
    PoolMore(pool, Compiled(f));
    OuterGrows(start, inner.chain);
    if |pool| <= UINT8_MAX && ClosureCode.InRange(upvalues) {
      ClosureSound(|pool|, inner.chain[0], inner.chain[1], pool + [Compiled(f)]);
    }
  }

  lemma {:induction false} NeverSame(pool: seq<Constant>, f: Function, i: nat)
    requires i <= |pool|
    ensures FirstSame(pool, Compiled(f), i) == |pool|
    decreases |pool| - i
  {
    if i < |pool| { NeverSame(pool, f, i + 1); }
  }

  lemma EndedOk(arity: nat, m: Made)
    requires m.Made? && Sound(m.code, m.pool, Ups(m.chain), {})
    requires forall i :: 0 <= i < |m.pool| && m.pool[i].Compiled? ==> FunctionOk(m.pool[i].f)
    ensures FunctionOk(Ended(arity, m))
  {
    hide Sound;
    var f := Ended(arity, m);
    assert f.code[..|f.code| - 2] == m.code && f.code[|f.code| - 2..] == [OP_NIL, OP_RETURN];
  }

  /** What an inner function leaves of the functions around it. */
  lemma OuterGrows(start: Chain, after: Chain)
    requires Lexical.WellLinked(after) && UpGrows(start, after) && |start| > 1
    ensures Lexical.WellLinked(after[1..]) && UpGrows(start[1..], after[1..])
    ensures Lexical.EntriesOk(after[0], after[1])
  {
    forall d | 0 <= d < |start[1..]|
      ensures start[1..][d].upvalues <= after[1..][d].upvalues
    {
      assert start[d + 1].upvalues <= after[d + 1].upvalues;
    }
  }

  /** A closure instruction captures slots and upvalues of the function it is in. */
  lemma ClosureSound(i: byte, inner: Lexical.Level, outer: Lexical.Level, pool: seq<Constant>)
    requires i < |pool| && pool[i].Compiled? && pool[i].f.upvalues == |inner.upvalues|
    requires Lexical.EntriesOk(inner, outer) && ClosureCode.InRange(inner.upvalues)
    ensures Sound([OP_CLOSURE, i] + ClosureCode.Operands(inner.upvalues), pool, |outer.upvalues|, {})
  {
    var code := [OP_CLOSURE, i] + ClosureCode.Operands(inner.upvalues);
    forall j | 2 <= j < |code| && (j - 0) % 2 == 0
      ensures CaptureOk(code, j, |outer.upvalues|)
    {
      var k := (j - 2) / 2;
      assert j == 2 + 2 * k;
      assert code[j] == ClosureCode.Operands(inner.upvalues)[2 * k];
      assert code[j + 1] == ClosureCode.Operands(inner.upvalues)[2 * k + 1];
      assert Lexical.EntryOk(inner.upvalues[k], outer);
    }
    SingleSound(code, pool, |outer.upvalues|, {});
  }

  /** Every script that compiles, with functions and closures at any depth, whose loops are tame and whose chunks
      have less than 65535 bytes: every chunk the compiler leaves is whole known instructions from first to last
      byte, with constants in range and of the right kind, upvalues the function has, closures that capture what
      the function around them has, and every jump to an instruction; and it ends with a return. */
  lemma ScriptSound(ds: seq<Item>)
    requires MakeScript(ds).Accepted? && Tame(ds) && Compact(MakeScript(ds).f)
    ensures FunctionOk(MakeScript(ds).f)
  {
    hide LayItems, ItemsTame, ItemsOutline, Sound, PoolOk, FunctionOk, Compact, Ready;
    ScriptReady();
    ChunkGood(0, ds, TOP, SCRIPT);
  }

  /** And every such script is accepted, with the code of its tree, if its code alone is that short. */
  lemma ScriptChunk(ds: seq<Item>)
    requires Tame(ds) && MakeItems(ds, TOP, [], SCRIPT).Made? && |MakeItems(ds, TOP, [], SCRIPT).code| < UINT16_MAX
    ensures MakeScript(ds) == Accepted(Ended(0, MakeItems(ds, TOP, [], SCRIPT)))
  {
    hide LayItems, MakeItems, ItemsTame, ItemsOutline, Ready;
    ScriptReady();
    TameChunk(ds, TOP, SCRIPT);
  }

  lemma ScriptReady()
    ensures Ready([], SCRIPT)
  {
  }

  /** The limits on indexes in `Functions` are never met: in a well-linked chain every slot and every upvalue
      index fits in a byte. */
  lemma NoneTooLarge(chain: Chain, x: string)
    requires Lexical.WellLinked(chain)
    ensures Lexical.Newest(chain[0].locals, x) <= UINT8_MAX && Lexical.ResolveUp(chain, x).index <= UINT8_MAX
    ensures |chain| > 1 ==> ClosureCode.InRange(chain[0].upvalues)
  {
    Lexical.LookupGrows(chain, x);
    LocalsFit(chain);
    hide Lexical.WellLinked, Lexical.ResolveUp;
    if |chain| > 1 { ClosureCode.IndexesFit(chain); }
  }

  // ----- inside a function -----

  /** An instruction of the function, not behind its last one. */
  ghost predicate Inside(f: Function, i: int) {
    0 <= i < |f.code| && AtBoundary(f.code, f.pool, i)
  }

  /** From the instruction at `i` control may go on at `j` in the same function. */
  predicate Follows(f: Function, i: nat, j: int)
    requires Whole(f.code, f.pool, i)
  {
    if f.code[i] == OP_RETURN then false
    else if f.code[i] == OP_JUMP || f.code[i] == OP_LOOP then j == Target(f.code, i)
    else j == i + InstrLen(f.code, f.pool, i) || (IsJump(f.code[i]) && j == Target(f.code, i))
  }

  const RETURNS: seq<byte> := [OP_NIL, OP_RETURN]

  lemma ReturnsSound(pool: seq<Constant>, up: nat)
    ensures Sound(RETURNS, pool, up, {})
    ensures forall i: nat :: AtBoundary(RETURNS, pool, i) ==> i <= 2
  {
    hide Sound;
    ByteSound(OP_NIL, pool, up);
    ByteSound(OP_RETURN, pool, up);
    JoinSame([OP_NIL], {}, [OP_RETURN], {}, pool, up, {});
    assert [OP_NIL] + [OP_RETURN] == RETURNS;
    BoundaryWithin(RETURNS, pool, up);
  }

  lemma BoundaryWithin(code: seq<byte>, pool: seq<Constant>, up: nat)
    requires Sound(code, pool, up, {})
    ensures forall i: nat :: AtBoundary(code, pool, i) ==> i <= |code|
  {
    forall i: nat | AtBoundary(code, pool, i)
      ensures i <= |code|
    {
      DecodesFrom(code, pool, 0, i);
    }
  }

  /** The whole chunk of a function is sound. */
  lemma WholeFunction(f: Function)
    requires FunctionOk(f)
    ensures Sound(f.code, f.pool, f.upvalues, {})
  {
    hide Sound;
    var body := f.code[..|f.code| - 2];
    ReturnsSound(f.pool, f.upvalues);
    assert f.code == body + RETURNS;
    JoinSame(body, {}, RETURNS, {}, f.pool, f.upvalues, {});
  }

  lemma NextBoundary(code: seq<byte>, pool: seq<Constant>, i: nat)
    requires Decodes(code, pool, 0) && AtBoundary(code, pool, i) && i < |code|
    ensures Whole(code, pool, i) && AtBoundary(code, pool, i + InstrLen(code, pool, i))
  {
    DecodesFrom(code, pool, 0, i);
    ReadsOn(code, pool, 0, i, i + InstrLen(code, pool, i));
  }

  /** Control never leaves the instructions of a function, and never runs off its end. */
  lemma StaysInside(f: Function, i: nat, j: int)
    requires FunctionOk(f) && Inside(f, i)
    ensures Whole(f.code, f.pool, i) && InstrOk(f.code, f.pool, f.upvalues, i, {})
    ensures Follows(f, i, j) ==> Inside(f, j)
  {
    hide InstrLen, Reads, Decodes;
    WholeFunction(f);
    NextBoundary(f.code, f.pool, i);
    var body := f.code[..|f.code| - 2];
    assert f.code == body + RETURNS;
    ReturnsSound(f.pool, f.upvalues);
    JoinedBoundary(body, RETURNS, f.pool, i);
    if i < |body| {
      NextBoundary(body, f.pool, i);
      LenLeft(body, RETURNS, f.pool, i);
      TargetLeft(body, i, f.pool);
      assert InstrOk(body, f.pool, f.upvalues, i, {});
      if 0 <= j <= |body| { JoinedBoundary(body, RETURNS, f.pool, j); }
    } else {
      LastTwo(f, i);
    }
  }

  lemma TargetLeft(body: seq<byte>, i: nat, pool: seq<Constant>)
    requires Whole(body, pool, i)
    ensures IsJump(body[i]) ==> i + 3 <= |body| && Target(body + RETURNS, i) == Target(body, i)
  {
  }

  lemma LastTwo(f: Function, i: nat)
    requires |f.code| >= 2 && f.code[|f.code| - 2..] == RETURNS && |f.code| - 2 <= i < |f.code|
    ensures f.code[i] == OP_RETURN || (f.code[i] == OP_NIL && InstrLen(f.code, f.pool, i) == 1 && i + 1 < |f.code|)
  {
    assert f.code[i] == f.code[|f.code| - 2..][i - (|f.code| - 2)];
  }
}
