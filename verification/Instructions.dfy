/** Compiled code is a sequence of whole instructions whose operands are in range and whose jumps
    lead to instructions. */
module Instructions {
  import opened Bytecode
  import opened Machine
  import opened Functions

  predicate IsUpvalue(op: byte) {
    op == OP_GET_UPVALUE || op == OP_SET_UPVALUE
  }

  predicate IsKnown(op: byte) {
    IsBinary(op) || IsSimple(op) || HasByteOperand(op) || IsJump(op) || IsUpvalue(op)
    || op == OP_CLOSE_UPVALUE || op == OP_CLOSURE
  }

  /** Instructions about classes have lengths too, but do not occur in the code of the modelled scripts. */
  predicate NamesMember(op: byte) {
    op == OP_GET_PROPERTY || op == OP_SET_PROPERTY || op == OP_GET_SUPER || op == OP_CLASS || op == OP_METHOD
  }

  predicate IsInvoke(op: byte) {
    op == OP_INVOKE || op == OP_SUPER_INVOKE
  }

  /** The bytes of the instruction at `i`.  A closure has two for each upvalue of its function; without
      such a function it has no length. */
  function InstrLen(code: seq<byte>, pool: seq<Constant>, i: nat): (n: nat)
    requires i < |code|
  {
    var op := code[i];
    if op == OP_CLOSURE then
      if i + 1 < |code| && code[i + 1] < |pool| && pool[code[i + 1]].Compiled? then 2 + 2 * pool[code[i + 1]].f.upvalues
      else 0
    else if HasByteOperand(op) || IsUpvalue(op) || NamesMember(op) then 2
    else if IsJump(op) || IsInvoke(op) then 3
    else 1
  }

  predicate NeedsConstant(op: byte) {
    op == OP_CONSTANT || NeedsName(op)
  }

  predicate NeedsName(op: byte) {
    op == OP_DEFINE_GLOBAL || op == OP_GET_GLOBAL || op == OP_SET_GLOBAL
  }

  /** Where the jump at `i` leads. */
  function Target(code: seq<byte>, i: nat): int
    requires i + 3 <= |code|
  {
    var d := ReadU16(code, i + 1);
    if code[i] == OP_LOOP then i + 3 - d else i + 3 + d
  }

  /** There is a whole instruction at `i`. */
  predicate Whole(code: seq<byte>, pool: seq<Constant>, i: nat) {
    i < |code| && InstrLen(code, pool, i) > 0 && i + InstrLen(code, pool, i) <= |code|
  }

  /** Reading instruction after instruction from `i` on ends exactly at the end of the code. */
  ghost predicate Decodes(code: seq<byte>, pool: seq<Constant>, i: nat)
    decreases |code| - i
  {
    i == |code| || (Whole(code, pool, i) && Decodes(code, pool, i + InstrLen(code, pool, i)))
  }

  /** Reading instruction after instruction from `i` on comes to `j`. */
  ghost predicate Reads(code: seq<byte>, pool: seq<Constant>, i: nat, j: nat)
    decreases |code| - i
  {
    i == j || (Whole(code, pool, i) && Reads(code, pool, i + InstrLen(code, pool, i), j))
  }

  ghost predicate AtBoundary(code: seq<byte>, pool: seq<Constant>, j: nat) {
    Reads(code, pool, 0, j)
  }

  /** Two bytes that say where an upvalue comes from: a slot, or one of the `up` upvalues of the function
      around. */
  predicate CaptureOk(code: seq<byte>, j: nat, up: nat) {
    j + 1 < |code| && (code[j] == 1 || (code[j] == 0 && code[j + 1] < up))
  }

  /** A known instruction of a function with `up` upvalues, with its operands in range; a jump leads to an
      instruction of this code or to one of the given places outside, which are counted from the code's
      start. */
  ghost predicate InstrOk(code: seq<byte>, pool: seq<Constant>, up: nat, i: nat, exits: set<int>)
    requires Whole(code, pool, i)
  {
    && IsKnown(code[i])
    && (NeedsConstant(code[i]) ==> code[i + 1] < |pool| && pool[code[i + 1]].Plain?)
    && (NeedsName(code[i]) ==> pool[code[i + 1]].v.Str?)
    && (IsUpvalue(code[i]) ==> code[i + 1] < up)
    && (code[i] == OP_CLOSURE ==>
          forall j :: i + 2 <= j < i + InstrLen(code, pool, i) && (j - i) % 2 == 0 ==> CaptureOk(code, j, up))
    && (IsJump(code[i]) ==> LeadsTo(code, pool, Target(code, i), exits))
  }

  ghost predicate LeadsTo(code: seq<byte>, pool: seq<Constant>, t: int, exits: set<int>) {
    t in exits || (0 <= t <= |code| && AtBoundary(code, pool, t))
  }

  ghost predicate AllOk(code: seq<byte>, pool: seq<Constant>, up: nat, exits: set<int>) {
    forall i: nat :: i < |code| && AtBoundary(code, pool, i) ==>
      Whole(code, pool, i) && InstrOk(code, pool, up, i, exits)
  }

  ghost predicate Sound(code: seq<byte>, pool: seq<Constant>, up: nat, exits: set<int>) {
    Decodes(code, pool, 0) && AllOk(code, pool, up, exits)
  }

  // ----- joining pieces of code -----

  lemma {:induction false} ReadsEnd(code: seq<byte>, pool: seq<Constant>, i: nat)
    requires Decodes(code, pool, i)
    ensures Reads(code, pool, i, |code|)
    decreases |code| - i
  {
    if i < |code| {
      ReadsEnd(code, pool, i + InstrLen(code, pool, i));
    }
  }

  lemma {:induction false} ReadsForward(code: seq<byte>, pool: seq<Constant>, i: nat, j: nat)
    requires Reads(code, pool, i, j)
    ensures i <= j
    decreases |code| - i
  {
    if i < |code| && i != j {
      ReadsForward(code, pool, i + InstrLen(code, pool, i), j);
    }
  }

  lemma {:induction false} ReadsOn(code: seq<byte>, pool: seq<Constant>, i: nat, j: nat, k: nat)
    requires Reads(code, pool, i, j) && Reads(code, pool, j, k)
    ensures Reads(code, pool, i, k)
    decreases |code| - i
  {
    if i < |code| && i != j {
      ReadsOn(code, pool, i + InstrLen(code, pool, i), j, k);
    }
  }

  /** From a boundary of decoded code every instruction is whole. */
  lemma {:induction false} DecodesFrom(code: seq<byte>, pool: seq<Constant>, i: nat, j: nat)
    requires Decodes(code, pool, i) && Reads(code, pool, i, j) && i <= |code|
    ensures j <= |code| && Decodes(code, pool, j)
    decreases |code| - i
  {
    if i < |code| && i != j {
      DecodesFrom(code, pool, i + InstrLen(code, pool, i), j);
    }
  }

  /** A whole instruction stays as long when code follows or precedes it. */
  lemma LenLeft(a: seq<byte>, b: seq<byte>, pool: seq<Constant>, i: nat)
    requires Whole(a, pool, i)
    ensures (a + b)[i] == a[i] && InstrLen(a + b, pool, i) == InstrLen(a, pool, i) && Whole(a + b, pool, i)
  {
    assert forall k :: 0 <= k < |a| ==> (a + b)[k] == a[k];
  }

  lemma LenRight(a: seq<byte>, b: seq<byte>, pool: seq<Constant>, i: nat)
    requires i < |b|
    ensures (a + b)[|a| + i] == b[i] && InstrLen(a + b, pool, |a| + i) == InstrLen(b, pool, i)
    ensures Whole(a + b, pool, |a| + i) <==> Whole(b, pool, i)
  {
    assert forall k :: 0 <= k < |b| ==> (a + b)[|a| + k] == b[k];
  }

  lemma {:induction false} ReadsLeft(a: seq<byte>, b: seq<byte>, pool: seq<Constant>, i: nat, j: nat)
    requires Decodes(a, pool, i) && j <= |a|
    ensures Reads(a + b, pool, i, j) <==> Reads(a, pool, i, j)
    decreases |a| - i
  {
    hide InstrLen;
    if i < |a| {
      LenLeft(a, b, pool, i);
      ReadsLeft(a, b, pool, i + InstrLen(a, pool, i), j);
    } else if Reads(a + b, pool, i, j) {
      ReadsForward(a + b, pool, i, j);
    }
  }

  lemma {:induction false} ReadsRight(a: seq<byte>, b: seq<byte>, pool: seq<Constant>, i: nat, j: nat)
    ensures Reads(a + b, pool, |a| + i, |a| + j) <==> Reads(b, pool, i, j)
    decreases |b| - i
  {
    hide InstrLen;
    if i < |b| {
      LenRight(a, b, pool, i);
      if Whole(b, pool, i) { ReadsRight(a, b, pool, i + InstrLen(b, pool, i), j); }
    }
  }

  lemma {:induction false} DecodesRight(a: seq<byte>, b: seq<byte>, pool: seq<Constant>, i: nat)
    requires Decodes(b, pool, i)
    ensures Decodes(a + b, pool, |a| + i)
    decreases |b| - i
  {
    hide InstrLen;
    if i < |b| {
      LenRight(a, b, pool, i);
      DecodesRight(a, b, pool, i + InstrLen(b, pool, i));
    }
  }

  lemma {:induction false} DecodesJoined(a: seq<byte>, b: seq<byte>, pool: seq<Constant>, i: nat)
    requires Decodes(a, pool, i) && Decodes(b, pool, 0)
    ensures Decodes(a + b, pool, i)
    decreases |a| - i
  {
    hide InstrLen;
    if i < |a| {
      LenLeft(a, b, pool, i);
      DecodesJoined(a, b, pool, i + InstrLen(a, pool, i));
    } else {
      DecodesRight(a, b, pool, 0);
    }
  }

  /** The boundaries of two pieces joined are the boundaries of the pieces. */
  lemma JoinedBoundary(a: seq<byte>, b: seq<byte>, pool: seq<Constant>, j: nat)
    requires Decodes(a, pool, 0) && Decodes(b, pool, 0)
    ensures j <= |a| ==> (AtBoundary(a + b, pool, j) <==> AtBoundary(a, pool, j))
    ensures j >= |a| ==> (AtBoundary(a + b, pool, j) <==> AtBoundary(b, pool, j - |a|))
  {
    if j <= |a| {
      ReadsLeft(a, b, pool, 0, j);
    }
    ReadsLeft(a, b, pool, 0, |a|);
    ReadsEnd(a, pool, 0);
    if j >= |a| {
      ReadsRight(a, b, pool, 0, j - |a|);
      if AtBoundary(a + b, pool, j) {
        Through(a + b, pool, 0, |a|, j);
      } else if AtBoundary(b, pool, j - |a|) {
        ReadsOn(a + b, pool, 0, |a|, j);
      }
    }
  }

  /** Reading on past a boundary goes through it. */
  lemma {:induction false} Through(code: seq<byte>, pool: seq<Constant>, i: nat, j: nat, k: nat)
    requires Reads(code, pool, i, j) && Reads(code, pool, i, k) && j <= k
    ensures Reads(code, pool, j, k)
    decreases |code| - i
  {
    hide InstrLen;
    if i != j {
      if i == k {
        ReadsForward(code, pool, i, j);
      } else {
        Through(code, pool, i + InstrLen(code, pool, i), j, k);
      }
    }
  }

  /** Code joined from two pieces is sound if the jumps out of each lead into the other or to the
      places outside. */
  lemma Join(a: seq<byte>, ea: set<int>, b: seq<byte>, eb: set<int>, pool: seq<Constant>, up: nat, exits: set<int>)
    requires Sound(a, pool, up, ea) && Sound(b, pool, up, eb)
    requires forall e :: e in ea ==> e in exits || (e >= |a| && e - |a| <= |b| && AtBoundary(b, pool, e - |a|))
    requires forall e :: e in eb ==> |a| + e in exits || (0 <= |a| + e <= |a| && AtBoundary(a, pool, |a| + e))
    ensures Sound(a + b, pool, up, exits)
  {
    hide Reads, InstrOk, Decodes, InstrLen;
    var c := a + b;
    DecodesJoined(a, b, pool, 0);
    forall i: nat | i < |c| && AtBoundary(c, pool, i)
      ensures Whole(c, pool, i) && InstrOk(c, pool, up, i, exits)
    {
      JoinedBoundary(a, b, pool, i);
      if i < |a| {
        LeftOk(a, ea, b, pool, up, exits, i);
      } else {
        RightOk(a, b, eb, pool, up, exits, i - |a|);
      }
    }
  }

  lemma LeftOk(a: seq<byte>, ea: set<int>, b: seq<byte>, pool: seq<Constant>, up: nat, exits: set<int>, i: nat)
    requires Decodes(a, pool, 0) && Decodes(b, pool, 0) && Whole(a, pool, i) && InstrOk(a, pool, up, i, ea)
    requires forall e :: e in ea ==> e in exits || (e >= |a| && e - |a| <= |b| && AtBoundary(b, pool, e - |a|))
    ensures Whole(a + b, pool, i) && InstrOk(a + b, pool, up, i, exits)
  {
    hide AtBoundary, Decodes;
    var c := a + b;
    LenLeft(a, b, pool, i);
    assert forall k :: i <= k < i + InstrLen(a, pool, i) ==> c[k] == a[k];
    if IsJump(a[i]) {
      var t := Target(a, i);
      assert Target(c, i) == t;
      if t >= 0 {
        JoinedBoundary(a, b, pool, t);
      }
    }
    if a[i] == OP_CLOSURE {
      forall j | i + 2 <= j < i + InstrLen(c, pool, i) && (j - i) % 2 == 0
        ensures CaptureOk(c, j, up)
      {
        assert CaptureOk(a, j, up);
      }
    }
  }

  lemma RightOk(a: seq<byte>, b: seq<byte>, eb: set<int>, pool: seq<Constant>, up: nat, exits: set<int>, i: nat)
    requires Decodes(a, pool, 0) && Decodes(b, pool, 0) && Whole(b, pool, i) && InstrOk(b, pool, up, i, eb)
    requires forall e :: e in eb ==> |a| + e in exits || (0 <= |a| + e <= |a| && AtBoundary(a, pool, |a| + e))
    ensures Whole(a + b, pool, |a| + i) && InstrOk(a + b, pool, up, |a| + i, exits)
  {
    hide AtBoundary, Decodes;
    var c := a + b;
    LenRight(a, b, pool, i);
    assert forall k :: i <= k < i + InstrLen(b, pool, i) ==> c[|a| + k] == b[k];
    if IsJump(b[i]) {
      var t := Target(b, i);
      assert Target(c, |a| + i) == |a| + t;
      if |a| + t >= 0 {
        JoinedBoundary(a, b, pool, |a| + t);
      }
    }
    if b[i] == OP_CLOSURE {
      forall j | |a| + i + 2 <= j < |a| + i + InstrLen(b, pool, i) && (j - |a| - i) % 2 == 0
        ensures CaptureOk(c, j, up)
      {
        assert CaptureOk(b, j - |a|, up);
      }
    }
  }

  // ----- more constants, more upvalues, more places to go -----

  /** Instructions keep their lengths when constants are appended. */
  lemma LenGrows(code: seq<byte>, pool: seq<Constant>, more: seq<Constant>, i: nat)
    requires pool <= more && Whole(code, pool, i)
    ensures InstrLen(code, more, i) == InstrLen(code, pool, i) && Whole(code, more, i)
  {
  }

  lemma {:induction false} DecodesGrows(code: seq<byte>, pool: seq<Constant>, more: seq<Constant>, i: nat)
    requires pool <= more && Decodes(code, pool, i)
    ensures Decodes(code, more, i)
    decreases |code| - i
  {
    hide InstrLen;
    if i < |code| {
      LenGrows(code, pool, more, i);
      DecodesGrows(code, pool, more, i + InstrLen(code, pool, i));
    }
  }

  lemma {:induction false} ReadsGrows(code: seq<byte>, pool: seq<Constant>, more: seq<Constant>, i: nat, j: nat)
    requires pool <= more && Decodes(code, pool, i)
    ensures Reads(code, more, i, j) <==> Reads(code, pool, i, j)
    decreases |code| - i
  {
    hide InstrLen;
    if i < |code| {
      LenGrows(code, pool, more, i);
      ReadsGrows(code, pool, more, i + InstrLen(code, pool, i), j);
    }
  }

  /** More constants, more upvalues and more places to go do no harm. */
  lemma Weaken(code: seq<byte>, pool: seq<Constant>, up: nat, exits: set<int>, more: seq<Constant>, up': nat,
      exits': set<int>)
    requires Sound(code, pool, up, exits) && pool <= more && up <= up' && exits <= exits'
    ensures Sound(code, more, up', exits')
  {
    hide Reads, Decodes, InstrLen;
    DecodesGrows(code, pool, more, 0);
    forall i: nat | i < |code| && AtBoundary(code, more, i)
      ensures Whole(code, more, i) && InstrOk(code, more, up', i, exits')
    {
      ReadsGrows(code, pool, more, 0, i);
      InstrGrows(code, pool, up, exits, more, up', exits', i);
    }
  }

  lemma InstrGrows(code: seq<byte>, pool: seq<Constant>, up: nat, exits: set<int>, more: seq<Constant>, up': nat,
      exits': set<int>, i: nat)
    requires Decodes(code, pool, 0) && pool <= more && up <= up' && exits <= exits'
    requires Whole(code, pool, i) && InstrOk(code, pool, up, i, exits)
    ensures Whole(code, more, i) && InstrOk(code, more, up', i, exits')
  {
    hide Reads, Decodes;
    LenGrows(code, pool, more, i);
    if IsJump(code[i]) && Target(code, i) >= 0 { ReadsGrows(code, pool, more, 0, Target(code, i)); }
    if code[i] == OP_CLOSURE {
      forall j | i + 2 <= j < i + InstrLen(code, more, i) && (j - i) % 2 == 0
        ensures CaptureOk(code, j, up')
      {
        assert CaptureOk(code, j, up);
      }
    }
  }
}
