/** What is on the stack at every instruction: how many slots the frame has, and which of them may have been
    captured.  Captured slots are closed and never popped plainly. */
module StackTypes {
  import opened Bytecode
  import opened Machine
  import opened Instructions
  import opened Functions

  datatype Slots = Slots(height: int, held: set<int>)

  ghost predicate Bounded(s: Slots) {
    forall k {:trigger k in s.held} :: k in s.held ==> 0 <= k < s.height
  }

  /** Where `b` is expected `a` will do. */
  ghost predicate Into(a: Slots, b: Slots) {
    a.height == b.height && a.held <= b.held
  }

  // ----- one instruction -----

  /** The bytes of the instruction at `i`. */
  function Bytes(code: seq<byte>, pool: seq<Constant>, i: nat): (ins: seq<byte>)
    requires Whole(code, pool, i)
    ensures |ins| == InstrLen(code, pool, i) && ins != [] && ins[0] == code[i]
  {
    code[i..i + InstrLen(code, pool, i)]
  }

  /** How many values the instruction takes off the stack. */
  function Taken(ins: seq<byte>): nat
    requires ins != []
  {
    if IsBinary(ins[0]) then 2
    else if ins[0] == OP_CALL then (if |ins| == 2 then ins[1] as int + 1 else 0)
    else if ins[0] in [OP_NOT, OP_NEGATE, OP_POP, OP_PRINT, OP_DEFINE_GLOBAL] then 1
    else 0
  }

  /** How many it puts there. */
  function Given(op: byte): nat {
    if IsBinary(op) || op in [OP_NOT, OP_NEGATE, OP_NIL, OP_TRUE, OP_FALSE, OP_CONSTANT, OP_GET_GLOBAL, OP_GET_LOCAL,
         OP_GET_UPVALUE, OP_CALL, OP_CLOSURE]
    then 1 else 0
  }

  /** The `k`-th capture of a closure instruction. */
  predicate CapturesSlot(ins: seq<byte>, k: nat)
    requires 2 * k + 3 < |ins|
  {
    ins[2 * k + 2] != 0
  }

  function SlotOf(ins: seq<byte>, k: nat): int
    requires 2 * k + 3 < |ins|
  {
    ins[2 * k + 3]
  }

  /** The slots from `low` on may be popped, if they are not captured. */
  ghost predicate Drops(s: Slots, n: nat, low: nat) {
    low + n <= s.height && forall k {:trigger k in s.held} :: s.height - n <= k < s.height ==> k !in s.held
  }

  /** Operands that name a slot: in range, and in a closure at most the slot the closure itself goes to. */
  predicate SlotsInRange(ins: seq<byte>, height: int)
    requires ins != []
  {
    && (ins[0] in [OP_GET_LOCAL, OP_SET_LOCAL] && |ins| == 2 ==> ins[1] < height)
    && (ins[0] == OP_CLOSURE ==>
          forall k :: 0 <= k < |ins| && 2 * k + 3 < |ins| && CapturesSlot(ins, k) ==> SlotOf(ins, k) <= height)
  }

  ghost predicate Allowed(ins: seq<byte>, s: Slots, low: nat)
    requires ins != []
  {
    && Bounded(s) && Drops(s, Taken(ins), low) && SlotsInRange(ins, s.height)
    && (ins[0] == OP_CLOSE_UPVALUE ==> low < s.height)
    && (ins[0] == OP_RETURN ==> 1 < s.height)
  }

  /** The slots a closure instruction captures. */
  function SlotsCaptured(ins: seq<byte>): (r: set<int>) {
    set k | 0 <= k < |ins| && 2 * k + 3 < |ins| && CapturesSlot(ins, k) :: SlotOf(ins, k)
  }

  function After(ins: seq<byte>, s: Slots): Slots
    requires ins != []
  {
    if ins[0] == OP_CLOSE_UPVALUE then Slots(s.height - 1, s.held - {s.height - 1})
    else Slots(s.height - Taken(ins) + Given(ins[0]),
      if ins[0] == OP_CLOSURE then s.held + SlotsCaptured(ins) else s.held)
  }

  predicate Falls(op: byte) {
    op != OP_RETURN && op != OP_JUMP && op != OP_LOOP
  }

  // ----- code -----

  ghost predicate LeadsInto(code: seq<byte>, pool: seq<Constant>, st: seq<Slots>, exits: map<int, Slots>, t: int,
      s: Slots)
    requires |st| == |code| + 1
  {
    || (t in exits && Into(s, exits[t]))
    || (0 <= t <= |code| && AtBoundary(code, pool, t) && Into(s, st[t]))
  }

  ghost predicate StepTyped(code: seq<byte>, pool: seq<Constant>, st: seq<Slots>, exits: map<int, Slots>, low: nat,
      i: nat)
    requires |st| == |code| + 1 && Whole(code, pool, i)
  {
    && Allowed(Bytes(code, pool, i), st[i], low)
    && (Falls(code[i]) ==> Into(After(Bytes(code, pool, i), st[i]), st[i + InstrLen(code, pool, i)]))
    && (IsJump(code[i]) && i + 3 <= |code| ==>
          LeadsInto(code, pool, st, exits, Target(code, i), After(Bytes(code, pool, i), st[i])))
  }

  /** At every instruction the stack is as `st` says, whatever path leads there; `exits` are the places outside
      the code that are jumped to, and no slot below `low` is popped. */
  ghost predicate Typed(code: seq<byte>, pool: seq<Constant>, st: seq<Slots>, exits: map<int, Slots>, low: nat) {
    && |st| == |code| + 1 && Bounded(st[|code|]) && low <= st[|code|].height && Decodes(code, pool, 0)
    && forall i: nat :: i < |code| && AtBoundary(code, pool, i) ==>
         Whole(code, pool, i) && StepTyped(code, pool, st, exits, low, i)
  }

  // ----- joining pieces of code -----

  function Joined(a: seq<Slots>, b: seq<Slots>): (r: seq<Slots>)
    requires |a| > 0
    ensures |r| == |a| - 1 + |b|
  {
    a[..|a| - 1] + b
  }

  /** Places to go outside lead where they are expected: outside too, or into the other piece. */
  ghost predicate Meets(e: int, s: Slots, exits: map<int, Slots>, code: seq<byte>, pool: seq<Constant>,
      st: seq<Slots>, t: int)
    requires |st| == |code| + 1
  {
    (e in exits && Into(s, exits[e])) || (0 <= t <= |code| && AtBoundary(code, pool, t) && Into(s, st[t]))
  }

  lemma IntoOn(a: Slots, b: Slots, c: Slots)
    requires Into(a, b) && Into(b, c)
    ensures Into(a, c)
  {
  }

  lemma JoinTyped(a: seq<byte>, sa: seq<Slots>, ea: map<int, Slots>, b: seq<byte>, sb: seq<Slots>, eb: map<int, Slots>,
      pool: seq<Constant>, low: nat, exits: map<int, Slots>)
    requires Typed(a, pool, sa, ea, low) && Typed(b, pool, sb, eb, low) && Into(sa[|a|], sb[0])
    requires forall e :: e in ea ==> Meets(e, ea[e], exits, b, pool, sb, e - |a|)
    requires forall e :: e in eb ==> Meets(|a| + e, eb[e], exits, a, pool, sa[..|a|] + [sb[0]], |a| + e)
    ensures Typed(a + b, pool, Joined(sa, sb), exits, low)
  {
    hide Reads, StepTyped, Decodes, InstrLen;
    var c, st := a + b, Joined(sa, sb);
    DecodesJoined(a, b, pool, 0);
    assert st[|c|] == sb[|b|];
    forall i: nat | i < |c| && AtBoundary(c, pool, i)
      ensures Whole(c, pool, i) && StepTyped(c, pool, st, exits, low, i)
    {
      JoinedBoundary(a, b, pool, i);
      if i < |a| {
        LeftTyped(a, sa, ea, b, sb, pool, low, exits, i);
      } else {
        RightTyped(a, sa, b, sb, eb, pool, low, exits, i - |a|);
      }
    }
  }

  lemma LeftTyped(a: seq<byte>, sa: seq<Slots>, ea: map<int, Slots>, b: seq<byte>, sb: seq<Slots>,
      pool: seq<Constant>, low: nat, exits: map<int, Slots>, i: nat)
    requires |sa| == |a| + 1 && |sb| == |b| + 1 && Decodes(a, pool, 0) && Decodes(b, pool, 0)
    requires Whole(a, pool, i) && StepTyped(a, pool, sa, ea, low, i) && Into(sa[|a|], sb[0])
    requires forall e :: e in ea ==> Meets(e, ea[e], exits, b, pool, sb, e - |a|)
    ensures Whole(a + b, pool, i) && StepTyped(a + b, pool, Joined(sa, sb), exits, low, i)
  {
    hide AtBoundary, Decodes, Into, Allowed, After, InstrLen, LeadsInto, Meets, Bytes, Target;
    var c, st := a + b, Joined(sa, sb);
    BytesLeft(a, b, pool, i);
    var n, s := InstrLen(a, pool, i), After(Bytes(a, pool, i), sa[i]);
    assert st[|a|] == sb[0];
    if Falls(a[i]) && i + n == |a| { IntoOn(s, sa[|a|], sb[0]); }
    if IsJump(a[i]) {
      JumpLen(a, pool, i);
      TargetLeft(a, b, i);
      LeftLeads(a, sa, ea, b, sb, pool, exits, Target(a, i), s);
    }
  }

  lemma LeftLeads(a: seq<byte>, sa: seq<Slots>, ea: map<int, Slots>, b: seq<byte>, sb: seq<Slots>, pool: seq<Constant>,
      exits: map<int, Slots>, t: int, s: Slots)
    requires |sa| == |a| + 1 && |sb| == |b| + 1 && Decodes(a, pool, 0) && Decodes(b, pool, 0)
    requires LeadsInto(a, pool, sa, ea, t, s) && Into(sa[|a|], sb[0])
    requires forall e :: e in ea ==> Meets(e, ea[e], exits, b, pool, sb, e - |a|)
    ensures LeadsInto(a + b, pool, Joined(sa, sb), exits, t, s)
  {
    hide AtBoundary, Decodes, Into;
    if t in ea && Into(s, ea[t]) {
      MeetsOn(s, t, ea[t], exits, b, pool, sb, t - |a|);
      if 0 <= t - |a| <= |b| { JoinedBoundary(a, b, pool, t); }
    } else {
      JoinedBoundary(a, b, pool, t);
      if t == |a| { IntoOn(s, sa[|a|], sb[0]); }
    }
  }

  lemma BytesLeft(a: seq<byte>, b: seq<byte>, pool: seq<Constant>, i: nat)
    requires Whole(a, pool, i)
    ensures Whole(a + b, pool, i) && Bytes(a + b, pool, i) == Bytes(a, pool, i)
  {
    hide InstrLen;
    LenLeft(a, b, pool, i);
    assert (a + b)[i..i + InstrLen(a, pool, i)] == a[i..i + InstrLen(a, pool, i)];
  }

  lemma BytesRight(a: seq<byte>, b: seq<byte>, pool: seq<Constant>, i: nat)
    requires Whole(b, pool, i)
    ensures Whole(a + b, pool, |a| + i) && Bytes(a + b, pool, |a| + i) == Bytes(b, pool, i)
  {
    hide InstrLen;
    LenRight(a, b, pool, i);
    assert (a + b)[|a| + i..|a| + i + InstrLen(b, pool, i)] == b[i..i + InstrLen(b, pool, i)];
  }

  lemma TargetLeft(a: seq<byte>, b: seq<byte>, i: nat)
    requires i + 3 <= |a|
    ensures Target(a + b, i) == Target(a, i)
  {
  }

  lemma TargetRight(a: seq<byte>, b: seq<byte>, i: nat)
    requires i + 3 <= |b|
    ensures Target(a + b, |a| + i) == |a| + Target(b, i)
  {
  }

  lemma JumpLen(code: seq<byte>, pool: seq<Constant>, i: nat)
    requires Whole(code, pool, i) && IsJump(code[i])
    ensures i + 3 <= |code|
  {
  }

  lemma MeetsOn(s: Slots, e: int, u: Slots, exits: map<int, Slots>, code: seq<byte>, pool: seq<Constant>,
      st: seq<Slots>, t: int)
    requires |st| == |code| + 1 && Into(s, u) && Meets(e, u, exits, code, pool, st, t)
    ensures Meets(e, s, exits, code, pool, st, t)
  {
  }

  lemma RightTyped(a: seq<byte>, sa: seq<Slots>, b: seq<byte>, sb: seq<Slots>, eb: map<int, Slots>,
      pool: seq<Constant>, low: nat, exits: map<int, Slots>, i: nat)
    requires |sa| == |a| + 1 && |sb| == |b| + 1 && Decodes(a, pool, 0) && Decodes(b, pool, 0)
    requires Whole(b, pool, i) && StepTyped(b, pool, sb, eb, low, i)
    requires forall e :: e in eb ==> Meets(|a| + e, eb[e], exits, a, pool, sa[..|a|] + [sb[0]], |a| + e)
    ensures Whole(a + b, pool, |a| + i) && StepTyped(a + b, pool, Joined(sa, sb), exits, low, |a| + i)
  {
    hide AtBoundary, Decodes, Into, Allowed, After, InstrLen, LeadsInto, Meets, Bytes, Target;
    BytesRight(a, b, pool, i);
    if IsJump(b[i]) {
      JumpLen(b, pool, i);
      TargetRight(a, b, i);
      RightLeads(a, sa, b, sb, eb, pool, exits, Target(b, i), After(Bytes(b, pool, i), sb[i]));
    }
  }

  lemma RightLeads(a: seq<byte>, sa: seq<Slots>, b: seq<byte>, sb: seq<Slots>, eb: map<int, Slots>,
      pool: seq<Constant>, exits: map<int, Slots>, t: int, s: Slots)
    requires |sa| == |a| + 1 && |sb| == |b| + 1 && Decodes(a, pool, 0) && Decodes(b, pool, 0)
    requires LeadsInto(b, pool, sb, eb, t, s)
    requires forall e :: e in eb ==> Meets(|a| + e, eb[e], exits, a, pool, sa[..|a|] + [sb[0]], |a| + e)
    ensures LeadsInto(a + b, pool, Joined(sa, sb), exits, |a| + t, s)
  {
    hide AtBoundary, Decodes, Into;
    if t in eb && Into(s, eb[t]) {
      MeetsOn(s, |a| + t, eb[t], exits, a, pool, sa[..|a|] + [sb[0]], |a| + t);
      if 0 <= |a| + t <= |a| { JoinedBoundary(a, b, pool, |a| + t); }
    } else {
      JoinedBoundary(a, b, pool, |a| + t);
    }
  }

  /** Pieces whose outside jumps all stay outside. */
  lemma JoinStraight(a: seq<byte>, sa: seq<Slots>, ea: map<int, Slots>, b: seq<byte>, sb: seq<Slots>,
      eb: map<int, Slots>, pool: seq<Constant>, low: nat, exits: map<int, Slots>)
    requires Typed(a, pool, sa, ea, low) && Typed(b, pool, sb, eb, low) && Into(sa[|a|], sb[0])
    requires forall e :: e in ea ==> e in exits && Into(ea[e], exits[e])
    requires forall e :: e in eb ==> |a| + e in exits && Into(eb[e], exits[|a| + e])
    ensures Typed(a + b, pool, Joined(sa, sb), exits, low)
  {
    hide Into, StepTyped;
    JoinTyped(a, sa, ea, b, sb, eb, pool, low, exits);
  }

  // ----- single instructions -----

  lemma EmptyTyped(pool: seq<Constant>, s: Slots, low: nat)
    requires Bounded(s) && low <= s.height
    ensures Typed([], pool, [s], map[], low)
  {
  }

  lemma OneTyped(code: seq<byte>, pool: seq<Constant>, s: Slots, t: Slots, exits: map<int, Slots>, low: nat)
    returns (st: seq<Slots>)
    requires Whole(code, pool, 0) && |code| == InstrLen(code, pool, 0) && Allowed(code, s, low)
    requires Bounded(t) && low <= t.height && (Falls(code[0]) ==> Into(After(code, s), t))
    requires IsJump(code[0]) && 3 <= |code| ==> Target(code, 0) in exits && Into(After(code, s), exits[Target(code, 0)])
    ensures Typed(code, pool, st, exits, low) && st[0] == s && st[|code|] == t
  {
    hide InstrLen, Allowed, After, Into, Target;
    st := seq(|code| + 1, k => if k < |code| then s else t);
    assert Bytes(code, pool, 0) == code;
    assert Decodes(code, pool, |code|);
    forall i: nat | i < |code| && AtBoundary(code, pool, i)
      ensures i == 0
    {
      if i != 0 { ReadsForward(code, pool, InstrLen(code, pool, 0), i); }
    }
  }

  // ----- more constants, fewer slots to pop, more captured slots -----

  function More(s: Slots, held: set<int>): Slots {
    Slots(s.height, s.held + held)
  }

  function Raised(st: seq<Slots>, held: set<int>): (r: seq<Slots>)
    ensures |r| == |st| && forall i :: 0 <= i < |st| ==> r[i] == More(st[i], held)
  {
    seq(|st|, i requires 0 <= i < |st| => More(st[i], held))
  }

  /** Slots that the code never pops may be captured all the time. */
  lemma Raise(code: seq<byte>, pool: seq<Constant>, st: seq<Slots>, exits: map<int, Slots>, low: nat,
      more: seq<Constant>, low': nat, held: set<int>, exits': map<int, Slots>)
    requires Typed(code, pool, st, exits, low) && pool <= more && low' <= low
    requires forall k :: k in held ==> 0 <= k < low
    requires forall e :: e in exits ==> e in exits' && Into(More(exits[e], held), exits'[e])
    ensures Typed(code, more, Raised(st, held), exits', low')
  {
    hide Reads, Decodes, InstrLen, StepTyped;
    DecodesGrows(code, pool, more, 0);
    forall i: nat | i < |code| && AtBoundary(code, more, i)
      ensures Whole(code, more, i) && StepTyped(code, more, Raised(st, held), exits', low', i)
    {
      ReadsGrows(code, pool, more, 0, i);
      StepRaised(code, pool, st, exits, low, more, low', held, exits', i);
    }
  }

  lemma StepRaised(code: seq<byte>, pool: seq<Constant>, st: seq<Slots>, exits: map<int, Slots>, low: nat,
      more: seq<Constant>, low': nat, held: set<int>, exits': map<int, Slots>, i: nat)
    requires |st| == |code| + 1 && Decodes(code, pool, 0) && pool <= more && low' <= low
    requires Whole(code, pool, i) && StepTyped(code, pool, st, exits, low, i)
    requires forall k :: k in held ==> 0 <= k < low
    requires forall e :: e in exits ==> e in exits' && Into(More(exits[e], held), exits'[e])
    ensures Whole(code, more, i) && StepTyped(code, more, Raised(st, held), exits', low', i)
  {
    hide Reads, Decodes, Allowed, After, InstrLen, Into, Target;
    LenGrows(code, pool, more, i);
    var ins, s := Bytes(code, pool, i), st[i];
    var n := InstrLen(code, pool, i);
    AllowedRaised(ins, s, low, low', held);
    if Falls(code[i]) {
      RaisedInto(After(ins, s), st[i + n], held);
      IntoOn(After(ins, More(s, held)), More(After(ins, s), held), More(st[i + n], held));
    }
    if IsJump(code[i]) && i + 3 <= |code| {
      var t, r := Target(code, i), After(ins, s);
      if t in exits && Into(r, exits[t]) {
        RaisedInto(r, exits[t], held);
        IntoOn(More(r, held), More(exits[t], held), exits'[t]);
        IntoOn(After(ins, More(s, held)), More(r, held), exits'[t]);
      } else {
        ReadsGrows(code, pool, more, 0, t);
        RaisedInto(r, st[t], held);
        IntoOn(After(ins, More(s, held)), More(r, held), More(st[t], held));
      }
    }
  }

  lemma RaisedInto(a: Slots, b: Slots, held: set<int>)
    requires Into(a, b)
    ensures Into(More(a, held), More(b, held))
  {
  }

  lemma AllowedRaised(ins: seq<byte>, s: Slots, low: nat, low': nat, held: set<int>)
    requires ins != [] && Allowed(ins, s, low) && low' <= low
    requires forall k :: k in held ==> 0 <= k < low
    ensures Allowed(ins, More(s, held), low') && Into(After(ins, More(s, held)), More(After(ins, s), held))
  {
    hide SlotsInRange, SlotsCaptured, Taken, Given;
  }

  /** More may be expected at the end. */
  lemma EndUp(code: seq<byte>, pool: seq<Constant>, st: seq<Slots>, low: nat, t: Slots)
    requires Typed(code, pool, st, map[], low) && code != [] && Into(st[|code|], t) && Bounded(t)
    ensures Typed(code, pool, st[|code| := t], map[], low)
  {
    hide Reads, Decodes, InstrLen, Allowed, After, Target, Bytes;
    var st' := st[|code| := t];
    forall i: nat | i < |code| && AtBoundary(code, pool, i)
      ensures Whole(code, pool, i) && StepTyped(code, pool, st', map[], low, i)
    {
      var s := After(Bytes(code, pool, i), st[i]);
      if Into(s, st[|code|]) { IntoOn(s, st[|code|], t); }
    }
  }
}
