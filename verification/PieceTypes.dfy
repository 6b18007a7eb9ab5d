/** Stack types of the pieces code is made of: single instructions, conditionals and loops. */
module PieceTypes {
  import opened Bytecode
  import opened Codegen
  import opened Machine
  import opened Instructions
  import opened Functions
  import opened StackTypes
  import SoundCode

  // ----- instructions and jumps -----

  lemma AfterBounded(ins: seq<byte>, s: Slots, low: nat)
    requires ins != [] && Allowed(ins, s, low)
    ensures Bounded(After(ins, s)) && low <= After(ins, s).height
  {
  }

  /** An instruction that goes on to the next one. */
  lemma InsTyped(code: seq<byte>, pool: seq<Constant>, s: Slots, low: nat) returns (st: seq<Slots>)
    requires Whole(code, pool, 0) && |code| == InstrLen(code, pool, 0) && Allowed(code, s, low) && !IsJump(code[0])
    ensures Typed(code, pool, st, map[], low) && st[0] == s && st[|code|] == After(code, s)
  {
    hide InstrLen, Allowed, After, Typed;
    AfterBounded(code, s, low);
    st := OneTyped(code, pool, s, After(code, s), map[], low);
  }

  /** A jump; the state behind it matters only if it may be passed. */
  lemma JumpTyped(op: byte, d: nat, pool: seq<Constant>, s: Slots, t: Slots, low: nat) returns (st: seq<Slots>)
    requires IsJump(op) && d <= UINT16_MAX && Bounded(s) && Bounded(t) && low <= s.height && low <= t.height
    requires Falls(op) ==> Into(s, t)
    ensures Typed(JumpCode(op, d), pool, st, map[SoundCode.Leads(op, d) := s], low) && st[0] == s && st[3] == t
  {
    hide Typed, JumpCode;
    JumpBytes(op, d, pool, s, low);
    st := OneTyped(JumpCode(op, d), pool, s, t, map[SoundCode.Leads(op, d) := s], low);
  }

  lemma JumpBytes(op: byte, d: nat, pool: seq<Constant>, s: Slots, low: nat)
    requires IsJump(op) && d <= UINT16_MAX && Bounded(s) && low <= s.height
    ensures var code := JumpCode(op, d);
      && code[0] == op && Whole(code, pool, 0) && InstrLen(code, pool, 0) == 3
      && Target(code, 0) == SoundCode.Leads(op, d) && Allowed(code, s, low) && After(code, s) == s
  {
    var code := JumpCode(op, d);
    assert code[0] == op && code[1] == d % 256 && code[2] == d / 256 % 256;
    assert ReadU16(code, 1) == d;
  }

  lemma PopTyped(pool: seq<Constant>, s: Slots, low: nat)
    returns (st: seq<Slots>)
    requires Bounded(s) && low < s.height && s.height - 1 !in s.held
    ensures Typed([OP_POP], pool, st, map[], low) && st[0] == s && st[1] == Slots(s.height - 1, s.held)
  {
    hide Typed;
    st := InsTyped([OP_POP], pool, s, low);
  }

  /** A jump with the pop behind it. */
  lemma GuardTyped(op: byte, d: nat, pool: seq<Constant>, s: Slots, t: Slots, low: nat) returns (st: seq<Slots>)
    requires IsJump(op) && d <= UINT16_MAX && Bounded(s) && Bounded(t) && low <= s.height && low < t.height
    requires t.height - 1 !in t.held && (Falls(op) ==> Into(s, t))
    ensures Typed(JumpCode(op, d) + [OP_POP], pool, st, map[SoundCode.Leads(op, d) := s], low)
    ensures st[0] == s && st[3] == t && st[4] == Slots(t.height - 1, t.held)
    ensures AtBoundary(JumpCode(op, d) + [OP_POP], pool, 3)
  {
    hide Typed, JumpCode, AtBoundary;
    var sj := JumpTyped(op, d, pool, s, t, low);
    var sp := PopTyped(pool, t, low);
    TypedSize(JumpCode(op, d), pool, sj, map[SoundCode.Leads(op, d) := s], low);
    TypedSize([OP_POP], pool, sp, map[], low);
    JoinStraight(JumpCode(op, d), sj, map[SoundCode.Leads(op, d) := s], [OP_POP], sp, map[], pool, low,
      map[SoundCode.Leads(op, d) := s]);
    st := Joined(sj, sp);
    EndBoundary(JumpCode(op, d), pool, sj, map[SoundCode.Leads(op, d) := s], low);
    BoundaryLeft(JumpCode(op, d), [OP_POP], pool, 3);
  }

  lemma TypedSize(code: seq<byte>, pool: seq<Constant>, st: seq<Slots>, exits: map<int, Slots>, low: nat)
    requires Typed(code, pool, st, exits, low)
    ensures |st| == |code| + 1 && Decodes(code, pool, 0)
  {
  }

  lemma EndBoundary(code: seq<byte>, pool: seq<Constant>, st: seq<Slots>, exits: map<int, Slots>, low: nat)
    requires Typed(code, pool, st, exits, low)
    ensures AtBoundary(code, pool, |code|) && AtBoundary(code, pool, 0)
  {
    ReadsEnd(code, pool, 0);
  }

  lemma BoundaryLeft(a: seq<byte>, b: seq<byte>, pool: seq<Constant>, j: nat)
    requires Decodes(a, pool, 0) && Decodes(b, pool, 0) && j <= |a| && AtBoundary(a, pool, j)
    ensures AtBoundary(a + b, pool, j)
  {
    JoinedBoundary(a, b, pool, j);
  }

  lemma BoundaryRight(a: seq<byte>, b: seq<byte>, pool: seq<Constant>, j: nat)
    requires Decodes(a, pool, 0) && Decodes(b, pool, 0) && AtBoundary(b, pool, j)
    ensures AtBoundary(a + b, pool, |a| + j)
  {
    JoinedBoundary(a, b, pool, |a| + j);
  }

  // ----- conditionals and loops -----

  /** The only place outside that is jumped to is the top of the loop around, `distance` bytes back. */
  function Exits(loop: Loop, s: Slots): map<int, Slots> {
    if loop.NoLoop? then map[] else map[0 - loop.distance := s]
  }

  function Past(loop: Loop, n: nat): Loop {
    if loop.NoLoop? then NoLoop else InLoop(loop.distance + n, loop.level)
  }

  /** Two pieces in the same loop, one behind the other. */
  lemma JoinInLoop(a: seq<byte>, sa: seq<Slots>, b: seq<byte>, sb: seq<Slots>, pool: seq<Constant>, low: nat,
      loop: Loop, s: Slots)
    requires Typed(a, pool, sa, Exits(loop, s), low) && Typed(b, pool, sb, Exits(Past(loop, |a|), s), low)
    requires Into(sa[|a|], sb[0])
    ensures Typed(a + b, pool, Joined(sa, sb), Exits(loop, s), low)
  {
    hide Typed, Into;
    SelfInto(s);
    JoinStraight(a, sa, Exits(loop, s), b, sb, Exits(Past(loop, |a|), s), pool, low, Exits(loop, s));
  }

  lemma SelfInto(s: Slots)
    ensures Into(s, s)
  {
  }

  /** A conditional jump over `x` and the jump behind it. */
  lemma BranchTyped(x: seq<byte>, sx: seq<Slots>, tail: seq<byte>, sr: seq<Slots>, pool: seq<Constant>, low: nat,
      s: Slots, loop: Loop, u: Slots)
    returns (st: seq<Slots>)
    requires Typed(x, pool, sx, Exits(Past(loop, 4), u), low) && |x| + 4 <= UINT16_MAX
    requires Typed(tail, pool, sr, Exits(Past(loop, 4 + |x|), u), low) && |tail| >= 3 && AtBoundary(tail, pool, 3)
    requires Into(sx[|x|], sr[0]) && Into(s, sr[3])
    requires Bounded(s) && low < s.height && s.height - 1 !in s.held && Into(Slots(s.height - 1, s.held), sx[0])
    ensures Typed((JumpCode(OP_JUMP_IF_FALSE, |x| + 4) + [OP_POP]) + (x + tail), pool, st, Exits(loop, u), low)
    ensures st[0] == s && st[4 + |x| + |tail|] == sr[|tail|]
  {
    hide Typed, JumpCode, AtBoundary, Into, Bounded;
    SelfInto(s);
    var guard := JumpCode(OP_JUMP_IF_FALSE, |x| + 4) + [OP_POP];
    var sg := GuardTyped(OP_JUMP_IF_FALSE, |x| + 4, pool, s, s, low);
    TypedSize(x, pool, sx, Exits(Past(loop, 4), u), low);
    TypedSize(tail, pool, sr, Exits(Past(loop, 4 + |x|), u), low);
    JoinInLoop(x, sx, tail, sr, pool, low, Past(loop, 4), u);
    BoundaryRight(x, tail, pool, 3);
    var sb := Joined(sx, sr);
    TypedSize(guard, pool, sg, map[|x| + 7 := s], low);
    TypedSize(x + tail, pool, sb, Exits(Past(loop, 4), u), low);
    st := Joined(sg, sb);
    if x == [] { IntoOn(sg[4], sx[0], sr[0]); }
    GuardJoined(guard, sg, x + tail, sb, |x| + 3, pool, low, s, loop, u);
  }

  /** A jump into the code behind it. */
  lemma GuardJoined(guard: seq<byte>, sg: seq<Slots>, rest: seq<byte>, sr: seq<Slots>, t: nat, pool: seq<Constant>,
      low: nat, s: Slots, loop: Loop, u: Slots)
    requires Typed(guard, pool, sg, map[|guard| + t := s], low) && |guard| == 4
    requires Typed(rest, pool, sr, Exits(Past(loop, 4), u), low) && Into(sg[4], sr[0])
    requires t <= |rest| && AtBoundary(rest, pool, t) && Into(s, sr[t])
    ensures Typed(guard + rest, pool, Joined(sg, sr), Exits(loop, u), low)
  {
    hide Typed, AtBoundary, Into;
    TypedSize(guard, pool, sg, map[|guard| + t := s], low);
    TypedSize(rest, pool, sr, Exits(Past(loop, 4), u), low);
    SelfInto(u);
    JoinTyped(guard, sg, map[|guard| + t := s], rest, sr, Exits(Past(loop, 4), u), pool, low, Exits(loop, u));
  }

  /** The jump over the second branch, and the second branch. */
  lemma ElseTyped(y: seq<byte>, sy: seq<Slots>, pool: seq<Constant>, low: nat, s: Slots, loop: Loop, u: Slots)
    returns (st: seq<Slots>)
    requires Typed(y, pool, sy, Exits(Past(loop, 4), u), low) && |y| + 1 <= UINT16_MAX
    requires Bounded(s) && low <= s.height && Into(s, sy[0]) && Into(s, sy[|y|])
    ensures Typed(JumpCode(OP_JUMP, |y| + 1) + [OP_POP] + y, pool, st, Exits(loop, u), low)
    ensures AtBoundary(JumpCode(OP_JUMP, |y| + 1) + [OP_POP] + y, pool, 3)
    ensures st[0] == s && st[3] == Slots(s.height + 1, s.held) && st[4 + |y|] == sy[|y|]
  {
    hide Typed, JumpCode, AtBoundary, Into;
    var guard := JumpCode(OP_JUMP, |y| + 1) + [OP_POP];
    var sg := GuardTyped(OP_JUMP, |y| + 1, pool, s, Slots(s.height + 1, s.held), low);
    TypedSize(y, pool, sy, Exits(Past(loop, 4), u), low);
    TypedSize(guard, pool, sg, map[|guard| + |y| := s], low);
    EndBoundary(y, pool, sy, Exits(Past(loop, 4), u), low);
    st := Joined(sg, sy);
    GuardJoined(guard, sg, y, sy, |y|, pool, low, s, loop, u);
    BoundaryLeft(guard, y, pool, 3);
  }

  /** A conditional: `k` is what may be captured before it. */
  lemma IfTyped(c: seq<byte>, sc: seq<Slots>, x: seq<byte>, sx: seq<Slots>, y: seq<byte>, sy: seq<Slots>,
      pool: seq<Constant>, low: nat, s: Slots, mid: Slots, loop: Loop, u: Slots) returns (st: seq<Slots>)
    requires Typed(c, pool, sc, map[], low) && sc[|c|] == Slots(s.height + 1, s.held) && Bounded(s) && low <= s.height
    requires Typed(x, pool, sx, Exits(Past(loop, |c| + 4), u), low) && |x| + 4 <= UINT16_MAX
    requires Typed(y, pool, sy, Exits(Past(loop, |c| + 4 + |x| + 4), u), low) && |y| + 1 <= UINT16_MAX
    requires Into(s, sx[0]) && Into(sx[|x|], mid) && Bounded(mid) && Into(s, mid)
    requires Into(mid, sy[0]) && Into(mid, sy[|y|])
    ensures Typed(IfCode(c, x, y), pool, st, Exits(loop, u), low) && st[0] == sc[0]
    ensures st[|c| + |x| + |y| + 8] == sy[|y|]
  {
    hide Typed, JumpCode, AtBoundary, Into, IfCode;
    UpOne(s, mid);
    var se := ElseTyped(y, sy, pool, low, mid, Past(loop, |c| + 4 + |x|), u);
    var tail := JumpCode(OP_JUMP, |y| + 1) + [OP_POP] + y;
    var sb := BranchTyped(x, sx, tail, se, pool, low, Slots(s.height + 1, s.held), Past(loop, |c|), u);
    var rest := (JumpCode(OP_JUMP_IF_FALSE, |x| + 4) + [OP_POP]) + (x + tail);
    TypedSize(c, pool, sc, map[], low);
    TypedSize(rest, pool, sb, Exits(Past(loop, |c|), u), low);
    SelfInto(sb[0]);
    SelfInto(u);
    JoinStraight(c, sc, map[], rest, sb, Exits(Past(loop, |c|), u), pool, low, Exits(loop, u));
    st := Joined(sc, sb);
    SoundCode.IfParts(c, x, y);
  }

  lemma UpOne(s: Slots, t: Slots)
    requires Into(s, t)
    ensures s.height == t.height && Into(Slots(s.height + 1, s.held), Slots(t.height + 1, t.held))
  {
  }

  /** A loop keeps its slots; whatever is captured in some iteration may be captured at its top. */
  lemma WhileTyped(c: seq<byte>, sc: seq<Slots>, b: seq<byte>, sb: seq<Slots>, pool: seq<Constant>, low: nat, s: Slots)
    returns (st: seq<Slots>)
    requires Typed(c, pool, sc, map[], low) && sc[0] == s && sc[|c|] == Slots(s.height + 1, s.held) && Bounded(s)
    requires Typed(b, pool, sb, map[-(|c| + 4) := s], low) && Into(s, sb[0]) && Into(sb[|b|], s) && low <= s.height
    requires |c| + |b| + 7 <= UINT16_MAX
    ensures Typed(WhileCode(c, b), pool, st, map[], low) && st[0] == s && st[|c| + |b| + 8] == s
  {
    hide Typed, JumpCode, AtBoundary, Into, WhileCode;
    var d, up, loop := |c| + |b| + 7, Slots(s.height + 1, s.held), InLoop(|c|, 0);
    var tail := JumpCode(OP_LOOP, d) + [OP_POP];
    var sl := GuardTyped(OP_LOOP, d, pool, s, up, low);
    SelfInto(up);
    SelfInto(s);
    var sr := BranchTyped(b, sb, tail, sl, pool, low, up, loop, s);
    var rest := (JumpCode(OP_JUMP_IF_FALSE, |b| + 4) + [OP_POP]) + (b + tail);
    TypedSize(c, pool, sc, map[], low);
    TypedSize(rest, pool, sr, Exits(loop, s), low);
    EndBoundary(c, pool, sc, map[], low);
    st := Joined(sc, sr);
    LoopJoined(c, sc, rest, sr, pool, low, s);
    assert WhileCode(c, b) == c + rest by { LoopParts(c, b); }
  }

  lemma LoopParts(c: seq<byte>, b: seq<byte>)
    ensures WhileCode(c, b) == c + ((JumpCode(OP_JUMP_IF_FALSE, |b| + 4) + [OP_POP])
      + (b + (JumpCode(OP_LOOP, |c| + |b| + 7) + [OP_POP])))
  {
    hide JumpCode;
  }

  /** The jump back leads to the start. */
  lemma LoopJoined(c: seq<byte>, sc: seq<Slots>, rest: seq<byte>, sr: seq<Slots>, pool: seq<Constant>, low: nat,
      s: Slots)
    requires Typed(c, pool, sc, map[], low) && Typed(rest, pool, sr, map[0 - |c| := s], low)
    requires sc[0] == s && sc[|c|] == sr[0] && AtBoundary(c, pool, 0)
    ensures Typed(c + rest, pool, Joined(sc, sr), map[], low)
  {
    hide Typed, AtBoundary, Into;
    TypedSize(c, pool, sc, map[], low);
    TypedSize(rest, pool, sr, map[0 - |c| := s], low);
    SelfInto(s);
    SelfInto(sr[0]);
    JoinTyped(c, sc, map[], rest, sr, map[0 - |c| := s], pool, low, map[]);
  }
}
