/** When what the compiler lays down is the code that is meant.  A loop that stands in no loop and in no first
    branch of a conditional meets no open conditional jump but its own exit, and open jumps over second branches,
    which are patched again when their conditional ends.  A loop around a loop never gets its own exit. */
module Laying {
  import opened Bytecode
  import opened Codegen
  import opened ExitSearch
  import opened LoopScan
  import opened Patching
  import opened Pieces

  // ----- without loops the chunk simply grows by the code -----

  /** Condition, jump and first branch. */
  function ThenCode(c: seq<byte>, t: seq<byte>): (r: seq<byte>)
    ensures |r| == |c| + 4 + |t|
  {
    c + (JumpCode(OP_JUMP_IF_FALSE, |t| + 4) + [OP_POP]) + t
  }

  lemma ThenPatched(r: seq<byte>, c: seq<byte>, t: seq<byte>)
    requires |t| + 4 <= UINT16_MAX
    ensures CloseThen(Done(r + (c + OpenJump(OP_JUMP_IF_FALSE) + [OP_POP]) + t), |t|) ==
      Done(r + ThenCode(c, t) + (OpenJump(OP_JUMP) + [OP_POP]))
  {
    hide JumpCode, Patch;
    var code := r + (c + OpenJump(OP_JUMP_IF_FALSE) + [OP_POP]) + t;
    var y := [OP_POP] + t + OpenJump(OP_JUMP);
    PatchedJump(r + c, OP_JUMP_IF_FALSE, y, |t| + 4);
    assert code + OpenJump(OP_JUMP) == r + c + OpenJump(OP_JUMP_IF_FALSE) + y;
    assert r + c + JumpCode(OP_JUMP_IF_FALSE, |t| + 4) + y + [OP_POP] ==
      r + ThenCode(c, t) + (OpenJump(OP_JUMP) + [OP_POP]);
  }

  lemma ElsePatched(r: seq<byte>, c: seq<byte>, t: seq<byte>, f: seq<byte>)
    requires |f| + 1 <= UINT16_MAX
    ensures CloseElse(Done(r + ThenCode(c, t) + (OpenJump(OP_JUMP) + [OP_POP]) + f), |f|) == Done(r + IfCode(c, t, f))
  {
    hide JumpCode, Patch;
    var x := r + ThenCode(c, t);
    PatchedJump(x, OP_JUMP, [OP_POP] + f, |f| + 1);
    assert x + (OpenJump(OP_JUMP) + [OP_POP]) + f == x + OpenJump(OP_JUMP) + ([OP_POP] + f);
    assert x + JumpCode(OP_JUMP, |f| + 1) + ([OP_POP] + f) == r + IfCode(c, t, f);
  }

  lemma {:induction false} PlainLaid(p: Piece, r: seq<byte>)
    requires Fits(p) && !Repeats(p)
    ensures Lay(p, Done(r)) == Done(r + CodeOf(p))
    decreases p, 0
  {
    hide IfCode, ThenCode, Patch, CloseThen, CloseElse;
    match p
    case Flat(_) =>
    case Both(a, b) =>
      PlainLaid(a, r);
      PlainLaid(b, r + CodeOf(a));
      assert r + CodeOf(a) + CodeOf(b) == r + CodeOf(p);
    case Cond(c, t, f) =>
      PlainThen(c, t, r);
      PlainLaid(f, r + ThenCode(c, CodeOf(t)) + (OpenJump(OP_JUMP) + [OP_POP]));
      ElsePatched(r, c, CodeOf(t), CodeOf(f));
  }

  /** The first branch of a conditional. */
  lemma {:induction false} PlainThen(c: seq<byte>, t: Piece, r: seq<byte>)
    requires Fits(t) && !Repeats(t) && |CodeOf(t)| + 4 <= UINT16_MAX
    ensures CloseThen(Lay(t, Guard(Done(r), c)), |CodeOf(t)|) ==
      Done(r + ThenCode(c, CodeOf(t)) + (OpenJump(OP_JUMP) + [OP_POP]))
    decreases t, 1
  {
    hide ThenCode, CloseThen, CodeOf, Fits, Lay, Repeats;
    PlainLaid(t, r + (c + OpenJump(OP_JUMP_IF_FALSE) + [OP_POP]));
    ThenPatched(r, c, CodeOf(t));
  }

  // ----- a loop without loops in it -----

  /** Everything after the exit jump of a loop. */
  function LoopTail(c: seq<byte>, b: seq<byte>): (r: seq<byte>)
    ensures |r| == |b| + 5
  {
    [OP_POP] + b + JumpCode(OP_LOOP, |c| + |b| + 7) + [OP_POP]
  }

  lemma TailCode(r: seq<byte>, c: seq<byte>, b: seq<byte>)
    ensures r + (c + OpenJump(OP_JUMP_IF_FALSE) + [OP_POP]) + b + JumpCode(OP_LOOP, |c| + |b| + 7) + [OP_POP] ==
      (r + c) + OpenJump(OP_JUMP_IF_FALSE) + LoopTail(c, b)
    ensures (r + c) + Aimed(OP_JUMP_IF_FALSE, |b| + 4) + LoopTail(c, b) == r + WhileCode(c, b)
  {
    assert Aimed(OP_JUMP_IF_FALSE, |b| + 4) == JumpCode(OP_JUMP_IF_FALSE, |b| + 4);
    hide JumpCode, Aimed;
  }

  lemma QuietCloses(code: seq<byte>)
    ensures Quiet(code) ==> Sealed(code, OP_JUMP_IF_FALSE) && Sealed(code, OP_JUMP)
    ensures NoPlaceholder(code) <==> Closed(code, OP_JUMP_IF_FALSE) && Closed(code, OP_JUMP)
  {
  }

  /** The chunk at the end of a loop, before the searches. */
  lemma LoopEmitted(c: seq<byte>, b: Piece, r: seq<byte>)
    requires Fits(Loop(c, b)) && !Repeats(b)
    ensures Lay(Loop(c, b), Done(r)) == Searches((r + c) + OpenJump(OP_JUMP_IF_FALSE) + LoopTail(c, CodeOf(b)))
  {
    hide JumpCode, LoopTail, Searches, OpenJump, Repeats, CodeOf;
    PlainLaid(b, r + (c + OpenJump(OP_JUMP_IF_FALSE) + [OP_POP]));
    TailCode(r, c, CodeOf(b));
  }

  /** When no conditional jump is open before it, the first search gives the exit its distance. */
  lemma ExitFound(r: seq<byte>, c: seq<byte>, b: seq<byte>)
    requires Closed(r + c, OP_JUMP_IF_FALSE) && Sealed(LoopTail(c, b), OP_JUMP_IF_FALSE)
    requires |c| + |b| + 7 <= UINT16_MAX
    ensures Search(Exits, (r + c) + OpenJump(OP_JUMP_IF_FALSE) + LoopTail(c, b), 0) == Done(r + WhileCode(c, b))
  {
    hide Closed, LoopTail, Search, Aimed;
    OneOpen(Exits, r + c, LoopTail(c, b), 0);
    TailCode(r, c, b);
  }

  // ----- chunks that differ in the distances of open jumps over second branches -----

  /** `r` is `b` but for the distances of the jumps at `open`, which are 0 in `b`. */
  ghost predicate Near(r: seq<byte>, b: seq<byte>, open: set<int>) {
    && |r| == |b|
    && (forall q :: q in open ==> OpenAt(r, b, q))
    && (forall k :: 0 <= k < |b| && k - 1 !in open && k - 2 !in open ==> r[k] == b[k])
  }

  ghost predicate OpenAt(r: seq<byte>, b: seq<byte>, q: int)
    requires |r| == |b|
  {
    0 <= q && q + 4 <= |b| && b[q..q + 4] == [OP_JUMP, 0, 0, OP_POP] && r[q] == OP_JUMP && r[q + 3] == OP_POP
  }

  lemma NearSelf(r: seq<byte>, b: seq<byte>)
    ensures Near(r, b, {}) <==> r == b
  {
  }

  lemma NearAppend(r: seq<byte>, b: seq<byte>, open: set<int>, more: seq<byte>)
    requires Near(r, b, open)
    ensures Near(r + more, b + more, open)
  {
    forall q | q in open
      ensures OpenAt(r + more, b + more, q)
    {
      assert OpenAt(r, b, q);
      assert (b + more)[q..q + 4] == b[q..q + 4];
    }
  }

  /** The code of an open jump over a second branch. */
  const SHUT: seq<byte> := [OP_JUMP, 0, 0, OP_POP]

  lemma NearOpen(r: seq<byte>, b: seq<byte>, open: set<int>)
    requires Near(r, b, open)
    ensures Near(r + (OpenJump(OP_JUMP) + [OP_POP]), b + SHUT, open + {|b|})
  {
    var r', b' := r + (OpenJump(OP_JUMP) + [OP_POP]), b + SHUT;
    forall q | q in open + {|b|}
      ensures OpenAt(r', b', q)
    {
      if q in open {
        assert OpenAt(r, b, q);
        assert b'[q..q + 4] == b[q..q + 4];
      } else {
        assert b'[q..q + 4] == SHUT;
      }
    }
    assert |b| in open + {|b|};
  }

  /** The jump gets its distance at the end of the second branch. */
  lemma NearClose(r: seq<byte>, b: seq<byte>, f: seq<byte>, open: set<int>)
    requires |f| + 1 <= UINT16_MAX && Near(r, b + SHUT + f, open + {|b|}) && forall q :: q in open ==> q + 4 <= |b|
    ensures CloseElse(Done(r), |f|).Done?
    ensures Near(CloseElse(Done(r), |f|).code, b + (JumpCode(OP_JUMP, |f| + 1) + [OP_POP]) + f, open)
  {
    var b0, b' := b + SHUT + f, b + (JumpCode(OP_JUMP, |f| + 1) + [OP_POP]) + f;
    var r' := CloseElse(Done(r), |f|).code;
    assert |b| in open + {|b|} && OpenAt(r, b0, |b|);
    forall q | q in open
      ensures OpenAt(r', b', q)
    {
      assert q in open + {|b|} && OpenAt(r, b0, q);
      assert b'[q..q + 4] == b0[q..q + 4];
    }
    forall k | 0 <= k < |b'| && k - 1 !in open && k - 2 !in open
      ensures r'[k] == b'[k]
    {
      if k - 1 == |b| || k - 2 == |b| {
      } else {
        assert r[k] == b0[k];
      }
    }
  }

  /** Open jumps over second branches are not conditional. */
  lemma NearClosed(r: seq<byte>, b: seq<byte>, open: set<int>)
    requires Near(r, b, open) && Closed(b, OP_JUMP_IF_FALSE)
    ensures Closed(r, OP_JUMP_IF_FALSE)
  {
    forall k: nat | k + 3 <= |r|
      ensures !IsPlaceholder(r, k, OP_JUMP_IF_FALSE)
    {
      assert !IsPlaceholder(b, k, OP_JUMP_IF_FALSE);
      NotInside(r, b, open, k, OP_JUMP_IF_FALSE);
    }
  }

  /** Where the chunk has a placeholder and the code has none, a jump is open. */
  lemma NotInside(r: seq<byte>, b: seq<byte>, open: set<int>, k: nat, op: byte)
    requires Near(r, b, open) && k + 3 <= |r| && !IsPlaceholder(b, k, op) && op != 255
    ensures IsPlaceholder(r, k, op) ==> k in open && op == OP_JUMP
  {
    if k in open { assert OpenAt(r, b, k); }
    if k - 1 in open { assert OpenAt(r, b, k - 1); }
    if k - 2 in open { assert OpenAt(r, b, k - 2); }
    if k + 1 in open { assert OpenAt(r, b, k + 1); }
  }

  lemma NearTurn(r: seq<byte>, b: seq<byte>, open: set<int>, i: nat)
    requires Near(r, b, open) && Closed(b, OP_JUMP) && Turn(Breaks, r, i).Next?
    ensures Near(Turn(Breaks, r, i).code, b, open) && FirstOpen(r, i, OP_JUMP) in open
  {
    var p := FirstOpen(r, i, OP_JUMP);
    var t := Turn(Breaks, r, i).code;
    assert !IsPlaceholder(b, p, OP_JUMP);
    NotInside(r, b, open, p, OP_JUMP);
    forall q | q in open
      ensures OpenAt(t, b, q)
    {
      assert OpenAt(r, b, q) && OpenAt(r, b, p);
    }
  }

  lemma {:induction false} NearSearch(r: seq<byte>, b: seq<byte>, open: set<int>, i: nat)
    requires Near(r, b, open) && Closed(b, OP_JUMP) && Search(Breaks, r, i).Done?
    ensures Near(Search(Breaks, r, i).code, b, open)
    decreases Weight(r, OP_JUMP, 0), if i == Standing(r, Breaks) then 0 else 1
  {
    hide Near, Closed;
    var t := Turn(Breaks, r, i);
    if t.Next? {
      NearTurn(r, b, open, i);
      TurnProgress(Breaks, r, i);
      NearSearch(t.code, b, open, t.i);
    }
  }

  /** At most one jump is open, and `end` is less than a placeholder's distance away. */
  ghost predicate Single(open: set<int>, end: nat) {
    && (forall p, q :: p in open && q in open ==> p == q)
    && (forall q :: q in open ==> end - q - 3 < UINT16_MAX)
  }

  /** With one open jump over a second branch the second search ends. */
  lemma SingleEnds(r: seq<byte>, b: seq<byte>, open: set<int>)
    requires Near(r, b, open) && Closed(b, OP_JUMP) && Single(open, |b|)
    ensures Search(Breaks, r, 0).Done?
  {
    hide Near, Closed;
    var t := Turn(Breaks, r, 0);
    if t.Next? {
      var p := FirstOpen(r, 0, OP_JUMP);
      NearTurn(r, b, open, 0);
      SameBytes(r, p, |r| - p - 3);
      assert !IsPlaceholder(t.code, p, OP_JUMP);
      if Turn(Breaks, t.code, t.i).Next? {
        NearTurn(t.code, b, open, t.i);
      }
    }
  }

  lemma NearBelow(r: seq<byte>, b: seq<byte>, open: set<int>)
    requires Near(r, b, open)
    ensures forall q :: q in open ==> q + 4 <= |b|
  {
    forall q | q in open
      ensures q + 4 <= |b|
    {
      assert OpenAt(r, b, q);
    }
  }

  // ----- where loops stand -----

  /** Loops occur in no first branch, but for loops in loops, and up to the end of each loop, with the code
      `before` and jumps over second branches not counted, no finished jump leads over exactly 65535 bytes. */
  ghost predicate Clear(p: Piece, before: seq<byte>)
    decreases p
  {
    match p
    case Flat(_) => true
    case Both(a, b) => Clear(a, before) && Clear(b, before + CodeOf(a))
    case Cond(c, t, f) => !Repeats(t) && (Repeats(f) ==> Clear(f, before + ThenCode(c, CodeOf(t)) + SHUT))
    case Loop(c, b) => NoPlaceholder(before + WhileCode(c, CodeOf(b)))
  }

  /** There is a loop in a loop. */
  predicate Nested(p: Piece) {
    OutlineOf(p).Nested()
  }

  /** No loop is in a second branch of a second branch, nor in one that is 65534 bytes long. */
  predicate Shallow(p: Piece, second: bool) {
    match p
    case Flat(_) => true
    case Both(a, b) => Shallow(a, second) && Shallow(b, second)
    case Cond(_, _, f) => Repeats(f) ==> !second && |CodeOf(f)| + 1 < UINT16_MAX && Shallow(f, true)
    case Loop(_, _) => true
  }

  /** Code in which nothing looks like an open jump is clear if its first branches have no loops. */
  lemma {:induction false} PlainIsClear(p: Piece, before: seq<byte>)
    requires OutlineOf(p).FirstsPlain() && NoPlaceholder(before + CodeOf(p))
    ensures Clear(p, before)
  {
    hide NoPlaceholder, IfCode, WhileCode, ThenCode;
    match p
    case Flat(_) =>
    case Both(a, b) =>
      assert before + CodeOf(a) + CodeOf(b) == before + CodeOf(p);
      NoneInFront(before + CodeOf(a), CodeOf(b));
      PlainIsClear(a, before);
      PlainIsClear(b, before + CodeOf(a));
    case Cond(c, t, f) =>
      var thn := ThenCode(c, CodeOf(t));
      IfCodeParts(before, c, CodeOf(t), CodeOf(f));
      NoneWhenShut(before + thn, |CodeOf(f)| + 1, CodeOf(f));
      PlainIsClear(f, before + thn + SHUT);
    case Loop(_, _) =>
  }

  lemma NoneInFront(a: seq<byte>, b: seq<byte>)
    requires NoPlaceholder(a + b)
    ensures NoPlaceholder(a)
  {
    forall i | 0 <= i <= |a| - 3
      ensures !IsPlaceholder(a, i, OP_JUMP_IF_FALSE) && !IsPlaceholder(a, i, OP_JUMP)
    {
      assert !IsPlaceholder(a + b, i, OP_JUMP_IF_FALSE) && !IsPlaceholder(a + b, i, OP_JUMP);
    }
  }

  lemma NoneWhenShut(x: seq<byte>, d: nat, y: seq<byte>)
    requires NoPlaceholder(x + (JumpCode(OP_JUMP, d) + [OP_POP]) + y)
    ensures NoPlaceholder(x + SHUT + y)
  {
    var code, shut := x + (JumpCode(OP_JUMP, d) + [OP_POP]) + y, x + SHUT + y;
    forall i | 0 <= i <= |shut| - 3
      ensures !IsPlaceholder(shut, i, OP_JUMP_IF_FALSE) && !IsPlaceholder(shut, i, OP_JUMP)
    {
      assert !IsPlaceholder(code, i, OP_JUMP_IF_FALSE) && !IsPlaceholder(code, i, OP_JUMP);
    }
  }

  lemma {:induction false} SecondsFit(p: Piece, second: bool)
    requires OutlineOf(p).SecondsShallow(second) && |CodeOf(p)| < UINT16_MAX
    ensures Shallow(p, second)
  {
    match p
    case Flat(_) =>
    case Both(a, b) =>
      SecondsFit(a, second);
      SecondsFit(b, second);
    case Cond(_, t, f) => if Repeats(f) { SecondsFit(f, true); }
    case Loop(_, _) =>
  }

  // ----- no loop in a loop -----

  /** After a piece with this code the chunk is the code, but for the jumps still open; and compilation ends
      if `ends`. */
  ghost predicate Placed(o: Outcome, b: seq<byte>, code: seq<byte>, open: set<int>, ends: bool) {
    && (o.Done? ==> Near(o.code, b + code, open))
    && (ends && Single(open, |b| + |code|) ==> o.Done?)
  }

  lemma {:induction false} ClearLaid(p: Piece, r: seq<byte>, b: seq<byte>, open: set<int>)
    requires Fits(p) && Clear(p, b) && !Nested(p) && Near(r, b, open)
    ensures Placed(Lay(p, Done(r)), b, CodeOf(p), open, Shallow(p, open != {}))
    decreases p, 1
  {
    hide Near, CodeOf, Lay, Fits;
    if !Repeats(p) {
      PlainLaid(p, r);
      NearAppend(r, b, open, CodeOf(p));
    } else {
      match p
      case Both(x, y) => BothLaid(x, y, r, b, open);
      case Cond(c, t, f) => CondLaid(c, t, f, r, b, open);
      case Loop(c, x) => LoopLaid(c, x, r, b, open);
      case _ =>
    }
  }

  lemma {:induction false} BothLaid(x: Piece, y: Piece, r: seq<byte>, b: seq<byte>, open: set<int>)
    requires Fits(Both(x, y)) && Clear(Both(x, y), b) && !Nested(Both(x, y)) && Near(r, b, open)
    ensures Placed(Lay(Both(x, y), Done(r)), b, CodeOf(Both(x, y)), open, Shallow(Both(x, y), open != {}))
    decreases Both(x, y), 0
  {
    hide Near;
    ClearLaid(x, r, b, open);
    assert b + CodeOf(x) + CodeOf(y) == b + CodeOf(Both(x, y));
    if Lay(x, Done(r)).Done? {
      ClearLaid(y, Lay(x, Done(r)).code, b + CodeOf(x), open);
    } else {
      LayGrown(y, Unending);
    }
  }

  lemma {:induction false} CondLaid(c: seq<byte>, t: Piece, f: Piece, r: seq<byte>, b: seq<byte>, open: set<int>)
    requires Fits(Cond(c, t, f)) && Clear(Cond(c, t, f), b) && !Nested(Cond(c, t, f)) && Repeats(f)
    requires Near(r, b, open)
    ensures Placed(Lay(Cond(c, t, f), Done(r)), b, CodeOf(Cond(c, t, f)), open, Shallow(Cond(c, t, f), open != {}))
    decreases Cond(c, t, f), 0
  {
    hide Near, ThenCode, IfCode, JumpCode, CloseElse, CloseThen, OpenJump;
    PlainThen(c, t, r);
    var thn := ThenCode(c, CodeOf(t));
    SecondBranch(r, b, open, thn);
    NearBelow(r, b, open);
    var r1 := r + thn + (OpenJump(OP_JUMP) + [OP_POP]);
    ClearLaid(f, r1, b + thn + SHUT, open + {|b + thn|});
    var o := Lay(f, Done(r1));
    if o.Done? { NearClose(o.code, b + thn, CodeOf(f), open); }
    IfCodeParts(b, c, CodeOf(t), CodeOf(f));
  }

  /** The start of a second branch. */
  lemma SecondBranch(r: seq<byte>, b: seq<byte>, open: set<int>, thn: seq<byte>)
    requires Near(r, b, open)
    ensures Near(r + thn + (OpenJump(OP_JUMP) + [OP_POP]), b + thn + SHUT, open + {|b + thn|})
  {
    hide Near;
    NearAppend(r, b, open, thn);
    NearOpen(r + thn, b + thn, open);
  }

  lemma IfCodeParts(b: seq<byte>, c: seq<byte>, t: seq<byte>, f: seq<byte>)
    ensures b + ThenCode(c, t) + (JumpCode(OP_JUMP, |f| + 1) + [OP_POP]) + f == b + IfCode(c, t, f)
  {
    hide JumpCode;
  }

  lemma LoopLaid(c: seq<byte>, x: Piece, r: seq<byte>, b: seq<byte>, open: set<int>)
    requires Fits(Loop(c, x)) && Clear(Loop(c, x), b) && !Repeats(x) && Near(r, b, open)
    ensures Placed(Lay(Loop(c, x), Done(r)), b, CodeOf(Loop(c, x)), open, true)
  {
    hide Near, NoPlaceholder, Closed, WhileCode, LoopTail, Search, Lay;
    var code := WhileCode(c, CodeOf(x));
    LoopEmitted(c, x, r);
    LoopParts(b, c, CodeOf(x));
    NearAppend(r, b, open, c);
    NearClosed(r + c, b + c, open);
    ExitFound(r, c, CodeOf(x));
    QuietCloses(b + code);
    NearAppend(r, b, open, code);
    if Search(Breaks, r + code, 0).Done? { NearSearch(r + code, b + code, open, 0); }
    if Single(open, |b| + |code|) { SingleEnds(r + code, b + code, open); }
  }

  /** Condition and rest of a loop are in its code. */
  lemma LoopParts(b: seq<byte>, c: seq<byte>, x: seq<byte>)
    requires NoPlaceholder(b + WhileCode(c, x))
    ensures Closed(b + c, OP_JUMP_IF_FALSE) && Sealed(LoopTail(c, x), OP_JUMP_IF_FALSE)
  {
    hide LoopTail, WhileCode;
    var code := b + WhileCode(c, x);
    TailCode(b, c, x);
    forall k: nat | k + 3 <= |b + c|
      ensures !IsPlaceholder(b + c, k, OP_JUMP_IF_FALSE)
    {
      assert !IsPlaceholder(code, k, OP_JUMP_IF_FALSE);
    }
    TailStarts(c, x);
    forall k: nat | k + 3 <= |LoopTail(c, x)|
      ensures !IsPlaceholder(LoopTail(c, x), k, OP_JUMP_IF_FALSE)
    {
      assert !IsPlaceholder(code, |b + c| + 3 + k, OP_JUMP_IF_FALSE);
    }
  }

  lemma TailStarts(c: seq<byte>, x: seq<byte>)
    ensures LoopTail(c, x)[0] == OP_POP
  {
  }

}
