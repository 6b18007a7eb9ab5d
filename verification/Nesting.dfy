/** Loops around loops.  The first search inside a loop aims the loop's exit at the bottom of the inner loop,
    and nothing that is laid down later touches that jump again: a false condition leads back into the body. */
module Nesting {
  import opened Bytecode
  import opened Codegen
  import opened ExitSearch
  import opened Laying
  import opened LoopScan
  import opened Patching
  import opened Pieces

  // ----- a closed jump stays as it is -----

  /** The conditional jump at `q` has a distance, and the pop behind it. */
  predicate Finished(code: seq<byte>, q: nat) {
    && q + 4 <= |code| && code[q] == OP_JUMP_IF_FALSE && code[q + 3] == OP_POP
    && !IsPlaceholder(code, q, OP_JUMP_IF_FALSE)
  }

  /** The chunk has grown, with the same jump at `q`. */
  ghost predicate Keeps(code: seq<byte>, after: seq<byte>, q: nat) {
    q + 4 <= |code| <= |after| && after[q..q + 4] == code[q..q + 4]
  }

  lemma KeepsFinished(code: seq<byte>, after: seq<byte>, q: nat)
    requires Finished(code, q) && Keeps(code, after, q)
    ensures Finished(after, q) && ReadU16(after, q + 1) == ReadU16(code, q + 1)
  {
    assert forall k :: q <= k < q + 4 ==> after[k] == after[q..q + 4][k - q] && code[k] == code[q..q + 4][k - q];
  }

  lemma KeepsAppended(code: seq<byte>, more: seq<byte>, q: nat)
    requires q + 4 <= |code|
    ensures Keeps(code, code + more, q)
  {
  }

  /** A placeholder does not overlap a closed jump with a pop behind it. */
  lemma TurnKeeps(kind: Kind, code: seq<byte>, i: nat, q: nat)
    requires Finished(code, q) && Turn(kind, code, i).Next?
    ensures Keeps(code, Turn(kind, code, i).code, q)
  {
    var p := FirstOpen(code, i, kind.Op());
    assert IsPlaceholder(code, p, kind.Op());
    assert p + 2 < q || p > q + 2;
  }

  lemma {:induction false} SearchKeeps(kind: Kind, code: seq<byte>, i: nat, q: nat)
    requires Finished(code, q) && Search(kind, code, i).Done?
    ensures Keeps(code, Search(kind, code, i).code, q)
    decreases Weight(code, kind.Op(), 0), if i == Standing(code, kind) then 0 else 1
  {
    hide Finished, Keeps;
    var t := Turn(kind, code, i);
    if t.Next? {
      TurnProgress(kind, code, i);
      TurnKeeps(kind, code, i, q);
      KeepsFinished(code, t.code, q);
      SearchKeeps(kind, t.code, t.i, q);
      KeepsOn(code, t.code, Search(kind, t.code, t.i).code, q);
    } else {
      KeepsSelf(code, q);
    }
  }

  lemma KeepsSelf(code: seq<byte>, q: nat)
    requires Finished(code, q)
    ensures Keeps(code, code, q)
  {
  }

  lemma KeepsOn(a: seq<byte>, b: seq<byte>, c: seq<byte>, q: nat)
    requires Keeps(a, b, q) && Keeps(b, c, q)
    ensures Keeps(a, c, q)
  {
  }

  lemma CloseLoopKeeps(code: seq<byte>, back: nat, q: nat)
    requires Finished(code, q) && CloseLoop(Done(code), back).Done?
    ensures Keeps(code, CloseLoop(Done(code), back).code, q)
  {
    hide Finished, Keeps, Search, JumpCode;
    var jump := if back > UINT16_MAX then [] else JumpCode(OP_LOOP, back);
    var bottom := code + jump + [OP_POP];
    FinishedFits(code, q);
    KeepsAppended(code, jump, q);
    KeepsFinished(code, code + jump, q);
    FinishedFits(code + jump, q);
    KeepsAppended(code + jump, [OP_POP], q);
    KeepsOn(code, code + jump, bottom, q);
    KeepsFinished(code, bottom, q);
    SearchesKeep(bottom, q);
    KeepsOn(code, bottom, Searches(bottom).code, q);
  }

  lemma FinishedFits(code: seq<byte>, q: nat)
    requires Finished(code, q)
    ensures q + 4 <= |code|
  {
  }

  lemma SearchesKeep(code: seq<byte>, q: nat)
    requires Finished(code, q) && Searches(code).Done?
    ensures Keeps(code, Searches(code).code, q)
  {
    hide Finished, Keeps, Search;
    var between := Search(Exits, code, 0).code;
    SearchKeeps(Exits, code, 0, q);
    KeepsFinished(code, between, q);
    SearchKeeps(Breaks, between, 0, q);
    KeepsOn(code, between, Search(Breaks, between, 0).code, q);
  }

  lemma CloseThenKeeps(code: seq<byte>, n: nat, q: nat)
    requires q + 4 + n + 3 <= |code|
    ensures CloseThen(Done(code), n).Done? && Keeps(code, CloseThen(Done(code), n).code, q)
  {
  }

  lemma CloseElseKeeps(code: seq<byte>, n: nat, q: nat)
    requires q + 4 + n + 3 <= |code| && CloseElse(Done(code), n).Done?
    ensures Keeps(code, CloseElse(Done(code), n).code, q)
  {
  }

  /** Nothing that is laid behind a closed jump changes it. */
  lemma {:induction false} LayKeeps(p: Piece, r: seq<byte>, q: nat)
    requires Fits(p) && Finished(r, q) && Lay(p, Done(r)).Done?
    ensures Keeps(r, Lay(p, Done(r)).code, q)
    decreases p, 1
  {
    hide Finished, Keeps, CloseThen, CloseElse, CloseLoop, CodeOf, Patch;
    FinishedFits(r, q);
    match p
    case Flat(code) => KeepsAppended(r, code, q);
    case Both(a, b) => LayKeepsOn(a, b, r, q);
    case Cond(c, t, f) => CondKeeps(c, t, f, r, q);
    case Loop(c, b) =>
      var g := r + (c + OpenJump(OP_JUMP_IF_FALSE) + [OP_POP]);
      var body := Lay(b, Done(g));
      KeepsAppended(r, c + OpenJump(OP_JUMP_IF_FALSE) + [OP_POP], q);
      KeepsFinished(r, g, q);
      LayKeeps(b, g, q);
      KeepsOn(r, g, body.code, q);
      KeepsFinished(g, body.code, q);
      CloseLoopKeeps(body.code, |c| + |CodeOf(b)| + 7, q);
      KeepsOn(r, body.code, Lay(p, Done(r)).code, q);
  }

  lemma {:induction false} LayKeepsOn(a: Piece, b: Piece, r: seq<byte>, q: nat)
    requires Fits(Both(a, b)) && Finished(r, q) && Lay(Both(a, b), Done(r)).Done?
    ensures Keeps(r, Lay(Both(a, b), Done(r)).code, q)
    decreases Both(a, b), 0
  {
    hide Finished, Keeps, CodeOf, Lay, Fits;
    BothSteps(a, b, Done(r));
    LayGrown(b, Lay(a, Done(r)));
    LayKeeps(a, r, q);
    var between := Lay(a, Done(r)).code;
    KeepsFinished(r, between, q);
    LayKeeps(b, between, q);
    KeepsOn(r, between, Lay(b, Done(between)).code, q);
  }

  lemma {:induction false} CondKeeps(c: seq<byte>, t: Piece, f: Piece, r: seq<byte>, q: nat)
    requires Fits(Cond(c, t, f)) && Finished(r, q) && Lay(Cond(c, t, f), Done(r)).Done?
    ensures Keeps(r, Lay(Cond(c, t, f), Done(r)).code, q)
    decreases Cond(c, t, f), 0
  {
    hide Finished, Keeps, CloseThen, CloseElse, CodeOf;
    FinishedFits(r, q);
    var g := r + (c + OpenJump(OP_JUMP_IF_FALSE) + [OP_POP]);
    var x := Lay(t, Done(g));
    var y := CloseThen(x, |CodeOf(t)|);
    var z := Lay(f, y);
    LayGrown(f, y);
    CloseThenDone(x, |CodeOf(t)|);
    LayGrown(t, Done(g));
    KeepsAppended(r, c + OpenJump(OP_JUMP_IF_FALSE) + [OP_POP], q);
    KeepsFinished(r, g, q);
    LayKeeps(t, g, q);
    KeepsOn(r, g, x.code, q);
    CloseThenKeeps(x.code, |CodeOf(t)|, q);
    KeepsOn(r, x.code, y.code, q);
    KeepsFinished(r, y.code, q);
    LayKeeps(f, y.code, q);
    KeepsOn(r, y.code, z.code, q);
    CloseElseKeeps(z.code, |CodeOf(f)|, q);
    KeepsOn(r, z.code, CloseElse(z, |CodeOf(f)|).code, q);
  }

  lemma CloseThenDone(at: Outcome, n: nat)
    requires CloseThen(at, n).Done?
    ensures at.Done? && |CloseThen(at, n).code| == |at.code| + 4
  {
  }

  // ----- one level of pieces -----

  lemma BothSteps(a: Piece, b: Piece, at: Outcome)
    requires Fits(Both(a, b))
    ensures Fits(a) && Fits(b) && CodeOf(Both(a, b)) == CodeOf(a) + CodeOf(b)
    ensures Lay(Both(a, b), at) == Lay(b, Lay(a, at))
  {
  }

  lemma LoopSteps(c: seq<byte>, b: Piece, r: seq<byte>)
    requires Fits(Loop(c, b))
    ensures Fits(b) && |c| + |CodeOf(b)| + 7 <= UINT16_MAX && CodeOf(Loop(c, b)) == WhileCode(c, CodeOf(b))
    ensures Lay(Loop(c, b), Done(r)) ==
      CloseLoop(Lay(b, Done(r + (c + OpenJump(OP_JUMP_IF_FALSE) + [OP_POP]))), |c| + |CodeOf(b)| + 7)
  {
    hide CodeOf, CloseLoop;
    assert CodeOf(Loop(c, b)) == WhileCode(c, CodeOf(b)) by { LoopCode(c, b); }
  }

  lemma LoopCode(c: seq<byte>, b: Piece)
    ensures CodeOf(Loop(c, b)) == WhileCode(c, CodeOf(b))
  {
  }

  // ----- the first search inside a loop closes the loop's exit -----

  /** The first open conditional jump is at `q`, with its pop behind it. */
  ghost predicate FirstAt(code: seq<byte>, q: nat) {
    && q + 4 <= |code| && code[q..q + 4] == OpenJump(OP_JUMP_IF_FALSE) + [OP_POP]
    && forall k: nat :: k < q && k + 3 <= |code| ==> !IsPlaceholder(code, k, OP_JUMP_IF_FALSE)
  }

  lemma FirstStays(code: seq<byte>, more: seq<byte>, q: nat)
    requires FirstAt(code, q)
    ensures FirstAt(code + more, q)
  {
    assert (code + more)[q..q + 4] == code[q..q + 4];
    forall k: nat | k < q && k + 3 <= |code + more|
      ensures !IsPlaceholder(code + more, k, OP_JUMP_IF_FALSE)
    {
      assert !IsPlaceholder(code, k, OP_JUMP_IF_FALSE);
    }
  }

  /** The jump at `q` has a distance, and leads to a place before the end of the chunk. */
  predicate Misled(code: seq<byte>, q: nat) {
    Finished(code, q) && q + 3 + ReadU16(code, q + 1) < |code|
  }

  lemma MisledStays(code: seq<byte>, after: seq<byte>, q: nat)
    requires Misled(code, q) && Keeps(code, after, q)
    ensures Misled(after, q)
  {
    KeepsFinished(code, after, q);
  }

  lemma FirstTurn(code: seq<byte>, q: nat)
    requires FirstAt(code, q) && |code| <= q + UINT16_MAX
    ensures var t := Turn(Exits, code, 0); t.Next? && t.code != code && Misled(t.code, q)
  {
    assert code[q..q + 4][0] == code[q] && code[q..q + 4][1] == code[q + 1];
    assert code[q..q + 4][2] == code[q + 2] && code[q..q + 4][3] == code[q + 3];
    assert IsPlaceholder(code, q, OP_JUMP_IF_FALSE);
    var d := |code| - 4 - q;
    assert FirstOpen(code, 0, OP_JUMP_IF_FALSE) == q;
    var t := Turn(Exits, code, 0);
    assert t.code == Aim(code, q, d);
    LowBytes(d);
    assert ReadU16(t.code, q + 1) == d;
  }

  lemma SearchesMislead(code: seq<byte>, q: nat)
    requires FirstAt(code, q) && |code| <= q + UINT16_MAX && Searches(code).Done?
    ensures Misled(Searches(code).code, q)
  {
    hide FirstAt, Keeps, Turn;
    FirstTurn(code, q);
    TurnProgress(Exits, code, 0);
    var t := Turn(Exits, code, 0);
    var between := Search(Exits, code, 0);
    assert between == Search(Exits, t.code, t.i);
    SearchKeeps(Exits, t.code, t.i, q);
    MisledStays(t.code, between.code, q);
    SearchKeeps(Breaks, between.code, 0, q);
    MisledStays(between.code, Searches(code).code, q);
  }

  /** A piece with a loop in it, laid behind an open exit: the exit leads into the piece. */
  lemma {:induction false} FirstSearch(p: Piece, r: seq<byte>, q: nat)
    requires Fits(p) && Repeats(p) && FirstAt(r, q) && |r| + |CodeOf(p)| <= q + UINT16_MAX
    requires Lay(p, Done(r)).Done?
    ensures Misled(Lay(p, Done(r)).code, q)
    decreases p, 1
  {
    hide FirstAt, Misled, CloseThen, CloseElse, CloseLoop, IfCode, WhileCode;
    match p
    case Both(a, b) => FirstOfBoth(a, b, r, q);
    case Cond(c, t, f) => FirstOfCond(c, t, f, r, q);
    case Loop(c, b) => FirstOfLoop(c, b, r, q);
  }

  lemma {:induction false} FirstOfBoth(a: Piece, b: Piece, r: seq<byte>, q: nat)
    requires Fits(Both(a, b)) && Repeats(Both(a, b)) && FirstAt(r, q) && Lay(Both(a, b), Done(r)).Done?
    requires |r| + |CodeOf(Both(a, b))| <= q + UINT16_MAX
    ensures Misled(Lay(Both(a, b), Done(r)).code, q)
    decreases Both(a, b), 0
  {
    hide FirstAt, Keeps, Finished, CodeOf, Lay, Fits;
    BothSteps(a, b, Done(r));
    LayGrown(b, Lay(a, Done(r)));
    if Repeats(a) {
      FirstSearch(a, r, q);
      LayKeeps(b, Lay(a, Done(r)).code, q);
      MisledStays(Lay(a, Done(r)).code, Lay(Both(a, b), Done(r)).code, q);
    } else {
      PlainLaid(a, r);
      FirstStays(r, CodeOf(a), q);
      FirstSearch(b, r + CodeOf(a), q);
    }
  }

  lemma {:induction false} FirstOfCond(c: seq<byte>, t: Piece, f: Piece, r: seq<byte>, q: nat)
    requires Fits(Cond(c, t, f)) && Repeats(Cond(c, t, f)) && FirstAt(r, q) && Lay(Cond(c, t, f), Done(r)).Done?
    requires |r| + |CodeOf(Cond(c, t, f))| <= q + UINT16_MAX
    ensures Misled(Lay(Cond(c, t, f), Done(r)).code, q)
    decreases Cond(c, t, f), 0
  {
    hide FirstAt, Keeps, Finished, CloseThen, CloseElse, ThenCode;
    var g := r + (c + OpenJump(OP_JUMP_IF_FALSE) + [OP_POP]);
    var x := Lay(t, Done(g));
    var y := CloseThen(x, |CodeOf(t)|);
    var z := Lay(f, y);
    FirstFits(r, q);
    LayGrown(f, y);
    CloseThenDone(x, |CodeOf(t)|);
    LayGrown(t, Done(g));
    if Repeats(t) {
      FirstStays(r, c + OpenJump(OP_JUMP_IF_FALSE) + [OP_POP], q);
      FirstSearch(t, g, q);
      CloseThenKeeps(x.code, |CodeOf(t)|, q);
      MisledStays(x.code, y.code, q);
      LayKeeps(f, y.code, q);
      MisledStays(y.code, z.code, q);
    } else {
      PlainThen(c, t, r);
      FirstStays(r, ThenCode(c, CodeOf(t)), q);
      FirstStays(r + ThenCode(c, CodeOf(t)), OpenJump(OP_JUMP) + [OP_POP], q);
      FirstSearch(f, y.code, q);
    }
    CloseElseKeeps(z.code, |CodeOf(f)|, q);
    MisledStays(z.code, CloseElse(z, |CodeOf(f)|).code, q);
  }

  lemma FirstFits(code: seq<byte>, q: nat)
    requires FirstAt(code, q)
    ensures q + 4 <= |code|
  {
  }

  lemma {:induction false} FirstOfLoop(c: seq<byte>, b: Piece, r: seq<byte>, q: nat)
    requires Fits(Loop(c, b)) && FirstAt(r, q) && Lay(Loop(c, b), Done(r)).Done?
    requires |r| + |CodeOf(Loop(c, b))| <= q + UINT16_MAX
    ensures Misled(Lay(Loop(c, b), Done(r)).code, q)
    decreases Loop(c, b), 0
  {
    hide FirstAt, Keeps, Finished, Searches, LoopTail, CodeOf, Lay, Fits;
    LoopSteps(c, b, r);
    var g := r + (c + OpenJump(OP_JUMP_IF_FALSE) + [OP_POP]);
    if Repeats(b) {
      FirstStays(r, c + OpenJump(OP_JUMP_IF_FALSE) + [OP_POP], q);
      FirstSearch(b, g, q);
      var x := Lay(b, Done(g));
      CloseLoopKeeps(x.code, |c| + |CodeOf(b)| + 7, q);
      MisledStays(x.code, Lay(Loop(c, b), Done(r)).code, q);
    } else {
      LoopEmitted(c, b, r);
      FirstStays(r, c, q);
      FirstStays(r + c, OpenJump(OP_JUMP_IF_FALSE), q);
      FirstStays(r + c + OpenJump(OP_JUMP_IF_FALSE), LoopTail(c, CodeOf(b)), q);
      SearchesMislead((r + c) + OpenJump(OP_JUMP_IF_FALSE) + LoopTail(c, CodeOf(b)), q);
    }
  }

  // ----- a loop around a loop -----

  /** Where no conditional jump is open before it, the exit of a loop around a loop leads back into the loop,
      to a place before the jump back. */
  lemma {:induction false} ExitLeadsBack(c: seq<byte>, b: Piece, r: seq<byte>)
    requires Fits(Loop(c, b)) && Repeats(b) && Closed(r + c, OP_JUMP_IF_FALSE) && Lay(Loop(c, b), Done(r)).Done?
    ensures var code, q := Lay(Loop(c, b), Done(r)).code, |r| + |c|;
      && |code| == |r| + |WhileCode(c, CodeOf(b))|
      && Finished(code, q) && q + 3 + ReadU16(code, q + 1) < q + 4 + |CodeOf(b)|
  {
    hide FirstAt, Keeps, Finished, Closed, WhileCode, CodeOf, Lay, Fits, CloseLoop;
    LoopSteps(c, b, r);
    var q := |r| + |c|;
    var g := r + (c + OpenJump(OP_JUMP_IF_FALSE) + [OP_POP]);
    OpensAt(r, c);
    LayGrown(b, Done(g));
    FirstSearch(b, g, q);
    var x := Lay(b, Done(g));
    CloseLoopKeeps(x.code, |c| + |CodeOf(b)| + 7, q);
    KeepsFinished(x.code, Lay(Loop(c, b), Done(r)).code, q);
  }

  lemma OpensAt(r: seq<byte>, c: seq<byte>)
    requires Closed(r + c, OP_JUMP_IF_FALSE)
    ensures FirstAt(r + (c + OpenJump(OP_JUMP_IF_FALSE) + [OP_POP]), |r| + |c|)
  {
    var g := r + (c + OpenJump(OP_JUMP_IF_FALSE) + [OP_POP]);
    assert g == (r + c) + (OpenJump(OP_JUMP_IF_FALSE) + [OP_POP]);
    forall k: nat | k < |r| + |c| && k + 3 <= |g|
      ensures !IsPlaceholder(g, k, OP_JUMP_IF_FALSE)
    {
      if k + 3 <= |r + c| { assert !IsPlaceholder(r + c, k, OP_JUMP_IF_FALSE); }
    }
  }

  /** The distance that is meant. */
  lemma ExitMeant(b: seq<byte>, c: seq<byte>, x: seq<byte>)
    requires |x| + 4 <= UINT16_MAX
    ensures ReadU16(b + WhileCode(c, x), |b| + |c| + 1) == |x| + 4
  {
    var code, d := b + WhileCode(c, x), |x| + 4;
    assert code[|b| + |c| + 1] == d % 256 && code[|b| + |c| + 2] == d / 256 % 256;
  }

  /** From offset `n` on there is a closed jump with another distance than the code's. */
  ghost predicate Spoiled(s: seq<byte>, code: seq<byte>, n: nat) {
    |s| == |code| && exists q: nat :: n <= q && Finished(s, q) && ReadU16(s, q + 1) != ReadU16(code, q + 1)
  }

  lemma SpoiledIsWrong(s: seq<byte>, code: seq<byte>, n: nat)
    requires Spoiled(s, code, n)
    ensures s != code
  {
  }

  lemma {:induction false} OnlyInLoops(p: Piece)
    ensures Nested(p) ==> Repeats(p)
  {
    match p
    case Both(a, b) =>
      OnlyInLoops(a);
      OnlyInLoops(b);
    case Cond(_, t, f) =>
      OnlyInLoops(t);
      OnlyInLoops(f);
    case _ =>
  }

  lemma {:induction false} NestedLaid(p: Piece, r: seq<byte>, b: seq<byte>, open: set<int>)
    requires Fits(p) && Clear(p, b) && Nested(p) && Near(r, b, open) && Lay(p, Done(r)).Done?
    ensures Spoiled(Lay(p, Done(r)).code, b + CodeOf(p), |b|)
    decreases p, 1
  {
    hide Near, Spoiled, CodeOf, Lay, Fits;
    match p
    case Both(x, y) => NestedInBoth(x, y, r, b, open);
    case Cond(c, t, f) =>
      OnlyInLoops(t);
      OnlyInLoops(f);
      NestedInCond(c, t, f, r, b, open);
    case Loop(c, x) => LoopAroundLoop(c, x, r, b, open);
  }

  lemma LoopAroundLoop(c: seq<byte>, x: Piece, r: seq<byte>, b: seq<byte>, open: set<int>)
    requires Fits(Loop(c, x)) && Clear(Loop(c, x), b) && Repeats(x) && Near(r, b, open)
    requires Lay(Loop(c, x), Done(r)).Done?
    ensures Spoiled(Lay(Loop(c, x), Done(r)).code, b + CodeOf(Loop(c, x)), |b|)
  {
    hide Closed, NoPlaceholder, WhileCode, LoopTail, Lay, CodeOf, Fits;
    LoopSteps(c, x, r);
    LoopParts(b, c, CodeOf(x));
    NearAppend(r, b, open, c);
    NearClosed(r + c, b + c, open);
    ExitLeadsBack(c, x, r);
    ExitMeant(b, c, CodeOf(x));
    assert Finished(Lay(Loop(c, x), Done(r)).code, |b| + |c|);
  }

  lemma {:induction false} NestedInBoth(x: Piece, y: Piece, r: seq<byte>, b: seq<byte>, open: set<int>)
    requires Fits(Both(x, y)) && Clear(Both(x, y), b) && Nested(Both(x, y)) && Near(r, b, open)
    requires Lay(Both(x, y), Done(r)).Done?
    ensures Spoiled(Lay(Both(x, y), Done(r)).code, b + CodeOf(Both(x, y)), |b|)
    decreases Both(x, y), 0
  {
    hide Near, Spoiled, CodeOf, Lay, Fits;
    BothSteps(x, y, Done(r));
    LayGrown(y, Lay(x, Done(r)));
    assert b + CodeOf(x) + CodeOf(y) == b + CodeOf(Both(x, y));
    var between := Lay(x, Done(r)).code;
    if Nested(x) {
      NestedLaid(x, r, b, open);
      SpoiledOn(y, between, b + CodeOf(x), |b|);
    } else {
      ClearLaid(x, r, b, open);
      NestedLaid(y, between, b + CodeOf(x), open);
      SpoiledFrom(Lay(y, Done(between)).code, b + CodeOf(x) + CodeOf(y), |b + CodeOf(x)|, |b|);
    }
  }

  lemma SpoiledFrom(s: seq<byte>, code: seq<byte>, n: nat, m: nat)
    requires Spoiled(s, code, n) && m <= n
    ensures Spoiled(s, code, m)
  {
  }

  /** What is laid behind a spoiled chunk does not mend it. */
  lemma SpoiledOn(y: Piece, s: seq<byte>, code: seq<byte>, n: nat)
    requires Fits(y) && Spoiled(s, code, n) && Lay(y, Done(s)).Done?
    ensures Spoiled(Lay(y, Done(s)).code, code + CodeOf(y), n)
  {
    hide Lay, Keeps;
    var q: nat :| n <= q && Finished(s, q) && ReadU16(s, q + 1) != ReadU16(code, q + 1);
    FinishedFits(s, q);
    LayGrown(y, Done(s));
    LayKeeps(y, s, q);
    KeepsFinished(s, Lay(y, Done(s)).code, q);
    assert ReadU16(code + CodeOf(y), q + 1) == ReadU16(code, q + 1);
  }

  lemma {:induction false} NestedInCond(c: seq<byte>, t: Piece, f: Piece, r: seq<byte>, b: seq<byte>, open: set<int>)
    requires Fits(Cond(c, t, f)) && Clear(Cond(c, t, f), b) && Nested(f) && Repeats(f) && Near(r, b, open)
    requires Lay(Cond(c, t, f), Done(r)).Done?
    ensures Spoiled(Lay(Cond(c, t, f), Done(r)).code, b + CodeOf(Cond(c, t, f)), |b|)
    decreases Cond(c, t, f), 0
  {
    hide Near, Spoiled, ThenCode, IfCode, JumpCode, CloseElse, CloseThen, OpenJump;
    var thn := ThenCode(c, CodeOf(t));
    PlainThen(c, t, r);
    SecondBranch(r, b, open, thn);
    var r1 := r + thn + (OpenJump(OP_JUMP) + [OP_POP]);
    CloseElseDone(Lay(f, Done(r1)), |CodeOf(f)|);
    NestedLaid(f, r1, b + thn + SHUT, open + {|b + thn|});
    SpoiledElse(Lay(f, Done(r1)).code, b + thn, CodeOf(f));
    IfCodeParts(b, c, CodeOf(t), CodeOf(f));
    SpoiledFrom(Lay(Cond(c, t, f), Done(r)).code, b + CodeOf(Cond(c, t, f)), |b + thn| + 4, |b|);
  }

  lemma CloseElseDone(at: Outcome, n: nat)
    requires CloseElse(at, n).Done?
    ensures at.Done?
  {
  }

  /** Closing the jump over a second branch changes nothing in the branch. */
  lemma SpoiledElse(s: seq<byte>, b: seq<byte>, f: seq<byte>)
    requires Spoiled(s, b + SHUT + f, |b + SHUT|) && CloseElse(Done(s), |f|).Done?
    ensures Spoiled(CloseElse(Done(s), |f|).code, b + (JumpCode(OP_JUMP, |f| + 1) + [OP_POP]) + f, |b| + 4)
  {
    var code, after := b + SHUT + f, b + (JumpCode(OP_JUMP, |f| + 1) + [OP_POP]) + f;
    var q: nat :| |b + SHUT| <= q && Finished(s, q) && ReadU16(s, q + 1) != ReadU16(code, q + 1);
    var s' := CloseElse(Done(s), |f|).code;
    assert forall k :: q <= k < q + 4 ==> s'[k] == s[k] && after[k] == code[k];
    assert Finished(s', q) && ReadU16(s', q + 1) == ReadU16(s, q + 1);
  }

  // ----- the main results -----

  /** Wherever the compiler comes to the end of code with no loop in a first branch, the chunk is the code that is
      meant if and only if no loop is in a loop. */
  lemma NoneNested(p: Piece)
    requires Fits(p) && Clear(p, []) && Lay(p, Done([])).Done?
    ensures Lay(p, Done([])).code == CodeOf(p) <==> !Nested(p)
  {
    hide Near, Spoiled, CodeOf, Lay, Fits, Clear, Nested;
    NearSelf([], []);
    assert [] + CodeOf(p) == CodeOf(p);
    if Nested(p) {
      NestedLaid(p, [], [], {});
      SpoiledIsWrong(Lay(p, Done([])).code, CodeOf(p), 0);
    } else {
      ClearLaid(p, [], [], {});
      NearSelf(Lay(p, Done([])).code, CodeOf(p));
    }
  }

  /** Code of less than 65535 bytes in which nothing looks like an open jump: if its loops are outside of loops,
      of first branches and of second branches of second branches, the compiler ends with exactly this code. */
  lemma TameLaid(p: Piece)
    requires Fits(p) && OutlineOf(p).Tame() && NoPlaceholder(CodeOf(p)) && |CodeOf(p)| < UINT16_MAX
    ensures Lay(p, Done([])) == Done(CodeOf(p))
  {
    hide Near, CodeOf, Lay, Fits, Clear, NoPlaceholder, Shallow;
    NearSelf([], []);
    assert [] + CodeOf(p) == CodeOf(p);
    PlainIsClear(p, []);
    SecondsFit(p, false);
    ClearLaid(p, [], [], {});
    NearSelf(Lay(p, Done([])).code, CodeOf(p));
  }

  /** A loop behind finished code gets its own code if and only if there is no loop in it, whatever else is. */
  lemma LoopAlone(c: seq<byte>, x: Piece, r: seq<byte>)
    requires Fits(Loop(c, x)) && NoPlaceholder(r + WhileCode(c, CodeOf(x)))
    ensures Lay(Loop(c, x), Done(r)) == Done(r + WhileCode(c, CodeOf(x))) <==> !Repeats(x)
  {
    hide Near, Spoiled, CodeOf, Lay, Fits, WhileCode, NoPlaceholder;
    var code := WhileCode(c, CodeOf(x));
    var o := Lay(Loop(c, x), Done(r));
    NearSelf(r, r);
    LoopClear(c, x, r);
    if Repeats(x) {
      if o.Done? {
        NestedLaid(Loop(c, x), r, r, {});
        SpoiledIsWrong(o.code, r + code, |r|);
      }
    } else {
      ClearLaid(Loop(c, x), r, r, {});
      if o.Done? { NearSelf(o.code, r + code); }
    }
  }

  lemma LoopClear(c: seq<byte>, x: Piece, r: seq<byte>)
    requires NoPlaceholder(r + WhileCode(c, CodeOf(x)))
    ensures Clear(Loop(c, x), r) && (Nested(Loop(c, x)) <==> Repeats(x)) && Shallow(Loop(c, x), false)
    ensures CodeOf(Loop(c, x)) == WhileCode(c, CodeOf(x))
  {
  }
}
