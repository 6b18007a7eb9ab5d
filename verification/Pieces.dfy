/** Code as the compiler lays it down: pieces with jumps over them.  A conditional or a loop first has open
    jumps, which are closed later; the searches at the end of a loop work on the whole chunk.  What `Lay`
    leaves and what `CodeOf` wants are compared in `Regular`. */
module Pieces {
  import opened Bytecode
  import opened Codegen
  import opened ExitSearch

  /** Code without open jumps, one piece after the other, a conditional, and a loop. */
  datatype Piece =
    | Flat(code: seq<byte>)
    | Both(first: Piece, second: Piece)
    | Cond(cond: seq<byte>, thn: Piece, els: Piece)
    | Loop(cond: seq<byte>, body: Piece)

  /** Where branches and loops are. */
  datatype Outline = Straight | Sequence(first: Outline, second: Outline) | Branches(thn: Outline, els: Outline)
                   | Repeat(body: Outline) {
    predicate HasLoop() {
      match this
      case Straight => false
      case Sequence(a, b) => a.HasLoop() || b.HasLoop()
      case Branches(t, f) => t.HasLoop() || f.HasLoop()
      case Repeat(_) => true
    }

    /** There is a loop in a loop. */
    predicate Nested() {
      match this
      case Straight => false
      case Sequence(a, b) => a.Nested() || b.Nested()
      case Branches(t, f) => t.Nested() || f.Nested()
      case Repeat(b) => b.HasLoop()
    }

    /** No loop is in a first branch, but for loops in loops. */
    predicate FirstsPlain() {
      match this
      case Straight => true
      case Sequence(a, b) => a.FirstsPlain() && b.FirstsPlain()
      case Branches(t, f) => !t.HasLoop() && f.FirstsPlain()
      case Repeat(_) => true
    }

    /** No loop is in a second branch of a second branch, but for loops in loops. */
    predicate SecondsShallow(second: bool) {
      match this
      case Straight => true
      case Sequence(a, b) => a.SecondsShallow(second) && b.SecondsShallow(second)
      case Branches(_, f) => f.HasLoop() ==> !second && f.SecondsShallow(true)
      case Repeat(_) => true
    }

    /** Loops are outside of loops, of first branches, and of second branches of second branches. */
    predicate Tame() {
      FirstsPlain() && !Nested() && SecondsShallow(false)
    }
  }

  function OutlineOf(p: Piece): Outline {
    match p
    case Flat(_) => Straight
    case Both(a, b) => Sequence(OutlineOf(a), OutlineOf(b))
    case Cond(_, t, f) => Branches(OutlineOf(t), OutlineOf(f))
    case Loop(_, b) => Repeat(OutlineOf(b))
  }

  /** The code that is meant. */
  function CodeOf(p: Piece): seq<byte> {
    match p
    case Flat(code) => code
    case Both(a, b) => CodeOf(a) + CodeOf(b)
    case Cond(c, t, f) => IfCode(c, CodeOf(t), CodeOf(f))
    case Loop(c, b) => WhileCode(c, CodeOf(b))
  }

  predicate Repeats(p: Piece) {
    OutlineOf(p).HasLoop()
  }

  /** No jump is too long. */
  predicate Fits(p: Piece) {
    match p
    case Flat(_) => true
    case Both(a, b) => Fits(a) && Fits(b)
    case Cond(_, t, f) => Fits(t) && Fits(f) && |CodeOf(t)| + 4 <= UINT16_MAX && |CodeOf(f)| + 1 <= UINT16_MAX
    case Loop(c, b) => Fits(b) && |c| + |CodeOf(b)| + 7 <= UINT16_MAX
  }

  // ----- the steps of the compiler -----

  function Add(at: Outcome, more: seq<byte>): (r: Outcome)
    ensures r.Done? <==> at.Done?
    ensures r.Done? ==> |r.code| == |at.code| + |more|
  {
    if at.Unending? then Unending else Done(at.code + more)
  }

  function OpenJump(op: byte): (r: seq<byte>)
    ensures |r| == 3
  {
    [op, 255, 255]
  }

  function Patch(code: seq<byte>, at: nat, d: nat): (r: seq<byte>)
    requires at + 2 <= |code|
    ensures |r| == |code|
  {
    code[at := d % 256][at + 1 := d / 256 % 256]
  }

  /** The end of the first branch of a conditional, which is `n` bytes long and follows the open jump and
      its pop: the jump over the second branch, and the conditional jump patched to lead past it.  There
      is always room: the chunk grows by every piece that is placed. */
  function CloseThen(at: Outcome, n: nat): (r: Outcome)
    ensures r.Done? ==> at.Done?
  {
    if at.Unending? || |at.code| < n + 4 then Unending
    else Done(Patch(at.code + OpenJump(OP_JUMP), |at.code| - n - 3, n + 4) + [OP_POP])
  }

  /** The end of the second branch, `n` bytes long. */
  function CloseElse(at: Outcome, n: nat): (r: Outcome)
    ensures r.Done? ==> at.Done?
  {
    if at.Unending? || |at.code| < n + 4 then Unending else Done(Patch(at.code, |at.code| - n - 3, n + 1))
  }

  /** Both searches, one after the other. */
  function Searches(code: seq<byte>): (r: Outcome)
    ensures r.Done? ==> |r.code| == |code|
  {
    var r := Search(Exits, code, 0);
    if r.Unending? then Unending else Search(Breaks, r.code, 0)
  }

  /** The end of a loop whose top is `back` bytes before the end of the jump back.  A jump that would be
      too long is an error and is left out. */
  function CloseLoop(at: Outcome, back: nat): (r: Outcome)
    ensures r.Done? ==> at.Done? && |r.code| == |at.code| + if back > UINT16_MAX then 1 else 4
  {
    if at.Unending? then Unending
    else Searches(at.code + (if back > UINT16_MAX then [] else JumpCode(OP_LOOP, back)) + [OP_POP])
  }

  /** The code after a condition and the jump on it. */
  function Guard(at: Outcome, e: seq<byte>): (r: Outcome)
    ensures r.Done? <==> at.Done?
    ensures r.Done? ==> |r.code| == |at.code| + |e| + 4
  {
    Add(at, e + OpenJump(OP_JUMP_IF_FALSE) + [OP_POP])
  }

  /** The chunk after a piece has been laid behind what it held before. */
  function Lay(p: Piece, at: Outcome): Outcome {
    match p
    case Flat(code) => Add(at, code)
    case Both(a, b) => Lay(b, Lay(a, at))
    case Cond(c, t, f) =>
      CloseElse(Lay(f, CloseThen(Lay(t, Guard(at, c)), |CodeOf(t)|)), |CodeOf(f)|)
    case Loop(c, b) => CloseLoop(Lay(b, Guard(at, c)), |c| + |CodeOf(b)| + 7)
  }

  /** The chunk grows by as many bytes as the piece's code has. */
  lemma {:induction false} LayGrown(p: Piece, at: Outcome)
    requires Fits(p)
    ensures Lay(p, at).Done? ==> at.Done? && |Lay(p, at).code| == |at.code| + |CodeOf(p)|
  {
    hide IfCode, WhileCode, Searches, Patch;
    match p
    case Flat(_) =>
    case Both(a, b) =>
      LayGrown(a, at);
      LayGrown(b, Lay(a, at));
    case Cond(c, t, f) =>
      LayGrown(t, Guard(at, c));
      LayGrown(f, CloseThen(Lay(t, Guard(at, c)), |CodeOf(t)|));
    case Loop(c, b) => LayGrown(b, Guard(at, c));
  }

  /** The pieces have this code and this outline, and all their jumps fit. */
  ghost predicate Fitting(p: Piece, code: seq<byte>, o: Outline) {
    CodeOf(p) == code && Fits(p) && OutlineOf(p) == o
  }

  lemma FlatFitting(x: seq<byte>)
    ensures Fitting(Flat(x), x, Straight)
    ensures forall at :: Lay(Flat(x), at) == Add(at, x)
  {
  }

  lemma BothFitting(p: Piece, x: seq<byte>, o: Outline, q: Piece, y: seq<byte>, u: Outline)
    requires Fitting(p, x, o) && Fitting(q, y, u)
    ensures Fitting(Both(p, q), x + y, Sequence(o, u))
    ensures forall at :: Lay(Both(p, q), at) == Lay(q, Lay(p, at))
  {
  }

  lemma CondFitting(c: seq<byte>, p: Piece, x: seq<byte>, o: Outline, q: Piece, y: seq<byte>, u: Outline)
    requires Fitting(p, x, o) && Fitting(q, y, u) && |x| + 4 <= UINT16_MAX && |y| + 1 <= UINT16_MAX
    ensures Fitting(Cond(c, p, q), IfCode(c, x, y), Branches(o, u))
    ensures forall at :: Lay(Cond(c, p, q), at) == CloseElse(Lay(q, CloseThen(Lay(p, Guard(at, c)), |x|)), |y|)
  {
    hide IfCode, CloseThen, CloseElse, Guard;
  }

  lemma LoopFitting(c: seq<byte>, p: Piece, x: seq<byte>, o: Outline)
    requires Fitting(p, x, o) && |c| + |x| + 7 <= UINT16_MAX
    ensures Fitting(Loop(c, p), WhileCode(c, x), Repeat(o))
    ensures forall at :: Lay(Loop(c, p), at) == CloseLoop(Lay(p, Guard(at, c)), |c| + |x| + 7)
  {
    hide WhileCode, CloseLoop, Guard;
  }
}
