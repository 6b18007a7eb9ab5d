/** What the search at the end of a loop does when the chunk holds one open jump, and when it holds two:
    a `while` inside the first branch of an `if`, or inside another loop. */
module LoopScan {
  import opened Bytecode
  import opened ExitSearch
  import opened Pieces

  /** No placeholder with this opcode. */
  ghost predicate Closed(code: seq<byte>, op: byte) {
    forall k: nat :: k + 3 <= |code| ==> !IsPlaceholder(code, k, op)
  }

  /** And no first byte that could complete one begun before. */
  ghost predicate Sealed(code: seq<byte>, op: byte) {
    Closed(code, op) && (|code| > 0 ==> code[0] != 255)
  }

  /** A jump with the low sixteen bits of a distance. */
  function Aimed(op: byte, d: int): (r: seq<byte>)
    ensures |r| == 3
  {
    [op, d % 256, d / 256 % 256]
  }

  /** The distance from a jump with `y` behind it to the bottom of the loop. */
  function Distance(kind: Kind, y: seq<byte>): int {
    |y| + 2 - kind.Slack()
  }

  // ----- pieces -----

  lemma AimedAt(x: seq<byte>, op: byte, y: seq<byte>, d: int)
    ensures Aim(x + OpenJump(op) + y, |x|, d) == x + Aimed(op, d) + y
  {
  }

  lemma AimedOpen(op: byte, d: int)
    ensures Aimed(op, d) == OpenJump(op) <==> d % 65536 == 65535
  {
    LowBytes(d);
  }

  lemma ClosedJoin(x: seq<byte>, y: seq<byte>, op: byte)
    requires Closed(x, op) && Sealed(y, op)
    ensures Closed(x + y, op)
    ensures Sealed(x, op) ==> Sealed(x + y, op)
  {
    forall k: nat | k + 3 <= |x + y|
      ensures !IsPlaceholder(x + y, k, op)
    {
      if k + 3 <= |x| {
        assert !IsPlaceholder(x, k, op);
      } else if k >= |x| {
        assert !IsPlaceholder(y, k - |x|, op);
      }
    }
  }

  /** A jump that is no placeholder of this kind seals, whatever its distance bytes. */
  lemma JumpSealed(jump: byte, d: int, op: byte)
    requires jump != 255 && (jump != op || d % 65536 != 65535)
    ensures Sealed(Aimed(jump, d), op)
  {
    LowBytes(d);
  }

  lemma ClosedAround(x: seq<byte>, jump: byte, d: int, y: seq<byte>, op: byte)
    requires Closed(x, op) && Sealed(y, op) && jump != 255 && (jump != op || d % 65536 != 65535)
    ensures Closed(x + Aimed(jump, d) + y, op)
  {
    hide Closed, Aimed;
    JumpSealed(jump, d, op);
    ClosedJoin(x, Aimed(jump, d), op);
    ClosedJoin(x + Aimed(jump, d), y, op);
  }

  // ----- one open jump -----

  /** A turn meets the one open jump. */
  lemma MeetsJump(kind: Kind, x: seq<byte>, y: seq<byte>, i: nat)
    requires Closed(x, kind.Op()) && Sealed(y, kind.Op()) && |y| > 0 && i <= |x|
    ensures Turn(kind, x + OpenJump(kind.Op()) + y, i) ==
      Next(x + Aimed(kind.Op(), Distance(kind, y) - i) + y, (i + |x|) % 256)
  {
    var code := x + OpenJump(kind.Op()) + y;
    assert IsPlaceholder(code, |x|, kind.Op());
    forall k: nat | i <= k < |x|
      ensures !IsPlaceholder(code, k, kind.Op())
    {
      if k + 3 <= |x| { assert !IsPlaceholder(x, k, kind.Op()); }
    }
    AimedAt(x, kind.Op(), y, Distance(kind, y) - i);
  }

  /** Beyond the open jump, and in closed code, the search is over. */
  lemma MeetsNothing(kind: Kind, x: seq<byte>, y: seq<byte>, i: nat)
    requires Sealed(y, kind.Op()) && i > |x|
    ensures Turn(kind, x + OpenJump(kind.Op()) + y, i).Over?
  {
    var code := x + OpenJump(kind.Op()) + y;
    forall k: nat | i <= k && k + 3 <= |code|
      ensures !IsPlaceholder(code, k, kind.Op())
    {
      if k >= |x| + 3 { assert !IsPlaceholder(y, k - |x| - 3, kind.Op()); }
    }
  }

  lemma ClosedIsOver(kind: Kind, code: seq<byte>, i: nat)
    requires Closed(code, kind.Op())
    ensures Search(kind, code, i) == Done(code)
  {
  }

  /** What the search leaves of a chunk with one open jump, from a position before it. */
  function OneResult(kind: Kind, x: seq<byte>, y: seq<byte>, i: nat): Outcome {
    var next := (i + |x|) % 256;
    if (Distance(kind, y) - i) % 65536 != 65535 then Done(x + Aimed(kind.Op(), Distance(kind, y) - i) + y)
    else if next == i then Unending
    else if next <= |x| then Done(x + Aimed(kind.Op(), Distance(kind, y) - next) + y)
    else Done(x + OpenJump(kind.Op()) + y)
  }

  lemma {:induction false} OneOpen(kind: Kind, x: seq<byte>, y: seq<byte>, i: nat)
    requires Closed(x, kind.Op()) && Sealed(y, kind.Op()) && |y| > 0 && i <= |x| && i < 256
    ensures Search(kind, x + OpenJump(kind.Op()) + y, i) == OneResult(kind, x, y, i)
  {
    hide Closed, Turn, Aimed;
    var code, d, next := x + OpenJump(kind.Op()) + y, Distance(kind, y), (i + |x|) % 256;
    MeetsJump(kind, x, y, i);
    AimedOpen(kind.Op(), d - i);
    if (d - i) % 65536 != 65535 {
      OnceAimed(kind, x, y, d - i, next);
      Reopened(x, kind.Op(), y, d - i);
    } else if next != i {
      OnePosition(d, i, next);
      if next <= |x| {
        MeetsJump(kind, x, y, next);
        OnceAimed(kind, x, y, d - next, (next + |x|) % 256);
        Reopened(x, kind.Op(), y, d - next);
      } else {
        MeetsNothing(kind, x, y, next);
      }
    }
  }

  lemma Middle(x: seq<byte>, m: seq<byte>, y: seq<byte>)
    ensures (x + m + y)[|x|..|x| + |m|] == m
  {
  }

  lemma Reopened(x: seq<byte>, op: byte, y: seq<byte>, d: int)
    ensures x + Aimed(op, d) + y == x + OpenJump(op) + y <==> d % 65536 == 65535
  {
    AimedOpen(op, d);
    Middle(x, Aimed(op, d), y);
    Middle(x, OpenJump(op), y);
  }

  lemma OnceAimed(kind: Kind, x: seq<byte>, y: seq<byte>, d: int, i: nat)
    requires Closed(x, kind.Op()) && Sealed(y, kind.Op()) && d % 65536 != 65535
    ensures Search(kind, x + Aimed(kind.Op(), d) + y, i) == Done(x + Aimed(kind.Op(), d) + y)
  {
    hide Closed, Aimed, Search;
    ClosedAround(x, kind.Op(), d, y, kind.Op());
    ClosedIsOver(kind, x + Aimed(kind.Op(), d) + y, i);
  }

  /** Only one position below 256 leaves the placeholder. */
  lemma OnePosition(d: int, i: nat, next: nat)
    requires i < 256 && next < 256
    ensures (d - i) % 65536 == 65535 && (d - next) % 65536 == 65535 ==> i == next
  {
    var q, s := (d - i) / 65536, (d - next) / 65536;
    assert d - i == 65536 * q + (d - i) % 65536 && d - next == 65536 * s + (d - next) % 65536;
  }

  /** With one open jump the search never ends if and only if the jump is at a multiple of 256 and
      already as far from the bottom as a placeholder says. */
  lemma OneUnending(kind: Kind, x: seq<byte>, y: seq<byte>)
    requires Closed(x, kind.Op()) && Sealed(y, kind.Op()) && |y| > 0
    ensures Search(kind, x + OpenJump(kind.Op()) + y, 0).Unending? <==>
      Distance(kind, y) % 65536 == 65535 && |x| % 256 == 0
  {
    hide Closed, Search;
    OneOpen(kind, x, y, 0);
  }

  // ----- two open jumps -----

  /** The chunk at the end of a loop, with an open jump at `|x|`, the loop's own open jump after `y`,
      and `z` from there to the end. */
  function TwoOpen(op: byte, x: seq<byte>, y: seq<byte>, z: seq<byte>): seq<byte> {
    x + OpenJump(op) + y + OpenJump(op) + z
  }

  /** The offset of the loop's own jump. */
  function Own(x: seq<byte>, y: seq<byte>): nat {
    |x| + 3 + |y|
  }

  /** The distance the first turn gives the other jump. */
  function OtherDistance(kind: Kind, y: seq<byte>, z: seq<byte>): int {
    |y| + 3 + Distance(kind, z)
  }

  ghost predicate Surrounded(kind: Kind, x: seq<byte>, y: seq<byte>, z: seq<byte>) {
    && Closed(x, kind.Op()) && Sealed(y, kind.Op()) && Sealed(z, kind.Op())
    && |z| > 0 && OtherDistance(kind, y, z) < UINT16_MAX
  }

  /** The first turn closes the other jump, and the search goes on from that jump's offset, cut to eight
      bits, as if there were only the loop's own. */
  lemma TwoSearched(kind: Kind, x: seq<byte>, y: seq<byte>, z: seq<byte>)
    requires Surrounded(kind, x, y, z)
    ensures var other := Aimed(kind.Op(), OtherDistance(kind, y, z));
      Search(kind, TwoOpen(kind.Op(), x, y, z), 0) == OneResult(kind, x + other + y, z, |x| % 256)
  {
    hide Closed, Turn, Aimed, OneResult;
    var op := kind.Op();
    var d := OtherDistance(kind, y, z);
    var rest := y + OpenJump(op) + z;
    assert TwoOpen(op, x, y, z) == x + OpenJump(op) + rest;
    FirstOfTwo(kind, x, y, z);
    AimedOpen(op, d);
    Reopened(x, op, rest, d);
    ClosedAround(x, op, d, y, op);
    assert x + Aimed(op, d) + rest == (x + Aimed(op, d) + y) + OpenJump(op) + z;
    OneOpen(kind, x + Aimed(op, d) + y, z, |x| % 256);
  }

  lemma FirstOfTwo(kind: Kind, x: seq<byte>, y: seq<byte>, z: seq<byte>)
    requires Surrounded(kind, x, y, z)
    ensures Turn(kind, x + OpenJump(kind.Op()) + (y + OpenJump(kind.Op()) + z), 0) ==
      Next(x + Aimed(kind.Op(), OtherDistance(kind, y, z)) + (y + OpenJump(kind.Op()) + z), |x| % 256)
  {
    var op := kind.Op();
    var code := x + OpenJump(op) + (y + OpenJump(op) + z);
    assert IsPlaceholder(code, |x|, op);
    forall k: nat | k < |x|
      ensures !IsPlaceholder(code, k, op)
    {
      if k + 3 <= |x| { assert !IsPlaceholder(x, k, op); }
    }
    AimedAt(x, op, y + OpenJump(op) + z, OtherDistance(kind, y, z));
  }

  /** The search never ends if and only if its position after the first turn is three more than the own
      jump's distance, less what a search of this kind takes off, and the own jump is at a multiple of 256. */
  lemma TwoUnending(kind: Kind, x: seq<byte>, y: seq<byte>, z: seq<byte>)
    requires Surrounded(kind, x, y, z)
    ensures Search(kind, TwoOpen(kind.Op(), x, y, z), 0).Unending? <==>
      Distance(kind, z) + 1 == |x| % 256 && Own(x, y) % 256 == 0
  {
    hide Closed, Search;
    TwoSearched(kind, x, y, z);
    StepBack(Own(x, y), |x| % 256);
  }

  lemma StepBack(p: nat, i: nat)
    requires i < 256
    ensures (i + p) % 256 == i <==> p % 256 == 0
  {
  }

  /** The loop's own jump gets its own distance if and only if the other jump is at a multiple of 256, or
      the second turn leaves the placeholder and leads back to the start of the chunk. */
  lemma OwnExitRight(kind: Kind, x: seq<byte>, y: seq<byte>, z: seq<byte>)
    requires Surrounded(kind, x, y, z)
    ensures var r := Search(kind, TwoOpen(kind.Op(), x, y, z), 0);
      var other := Aimed(kind.Op(), OtherDistance(kind, y, z));
      r == Done(x + other + y + Aimed(kind.Op(), Distance(kind, z)) + z) <==>
      |x| % 256 == 0 || (Distance(kind, z) + 1 == |x| % 256 && (|x| + Own(x, y)) % 256 == 0)
  {
    hide Closed, Search, Aimed, OpenJump;
    TwoSearched(kind, x, y, z);
    var op, d, i := kind.Op(), Distance(kind, z), |x| % 256;
    var front := x + Aimed(op, OtherDistance(kind, y, z)) + y;
    var next := (i + Own(x, y)) % 256;
    SameRemainder(i + Own(x, y), |x| / 256);
    assert next == (|x| + Own(x, y)) % 256;
    SameAim(front, op, z, d, d - i);
    SameAim(front, op, z, d, d - next);
    SameAim(front, op, z, d, 65535);
    AimedOpen(op, 65535);
  }

  /** Distances with different low bits give different code. */
  lemma SameAim(x: seq<byte>, op: byte, y: seq<byte>, d: int, e: int)
    requires 0 <= d < 65536 && -65536 < d - e < 65536
    ensures x + Aimed(op, d) + y == x + Aimed(op, e) + y <==> d == e
  {
    LowBytes(d);
    LowBytes(e);
    Middle(x, Aimed(op, d), y);
    Middle(x, Aimed(op, e), y);
  }
}
