/** The search that gives the open jumps of a chunk their distance at the end of a loop: once for the
    exit jump of the loop and once for the jumps of `break`.  It works on the bytes of the whole
    chunk, its position has eight bits, and it need not end. */
module ExitSearch {
  import opened Bytecode

  datatype Kind = Exits | Breaks {
    function Op(): (r: byte)
      ensures r != 255
    {
      if Exits? then OP_JUMP_IF_FALSE else OP_JUMP
    }

    /** What is taken off every distance: the three bytes of the jump, less one for the second search. */
    function Slack(): nat {
      if Exits? then 3 else 2
    }
  }

  /** The three bytes a jump has before its distance is known. */
  predicate IsPlaceholder(code: seq<byte>, i: nat, op: byte)
    requires i + 3 <= |code|
  {
    code[i] == op && code[i + 1] == 255 && code[i + 2] == 255
  }

  /** The first placeholder from `i` on, or -1. */
  function FirstOpen(code: seq<byte>, i: nat, op: byte): (p: int)
    ensures p == -1 || (i <= p && p + 3 <= |code| && IsPlaceholder(code, p, op))
    ensures forall k: nat :: i <= k <= |code| - 3 && (p == -1 || k < p) ==> !IsPlaceholder(code, k, op)
    decreases |code| - i
  {
    if i + 3 > |code| then -1
    else if IsPlaceholder(code, i, op) then i
    else FirstOpen(code, i + 1, op)
  }

  /** The distance bytes of a jump: the low sixteen bits, of a negative distance too. */
  function Aim(code: seq<byte>, p: nat, d: int): (r: seq<byte>)
    requires p + 3 <= |code|
    ensures |r| == |code|
  {
    code[p + 1 := d % 256][p + 2 := d / 256 % 256]
  }

  datatype Turned = Over | Next(code: seq<byte>, i: nat)

  /** One turn of the search.  The bottom of the loop is the last byte of the code. */
  function Turn(kind: Kind, code: seq<byte>, i: nat): (r: Turned)
    ensures r.Next? ==> |r.code| == |code|
  {
    if i + 3 >= |code| then Over else
      var p := FirstOpen(code, i, kind.Op());
      if p == -1 then Over else Next(Aim(code, p, |code| - 1 - p - i - kind.Slack()), (i + p) % 256)
  }

  /** The state after `n` turns. */
  function Turns(kind: Kind, code: seq<byte>, i: nat, n: nat): Turned
    decreases n
  {
    if n == 0 then Next(code, i) else
      var t := Turn(kind, code, i);
      if t.Over? then Over else Turns(kind, t.code, t.i, n - 1)
  }

  datatype Outcome = Done(code: seq<byte>) | Unending

  /** The code a search leaves, unless it goes on for ever, which it does when a turn changes neither
      the code nor the position. */
  function Search(kind: Kind, code: seq<byte>, i: nat): (r: Outcome)
    ensures r.Done? ==> |r.code| == |code|
    decreases Weight(code, kind.Op(), 0), if i == Standing(code, kind) then 0 else 1
  {
    match Turn(kind, code, i)
    case Over => Done(code)
    case Next(code', i') =>
      TurnProgress(kind, code, i);
      if code' == code && i' == i then Unending else Search(kind, code', i')
  }

  /** The only position a turn that leaves the code alone can lead to. */
  function Standing(code: seq<byte>, kind: Kind): int {
    (|code| - kind.Slack()) % 256
  }

  // ----- the placeholders, weighed by how far they are from the end -----

  function Weight(code: seq<byte>, op: byte, k: nat): nat
    decreases |code| - k
  {
    if k + 3 > |code| then 0
    else (if IsPlaceholder(code, k, op) then |code| - k else 0) + Weight(code, op, k + 1)
  }

  lemma {:induction false} WeightSame(c: seq<byte>, d: seq<byte>, op: byte, k: nat)
    requires |c| == |d| && forall j :: k <= j < |c| ==> c[j] == d[j]
    ensures Weight(c, op, k) == Weight(d, op, k)
    decreases |c| - k
  {
    if k + 3 <= |c| { WeightSame(c, d, op, k + 1); }
  }

  /** A jump that gets a distance is a placeholder no more, and at most one begins after it. */
  lemma {:induction false} WeightFalls(c: seq<byte>, op: byte, p: nat, d: int, k: nat)
    requires k <= p && p + 3 <= |c| && IsPlaceholder(c, p, op) && op != 255 && Aim(c, p, d) != c
    ensures Weight(Aim(c, p, d), op, k) < Weight(c, op, k)
    decreases p - k
  {
    var e := Aim(c, p, d);
    if k < p {
      WeightFalls(c, op, p, d, k + 1);
      assert IsPlaceholder(e, k, op) == IsPlaceholder(c, k, op);
    } else {
      WeightSame(c, e, op, p + 3);
      assert !IsPlaceholder(e, p, op);
      assert Weight(c, op, p) == |c| - p + Weight(c, op, p + 1);
      assert Weight(c, op, p + 1) == Weight(c, op, p + 2);
      assert Weight(c, op, p + 2) == Weight(c, op, p + 3);
      assert Weight(e, op, p) == Weight(e, op, p + 1);
      assert p + 5 <= |c| && IsPlaceholder(e, p + 2, op) ==> !IsPlaceholder(e, p + 1, op);
      assert Weight(e, op, p + 1) <= Weight(e, op, p + 3) + |c| - p - 1;
    }
  }

  lemma SameBytes(c: seq<byte>, p: nat, d: int)
    requires p + 3 <= |c| && c[p + 1] == 255 && c[p + 2] == 255
    ensures Aim(c, p, d) == c <==> d % 65536 == 65535
  {
    var e := Aim(c, p, d);
    assert e == c <==> e[p + 1] == 255 && e[p + 2] == 255;
    LowBytes(d);
  }

  lemma LowBytes(d: int)
    ensures d % 65536 == d % 256 + 256 * (d / 256 % 256)
  {
    var q := d / 256;
    assert d == 256 * q + d % 256 && q == 256 * (q / 256) + q % 256;
    assert d == 65536 * (q / 256) + (256 * (q % 256) + d % 256);
  }

  /** A position three bytes before the end is not searched any more, even if an open jump stands there. */
  lemma LastBytes(kind: Kind, code: seq<byte>, i: nat)
    ensures i + 3 == |code| ==> Turn(kind, code, i) == Over
    ensures i + 4 == |code| && IsPlaceholder(code, i, kind.Op()) ==>
      Turn(kind, code, i) == Next(Aim(code, i, 3 - i - kind.Slack()), 2 * i % 256)
  {
  }

  /** A turn lowers the weight, or leaves the code alone and leads to the standing position. */
  lemma TurnProgress(kind: Kind, code: seq<byte>, i: nat)
    requires Turn(kind, code, i).Next?
    ensures var t := Turn(kind, code, i);
      if t.code == code then t.i == Standing(code, kind)
      else Weight(t.code, kind.Op(), 0) < Weight(code, kind.Op(), 0)
  {
    var p := FirstOpen(code, i, kind.Op());
    var d := |code| - 1 - p - i - kind.Slack();
    SameBytes(code, p, d);
    if d % 65536 == 65535 {
      Congruent(i + p, |code| - kind.Slack(), d + 1);
    } else {
      WeightFalls(code, kind.Op(), p, d, 0);
    }
  }

  lemma Congruent(a: int, b: int, d: int)
    requires b - a == d && d % 65536 == 0
    ensures a % 256 == b % 256
  {
    var q := d / 65536;
    assert b == a + 256 * (256 * q);
    SameRemainder(a, 256 * q);
  }

  lemma SameRemainder(a: int, k: int)
    ensures (a + 256 * k) % 256 == a % 256
  {
    var q := a / 256;
    assert a + 256 * k == 256 * (q + k) + a % 256;
  }

  // ----- what unending means -----

  /** A search that ends has a last turn, and leaves the code before it. */
  lemma {:induction false} SearchEnds(kind: Kind, code: seq<byte>, i: nat) returns (n: nat)
    requires Search(kind, code, i).Done?
    ensures var t := Turns(kind, code, i, n);
      t.Next? && t.code == Search(kind, code, i).code && Turn(kind, t.code, t.i).Over?
    ensures Turns(kind, code, i, n + 1).Over?
    decreases Weight(code, kind.Op(), 0), if i == Standing(code, kind) then 0 else 1
  {
    var t := Turn(kind, code, i);
    n := 0;
    if t.Next? {
      TurnProgress(kind, code, i);
      n := SearchEnds(kind, t.code, t.i);
      n := n + 1;
    }
  }

  lemma {:induction false} Stands(kind: Kind, code: seq<byte>, i: nat, n: nat)
    requires Turn(kind, code, i) == Next(code, i)
    ensures Turns(kind, code, i, n) == Next(code, i)
    decreases n
  {
    if n > 0 { Stands(kind, code, i, n - 1); }
  }

  lemma {:induction false} SearchGoesOn(kind: Kind, code: seq<byte>, i: nat, n: nat)
    requires Search(kind, code, i).Unending?
    ensures Turns(kind, code, i, n).Next?
    decreases n
  {
    var t := Turn(kind, code, i);
    if n > 0 {
      TurnProgress(kind, code, i);
      if t == Next(code, i) {
        Stands(kind, code, i, n);
      } else {
        SearchGoesOn(kind, t.code, t.i, n - 1);
      }
    }
  }

  /** The search never ends if and only if there is always another turn. */
  lemma UnendingMeans(kind: Kind, code: seq<byte>, i: nat)
    ensures Search(kind, code, i).Unending? <==> forall n: nat :: Turns(kind, code, i, n).Next?
  {
    hide Search, Turns;
    if Search(kind, code, i).Unending? {
      forall n: nat
        ensures Turns(kind, code, i, n).Next?
      {
        SearchGoesOn(kind, code, i, n);
      }
    } else {
      var n := SearchEnds(kind, code, i);
      assert Turns(kind, code, i, n + 1).Over?;
    }
  }
}
