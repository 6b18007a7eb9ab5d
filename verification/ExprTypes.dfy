/** The compiler's picture of a frame, how scopes are left, and stack types of expressions: the code of an expression
    pushes one value, pops none but its own temporaries, and reads only slots the frame has. */
module ExprTypes {
  import opened Values
  import opened Bytecode
  import opened Codegen
  import opened Instructions
  import opened Functions
  import opened StackTypes
  import opened PieceTypes
  import opened SoundCode
  import Lexical
  import Syntax

  // ----- the compiler's picture of a frame -----

  function Marked(locals: seq<Lexical.Local>): (r: set<int>)
    ensures forall i :: i in r <==> 0 <= i < |locals| && locals[i].captured
  {
    set i | 0 <= i < |locals| && locals[i].captured
  }

  function SlotsOf(locals: seq<Lexical.Local>): (r: Slots)
    ensures r.height == |locals| && Bounded(r)
  {
    Slots(|locals|, Marked(locals))
  }

  /** The same locals, of which more may be captured. */
  ghost predicate Flagged(a: seq<Lexical.Local>, b: seq<Lexical.Local>) {
    |a| == |b| && forall i :: 0 <= i < |a| ==> b[i] == a[i] || b[i] == a[i].(captured := true)
  }

  lemma FlaggedInto(a: seq<Lexical.Local>, b: seq<Lexical.Local>, n: nat)
    requires Flagged(a, b) && n <= |a|
    ensures Into(SlotsOf(a[..n]), SlotsOf(b[..n]))
  {
  }

  lemma FlaggedOn(a: seq<Lexical.Local>, b: seq<Lexical.Local>, c: seq<Lexical.Local>)
    requires Flagged(a, b) && Flagged(b, c)
    ensures Flagged(a, c)
  {
  }

  lemma {:induction false} FlaggedDeeper(a: seq<Lexical.Local>, b: seq<Lexical.Local>, level: int)
    requires Flagged(a, b)
    ensures Deeper(a, level) == Deeper(b, level)
    decreases |a|
  {
    if a != [] { FlaggedDeeper(a[..|a| - 1], b[..|b| - 1], level); }
  }

  /** The stack types of a function's chunk start with the function itself and its arguments, none of them captured;
      its functions have stack types too. */
  ghost predicate Disciplined(f: Function)
    decreases f
  {
    && (exists st: seq<Slots> :: TypedFunction(f, st))
    && forall i :: 0 <= i < |f.pool| && f.pool[i].Compiled? ==> Disciplined(f.pool[i].f)
  }

  ghost predicate TypedFunction(f: Function, st: seq<Slots>) {
    Typed(f.code, f.pool, st, map[], 1) && Into(Slots(f.arity + 1, {}), st[0])
  }

  /** The functions that are not too long have stack types. */
  ghost predicate PoolTyped(pool: seq<Constant>) {
    forall i :: 0 <= i < |pool| && pool[i].Compiled? && Compact(pool[i].f) ==> Disciplined(pool[i].f)
  }

  /** Constants have been added, but no functions. */
  ghost predicate OnlyPlain(pool: seq<Constant>, more: seq<Constant>) {
    pool <= more && forall i :: |pool| <= i < |more| ==> more[i].Plain?
  }

  lemma PlainOn(a: seq<Constant>, b: seq<Constant>, c: seq<Constant>)
    requires OnlyPlain(a, b) && OnlyPlain(b, c)
    ensures OnlyPlain(a, c)
  {
  }

  lemma PlainTyped(pool: seq<Constant>, more: seq<Constant>)
    requires OnlyPlain(pool, more) && PoolTyped(pool)
    ensures PoolTyped(more)
  {
    hide Disciplined, Compact;
  }

  // ----- leaving scopes -----

  lemma {:induction false} EndLocalsTyped(locals: seq<Lexical.Local>, level: int, pool: seq<Constant>, low: nat)
    returns (st: seq<Slots>)
    requires low + Deeper(locals, level) <= |locals|
    ensures Typed(EndLocals(locals, level), pool, st, map[], low)
    ensures st[0] == SlotsOf(locals)
    ensures st[Deeper(locals, level)] == SlotsOf(locals[..|locals| - Deeper(locals, level)])
    decreases |locals|
  {
    hide Typed, Bounded, SlotsOf, Into;
    if locals == [] || locals[|locals| - 1].level <= level {
      EmptyTyped(pool, SlotsOf(locals), low);
      st := [SlotsOf(locals)];
      assert locals[..|locals|] == locals;
    } else {
      var n, rest := |locals| - 1, locals[..|locals| - 1];
      var op := if locals[n].captured then OP_CLOSE_UPVALUE else OP_POP;
      var s1 := LastTyped(locals, pool, low);
      var s2 := EndLocalsTyped(rest, level, pool, low);
      TypedSize([op], pool, s1, map[], low);
      TypedSize(EndLocals(rest, level), pool, s2, map[], low);
      SelfInto(s2[0]);
      JoinStraight([op], s1, map[], EndLocals(rest, level), s2, map[], pool, low, map[]);
      st := Joined(s1, s2);
      assert rest[..n - Deeper(rest, level)] == locals[..|locals| - Deeper(locals, level)];
    }
  }

  /** The newest local is closed if it is captured, and popped otherwise. */
  lemma LastTyped(locals: seq<Lexical.Local>, pool: seq<Constant>, low: nat) returns (st: seq<Slots>)
    requires low < |locals|
    ensures var n := |locals| - 1;
      var op := if locals[n].captured then OP_CLOSE_UPVALUE else OP_POP;
      Typed([op], pool, st, map[], low) && st[0] == SlotsOf(locals) && st[1] == SlotsOf(locals[..n])
  {
    hide Typed;
    var n := |locals| - 1;
    var code: seq<byte> := [if locals[n].captured then OP_CLOSE_UPVALUE else OP_POP];
    assert Marked(locals[..n]) == Marked(locals) - {n};
    st := InsTyped(code, pool, SlotsOf(locals), low);
  }

  /** `continue` pops plainly. */
  lemma {:induction false} PopsTyped(locals: seq<Lexical.Local>, n: nat, pool: seq<Constant>, low: nat)
    returns (st: seq<Slots>)
    requires low + n <= |locals| && forall i :: |locals| - n <= i < |locals| ==> !locals[i].captured
    ensures Typed(Pops(n), pool, st, map[], low)
    ensures st[0] == SlotsOf(locals) && st[n] == SlotsOf(locals[..|locals| - n])
    decreases n
  {
    hide Typed, Bounded, SlotsOf, Into;
    if n == 0 {
      EmptyTyped(pool, SlotsOf(locals), low);
      st := [SlotsOf(locals)];
      assert Pops(0) == [] && locals[..|locals|] == locals;
    } else {
      var rest := locals[..|locals| - 1];
      var s1 := LastTyped(locals, pool, low);
      var s2 := PopsTyped(rest, n - 1, pool, low);
      TypedSize([OP_POP], pool, s1, map[], low);
      TypedSize(Pops(n - 1), pool, s2, map[], low);
      SelfInto(s2[0]);
      JoinStraight([OP_POP], s1, map[], Pops(n - 1), s2, map[], pool, low, map[]);
      st := Joined(s1, s2);
      assert Pops(n) == [OP_POP] + Pops(n - 1);
      assert rest[..|rest| - (n - 1)] == locals[..|locals| - n];
    }
  }

  // ----- chains -----

  lemma GrowsSelf(chain: Chain)
    ensures Lexical.Grows(chain, chain)
  {
  }

  lemma GrowsOn(a: Chain, b: Chain, c: Chain)
    requires Lexical.Grows(a, b) && Lexical.Grows(b, c)
    ensures Lexical.Grows(a, c)
  {
    forall d | 0 <= d < |a|
      ensures Lexical.LevelGrows(a[d], c[d])
    {
      assert Lexical.LevelGrows(a[d], b[d]) && Lexical.LevelGrows(b[d], c[d]);
    }
  }

  // ----- expressions -----

  /** The code pushes one value on a frame of height `h`, and pops none below it. */
  ghost predicate Pushes(m: Made, pool: seq<Constant>, chain: Chain, st: seq<Slots>, h: nat, k: set<int>) {
    && m.Made? && OnlyPlain(pool, m.pool) && m.chain[0].locals == chain[0].locals && Lexical.Grows(chain, m.chain)
    && Typed(m.code, m.pool, st, map[], h) && st[0] == Slots(h, k) && st[|m.code|] == Slots(h + 1, k)
  }

  /** Initialized locals are below the temporaries. */
  ghost predicate Visible(locals: seq<Lexical.Local>, h: nat) {
    forall s :: 0 <= s < |locals| && locals[s].level != -1 ==> s < h
  }

  /** The same with more constants, and with fewer slots that may be popped. */
  lemma Lower(code: seq<byte>, pool: seq<Constant>, st: seq<Slots>, exits: map<int, Slots>, low: nat,
      more: seq<Constant>, low': nat)
    requires Typed(code, pool, st, exits, low) && pool <= more && low' <= low
    ensures Typed(code, more, st, exits, low')
  {
    hide Typed;
    TypedSize(code, pool, st, exits, low);
    forall e | e in exits
      ensures Into(More(exits[e], {}), exits[e])
    {
    }
    Raise(code, pool, st, exits, low, more, low', {}, exits);
    assert Raised(st, {}) == st by { RaisedNothing(st); }
  }

  lemma RaisedNothing(st: seq<Slots>)
    ensures Raised(st, {}) == st
  {
    forall i | 0 <= i < |st|
      ensures Raised(st, {})[i] == st[i]
    {
      assert st[i].held + {} == st[i].held;
    }
  }

  lemma ConstantForm(op: byte, k: Constant, pool: seq<Constant>, chain: Chain)
    requires Functions.WithConstant(op, k, pool, chain).Made?
    ensures var m := Functions.WithConstant(op, k, pool, chain);
      |m.code| == 2 && m.code[0] == op && m.chain == chain && pool <= m.pool && (k.Plain? ==> OnlyPlain(pool, m.pool))
  {
  }

  lemma {:induction false} AccessForm(ops: Ops, x: string, pool: seq<Constant>, chain: Chain, h: nat)
    requires Ready(pool, chain) && Visible(chain[0].locals, h) && (ops == GET || ops == SET)
    requires Functions.Access(ops, x, pool, chain).Made?
    ensures var m := Functions.Access(ops, x, pool, chain);
      && |m.code| == 2 && m.code[0] in [ops.local, ops.up, ops.global]
      && (m.code[0] == ops.local ==> m.code[1] < h)
      && m.chain[0].locals == chain[0].locals && Lexical.Grows(chain, m.chain) && OnlyPlain(pool, m.pool)
  {
    hide PoolOk, Lexical.WellLinked, Lexical.ResolveUp, Functions.WithConstant, Lexical.Grows;
    GrowsSelf(chain);
    Lexical.LookupGrows(chain, x);
    var u := Lexical.ResolveUp(chain, x);
    if Lexical.Newest(chain[0].locals, x) < 0 && u.index < 0 {
      ConstantForm(ops.global, Plain(Str(x)), pool, u.chain);
    }
  }

  /** An instruction that pushes. */
  lemma GetTyped(code: seq<byte>, pool: seq<Constant>, h: nat, k: set<int>) returns (st: seq<Slots>)
    requires |code| == 1 ==> code[0] in [OP_NIL, OP_TRUE, OP_FALSE]
    requires |code| == 2 ==> code[0] in [OP_CONSTANT, OP_GET_GLOBAL, OP_GET_LOCAL, OP_GET_UPVALUE]
    requires |code| == 1 || (|code| == 2 && (code[0] == OP_GET_LOCAL ==> code[1] < h))
    requires Bounded(Slots(h, k))
    ensures Typed(code, pool, st, map[], h) && st[0] == Slots(h, k) && st[|code|] == Slots(h + 1, k)
  {
    hide Typed;
    st := InsTyped(code, pool, Slots(h, k), h);
  }

  /** An instruction that leaves the stack as it is. */
  lemma SetTyped(code: seq<byte>, pool: seq<Constant>, h: nat, k: set<int>) returns (st: seq<Slots>)
    requires |code| == 2 && code[0] in [OP_SET_LOCAL, OP_SET_UPVALUE, OP_SET_GLOBAL]
    requires (code[0] == OP_SET_LOCAL ==> code[1] < h) && Bounded(Slots(h, k))
    ensures Typed(code, pool, st, map[], h) && st[0] == Slots(h + 1, k) && st[2] == Slots(h + 1, k)
  {
    hide Typed;
    st := InsTyped(code, pool, Slots(h + 1, k), h);
  }

  /** Code that turns some temporaries into one. */
  lemma OperatorTyped(code: seq<byte>, pool: seq<Constant>, h: nat, n: nat, k: set<int>) returns (st: seq<Slots>)
    requires code != [] && Taken(code) == n && Given(code[0]) == 1 && n > 0 && code[0] != OP_CLOSURE
    requires |code| == (if code[0] == OP_CALL then 2 else 1) && Bounded(Slots(h, k))
    ensures Typed(code, pool, st, map[], h) && st[0] == Slots(h + n, k) && st[|code|] == Slots(h + 1, k)
  {
    hide Typed;
    st := InsTyped(code, pool, Slots(h + n, k), h);
  }

  lemma BinaryTyped(op: Syntax.BinOp, pool: seq<Constant>, h: nat, k: set<int>) returns (st: seq<Slots>)
    requires Bounded(Slots(h, k))
    ensures Typed(BinaryCode(op), pool, st, map[], h) && st[0] == Slots(h + 2, k)
    ensures st[|BinaryCode(op)|] == Slots(h + 1, k)
  {
    hide Typed, Bounded, Into;
    var code := BinaryCode(op);
    var s1 := OperatorTyped([code[0]], pool, h, 2, k);
    if |code| == 1 {
      assert code == [code[0]];
      st := s1;
    } else {
      var s2 := OperatorTyped([code[1]], pool, h, 1, k);
      TypedSize([code[0]], pool, s1, map[], h);
      TypedSize([code[1]], pool, s2, map[], h);
      SelfInto(s2[0]);
      JoinStraight([code[0]], s1, map[], [code[1]], s2, map[], pool, h, map[]);
      assert code == [code[0]] + [code[1]];
      st := Joined(s1, s2);
    }
  }

  /** One piece of straight code after the other. */
  lemma Then(a: seq<byte>, sa: seq<Slots>, b: seq<byte>, sb: seq<Slots>, pool: seq<Constant>, low: nat)
    returns (st: seq<Slots>)
    requires Typed(a, pool, sa, map[], low) && Typed(b, pool, sb, map[], low)
    requires |sa| == |a| + 1 && |sb| == |b| + 1 ==> sa[|a|] == sb[0]
    ensures Typed(a + b, pool, st, map[], low) && |sa| == |a| + 1 && |sb| == |b| + 1
    ensures st[|a| + |b|] == sb[|b|] && (a != [] ==> st[0] == sa[0]) && (a == [] ==> st[0] == sb[0])
  {
    hide Typed, Into;
    TypedSize(a, pool, sa, map[], low);
    TypedSize(b, pool, sb, map[], low);
    SelfInto(sb[0]);
    JoinStraight(a, sa, map[], b, sb, map[], pool, low, map[]);
    st := Joined(sa, sb);
  }

  lemma LiteralTyped(v: Value, pool: seq<Constant>, chain: Chain, h: nat, k: set<int>) returns (st: seq<Slots>)
    requires MakeLiteral(v, pool, chain).Made? && Bounded(Slots(h, k))
    ensures Pushes(MakeLiteral(v, pool, chain), pool, chain, st, h, k)
  {
    hide Typed, Bounded, Functions.WithConstant;
    GrowsSelf(chain);
    if v != Value.Nil && !v.Bool? { ConstantForm(OP_CONSTANT, Plain(v), pool, chain); }
    var m := MakeLiteral(v, pool, chain);
    st := GetTyped(m.code, m.pool, h, k);
  }

  /** What follows an expression is compiled with what it leaves. */
  lemma {:induction false} ExprReady(e: Syntax.Expr, pool: seq<Constant>, chain: Chain)
    requires Ready(pool, chain) && MakeExpr(e, pool, chain).Made?
    ensures var m := MakeExpr(e, pool, chain); Ready(m.pool, m.chain) && pool <= m.pool
  {
    hide MakeExpr, Sound, PoolOk, Lexical.WellLinked;
    ExprGood(e, pool, chain);
  }

  lemma {:induction false} ExprTyped(e: Syntax.Expr, pool: seq<Constant>, chain: Chain, h: nat, k: set<int>)
    returns (st: seq<Slots>)
    requires Ready(pool, chain) && MakeExpr(e, pool, chain).Made?
    requires Visible(chain[0].locals, h) && Bounded(Slots(h, k))
    ensures Pushes(MakeExpr(e, pool, chain), pool, chain, st, h, k)
    decreases e, 1
  {
    hide Ready, Typed, Bounded, Visible, Lexical.Grows, Functions.Access, MakeLiteral, Short, BinaryCode;
    match e
    case Literal(v) => st := LiteralTyped(v, pool, chain, h, k);
    case Variable(x) =>
      AccessForm(GET, x, pool, chain, h);
      var m := Functions.Access(GET, x, pool, chain);
      st := GetTyped(m.code, m.pool, h, k);
    case Assign(x, rhs) => st := AssignTyped(x, rhs, pool, chain, h, k);
    case Unary(op, a) =>
      var m := MakeExpr(a, pool, chain);
      var s1 := ExprTyped(a, pool, chain, h, k);
      var s2 := OperatorTyped(UnaryCode(op), m.pool, h, 1, k);
      TypedSize(m.code, m.pool, s1, map[], h);
      st := Then(m.code, s1, UnaryCode(op), s2, m.pool, h);
      NotEmpty(m, pool, chain, s1, h, k);
    case Binary(op, a, b) =>
      var m := Pair(a, b, pool, chain);
      var s1 := PairTyped(a, b, pool, chain, h, k);
      var s2 := BinaryTyped(op, m.pool, h, k);
      TypedSize(m.code, m.pool, s1, map[], h);
      st := Then(m.code, s1, BinaryCode(op), s2, m.pool, h);
    case Conj(a, b) => st := ShortTyped(OP_JUMP_IF_FALSE, a, b, pool, chain, h, k);
    case Disj(a, b) => st := ShortTyped(OP_JUMP_IF_TRUE, a, b, pool, chain, h, k);
    case Call(f, args) => st := CallTyped(f, args, pool, chain, h, k);
  }

  /** Code that pushes is not empty. */
  lemma NotEmpty(m: Made, pool: seq<Constant>, chain: Chain, st: seq<Slots>, h: nat, k: set<int>)
    requires Pushes(m, pool, chain, st, h, k)
    ensures m.code != []
  {
  }

  lemma {:induction false} AssignTyped(x: Ident, rhs: Syntax.Expr, pool: seq<Constant>, chain: Chain, h: nat,
      k: set<int>) returns (st: seq<Slots>)
    requires Ready(pool, chain) && MakeExpr(Syntax.Assign(x, rhs), pool, chain).Made?
    requires Visible(chain[0].locals, h) && Bounded(Slots(h, k))
    ensures Pushes(MakeExpr(Syntax.Assign(x, rhs), pool, chain), pool, chain, st, h, k)
    decreases rhs, 2
  {
    hide Typed, Bounded, Visible, Lexical.Grows, Functions.Access, PoolOk, Lexical.WellLinked, Sound;
    var m := Functions.Access(SET, x, pool, chain);
    AccessForm(SET, x, pool, chain, h);
    AccessGood(SET, x, pool, chain);
    var n := MakeExpr(rhs, m.pool, m.chain);
    var s1 := ExprTyped(rhs, m.pool, m.chain, h, k);
    var s2 := SetTyped(m.code, n.pool, h, k);
    TypedSize(n.code, n.pool, s1, map[], h);
    st := Then(n.code, s1, m.code, s2, n.pool, h);
    GrowsOn(chain, m.chain, n.chain);
    PlainOn(pool, m.pool, n.pool);
    NotEmpty(n, m.pool, m.chain, s1, h, k);
  }

  lemma {:induction false} PairTyped(a: Syntax.Expr, b: Syntax.Expr, pool: seq<Constant>, chain: Chain, h: nat,
      k: set<int>) returns (st: seq<Slots>)
    requires Ready(pool, chain) && Pair(a, b, pool, chain).Made?
    requires Visible(chain[0].locals, h) && Bounded(Slots(h, k))
    ensures var m := Pair(a, b, pool, chain);
      && OnlyPlain(pool, m.pool) && m.chain[0].locals == chain[0].locals && Lexical.Grows(chain, m.chain)
      && m.code != []
      && Typed(m.code, m.pool, st, map[], h) && st[0] == Slots(h, k) && st[|m.code|] == Slots(h + 2, k)
    decreases if a < b then b else a, 2
  {
    hide Ready, Typed, Visible, Lexical.Grows, MakeExpr;
    var m := MakeExpr(a, pool, chain);
    ExprReady(a, pool, chain);
    var s1 := ExprTyped(a, pool, chain, h, k);
    VisibleUp(m.chain[0].locals, h);
    var n := MakeExpr(b, m.pool, m.chain);
    ExprReady(b, m.pool, m.chain);
    var s2 := ExprTyped(b, m.pool, m.chain, h + 1, k);
    GrowsOn(chain, m.chain, n.chain);
    PlainOn(pool, m.pool, n.pool);
    NotEmpty(m, pool, chain, s1, h, k);
    TypedSize(m.code, m.pool, s1, map[], h);
    TypedSize(n.code, n.pool, s2, map[], h + 1);
    Lower(m.code, m.pool, s1, map[], h, n.pool, h);
    Lower(n.code, n.pool, s2, map[], h + 1, n.pool, h);
    st := Then(m.code, s1, n.code, s2, n.pool, h);
  }

  lemma VisibleUp(locals: seq<Lexical.Local>, h: nat)
    requires Visible(locals, h)
    ensures Visible(locals, h + 1)
  {
  }

  lemma {:induction false} ShortTyped(jump: byte, a: Syntax.Expr, b: Syntax.Expr, pool: seq<Constant>, chain: Chain,
      h: nat, k: set<int>) returns (st: seq<Slots>)
    requires jump == OP_JUMP_IF_FALSE || jump == OP_JUMP_IF_TRUE
    requires Ready(pool, chain) && Visible(chain[0].locals, h) && Bounded(Slots(h, k))
    requires var m := MakeExpr(a, pool, chain); m.Made? && Short(jump, m.code, MakeExpr(b, m.pool, m.chain)).Made?
    ensures var m := MakeExpr(a, pool, chain);
      Pushes(Short(jump, m.code, MakeExpr(b, m.pool, m.chain)), pool, chain, st, h, k)
    decreases if a < b then b else a, 2
  {
    hide Ready, Typed, Bounded, Visible, Lexical.Grows, MakeExpr, Short, JumpCode;
    var m := MakeExpr(a, pool, chain);
    ExprReady(a, pool, chain);
    var s1 := ExprTyped(a, pool, chain, h, k);
    ShortForm(jump, m.code, MakeExpr(b, m.pool, m.chain));
    var n := MakeExpr(b, m.pool, m.chain);
    ExprReady(b, m.pool, m.chain);
    var s2 := ExprTyped(b, m.pool, m.chain, h, k);
    GrowsOn(chain, m.chain, n.chain);
    PlainOn(pool, m.pool, n.pool);
    Lower(m.code, m.pool, s1, map[], h, n.pool, h);
    st := ShortCode(jump, m.code, s1, n.code, s2, n.pool, h, k);
  }

  lemma ShortForm(jump: byte, left: seq<byte>, right: Made)
    requires Short(jump, left, right).Made?
    ensures right.Made? && |right.code| + 1 <= UINT16_MAX
    ensures Short(jump, left, right) ==
      Made(left + (JumpCode(jump, |right.code| + 1) + [OP_POP]) + right.code, right.pool, right.chain)
  {
  }

  /** Both ways the deciding operand is left. */
  lemma ShortCode(jump: byte, x: seq<byte>, sx: seq<Slots>, y: seq<byte>, sy: seq<Slots>, pool: seq<Constant>, h: nat,
      k: set<int>) returns (st: seq<Slots>)
    requires (jump == OP_JUMP_IF_FALSE || jump == OP_JUMP_IF_TRUE) && |y| + 1 <= UINT16_MAX && Bounded(Slots(h, k))
    requires Typed(x, pool, sx, map[], h) && sx[0] == Slots(h, k) && sx[|x|] == Slots(h + 1, k)
    requires Typed(y, pool, sy, map[], h) && sy[0] == Slots(h, k) && sy[|y|] == Slots(h + 1, k)
    ensures var code := x + (JumpCode(jump, |y| + 1) + [OP_POP]) + y;
      Typed(code, pool, st, map[], h) && st[0] == Slots(h, k) && st[|code|] == Slots(h + 1, k)
  {
    hide Typed, JumpCode, Into, AtBoundary;
    var s := Slots(h + 1, k);
    var guard := JumpCode(jump, |y| + 1) + [OP_POP];
    TypedSize(x, pool, sx, map[], h);
    TypedSize(y, pool, sy, map[], h);
    SelfInto(s);
    SelfInto(sy[0]);
    var sg := GuardTyped(jump, |y| + 1, pool, s, s, h);
    TypedSize(guard, pool, sg, map[|guard| + |y| := s], h);
    EndBoundary(y, pool, sy, map[], h);
    GuardJoined(guard, sg, y, sy, |y|, pool, h, s, NoLoop, s);
    var sr := Joined(sg, sy);
    st := Then(x, sx, guard + y, sr, pool, h);
    assert x + guard + y == x + (guard + y);
  }

  lemma {:induction false} CallTyped(f: Syntax.Expr, args: seq<Syntax.Expr>, pool: seq<Constant>, chain: Chain, h: nat,
      k: set<int>) returns (st: seq<Slots>)
    requires Ready(pool, chain) && MakeExpr(Syntax.Call(f, args), pool, chain).Made?
    requires Visible(chain[0].locals, h) && Bounded(Slots(h, k))
    ensures Pushes(MakeExpr(Syntax.Call(f, args), pool, chain), pool, chain, st, h, k)
    decreases Syntax.Call(f, args), 0
  {
    hide Ready, Typed, Visible, Lexical.Grows, MakeArgs, Into;
    var m := MakeExpr(f, pool, chain);
    ExprReady(f, pool, chain);
    var s1 := ExprTyped(f, pool, chain, h, k);
    VisibleUp(m.chain[0].locals, h);
    var n := MakeArgs(args, m.pool, m.chain);
    ArgsReady(args, m.pool, m.chain);
    var s2 := ArgsTyped(args, m.pool, m.chain, h + 1, k);
    GrowsOn(chain, m.chain, n.chain);
    PlainOn(pool, m.pool, n.pool);
    NotEmpty(m, pool, chain, s1, h, k);
    TypedSize(m.code, m.pool, s1, map[], h);
    TypedSize(n.code, n.pool, s2, map[], h + 1);
    Lower(m.code, m.pool, s1, map[], h, n.pool, h);
    Lower(n.code, n.pool, s2, map[], h + 1, n.pool, h);
    st := CallCode(m.code, s1, n.code, s2, |args|, n.pool, h, k);
  }

  lemma CallCode(x: seq<byte>, sx: seq<Slots>, y: seq<byte>, sy: seq<Slots>, n: byte, pool: seq<Constant>, h: nat,
      k: set<int>) returns (st: seq<Slots>)
    requires Typed(x, pool, sx, map[], h) && x != [] && sx[0] == Slots(h, k) && sx[|x|] == Slots(h + 1, k)
    requires Typed(y, pool, sy, map[], h) && sy[0] == Slots(h + 1, k) && sy[|y|] == Slots(h + 1 + n as int, k)
    requires Bounded(Slots(h, k))
    ensures var code := x + y + [OP_CALL, n];
      Typed(code, pool, st, map[], h) && st[0] == Slots(h, k) && st[|code|] == Slots(h + 1, k)
  {
    hide Typed;
    TypedSize(x, pool, sx, map[], h);
    TypedSize(y, pool, sy, map[], h);
    var s1 := Then(x, sx, y, sy, pool, h);
    var s2 := OperatorTyped([OP_CALL, n], pool, h, n as int + 1, k);
    TypedSize(x + y, pool, s1, map[], h);
    st := Then(x + y, s1, [OP_CALL, n], s2, pool, h);
  }

  lemma {:induction false} ArgsReady(args: seq<Syntax.Expr>, pool: seq<Constant>, chain: Chain)
    requires Ready(pool, chain) && MakeArgs(args, pool, chain).Made?
    ensures var m := MakeArgs(args, pool, chain); Ready(m.pool, m.chain) && pool <= m.pool
  {
    hide MakeArgs, Sound, PoolOk, Lexical.WellLinked;
    ArgsGood(args, pool, chain);
  }

  lemma {:induction false} ArgsTyped(args: seq<Syntax.Expr>, pool: seq<Constant>, chain: Chain, h: nat, k: set<int>)
    returns (st: seq<Slots>)
    requires Ready(pool, chain) && MakeArgs(args, pool, chain).Made?
    requires Visible(chain[0].locals, h) && Bounded(Slots(h, k))
    ensures var m := MakeArgs(args, pool, chain);
      && OnlyPlain(pool, m.pool) && m.chain[0].locals == chain[0].locals && Lexical.Grows(chain, m.chain)
      && Typed(m.code, m.pool, st, map[], h) && st[0] == Slots(h, k) && st[|m.code|] == Slots(h + |args|, k)
    decreases args, 0
  {
    hide Ready, Typed, Visible, Lexical.Grows, MakeExpr;
    if args == [] {
      GrowsSelf(chain);
      EmptyTyped(pool, Slots(h, k), h);
      st := [Slots(h, k)];
    } else {
      var init, last := args[..|args| - 1], args[|args| - 1];
      var m := MakeArgs(init, pool, chain);
      ArgsReady(init, pool, chain);
      var s1 := ArgsTyped(init, pool, chain, h, k);
      VisibleBy(m.chain[0].locals, h, |init|);
      var n := MakeExpr(last, m.pool, m.chain);
      ExprReady(last, m.pool, m.chain);
      var s2 := ExprTyped(last, m.pool, m.chain, h + |init|, k);
      GrowsOn(chain, m.chain, n.chain);
    PlainOn(pool, m.pool, n.pool);
      TypedSize(m.code, m.pool, s1, map[], h);
      TypedSize(n.code, n.pool, s2, map[], h + |init|);
      Lower(m.code, m.pool, s1, map[], h, n.pool, h);
      Lower(n.code, n.pool, s2, map[], h + |init|, n.pool, h);
      st := Then(m.code, s1, n.code, s2, n.pool, h);
    }
  }

  lemma VisibleBy(locals: seq<Lexical.Local>, h: nat, n: nat)
    requires Visible(locals, h)
    ensures Visible(locals, h + n)
  {
  }
}
