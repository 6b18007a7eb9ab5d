/** Compiled code keeps the stack in step with the compiler's picture of it: at every instruction the frame has one
    slot for each local and temporary, and what some closure may have captured is flagged, so that captured
    variables are closed and never popped. */
module Discipline {
  import opened Values
  import opened Bytecode
  import opened Codegen
  import opened Instructions
  import opened Functions
  import opened StackTypes
  import opened PieceTypes
  import opened ExprTypes
  import opened SoundCode
  import ClosureCode
  import Lexical

  // ----- places in a function -----

  /** No local is being initialized, and none is deeper than the scope. */
  ghost predicate Scoped(locals: seq<Lexical.Local>, level: nat) {
    && locals != [] && locals[0].level == 0
    && forall i :: 0 <= i < |locals| ==> 0 <= locals[i].level <= level
  }

  ghost predicate InScope(c: Spot) {
    c.loop.InLoop? ==> c.loop.level < c.level
  }

  /** How many slots there are at the top of the loop around; without a loop only the function itself stays. */
  function Base(locals: seq<Lexical.Local>, loop: Loop): nat {
    if loop.NoLoop? then 1 else |locals| - Deeper(locals, loop.level)
  }

  lemma {:induction false} DeeperFew(locals: seq<Lexical.Local>, level: int)
    requires locals != [] && locals[0].level <= level
    ensures Deeper(locals, level) < |locals|
    decreases |locals|
  {
    if |locals| > 1 { DeeperFew(locals[..|locals| - 1], level); }
  }

  lemma BaseBounds(locals: seq<Lexical.Local>, c: Spot)
    requires Scoped(locals, c.level)
    ensures 1 <= Base(locals, c.loop) <= |locals|
  {
    if c.loop.InLoop? { DeeperFew(locals, c.loop.level); }
  }

  /** The slots at the top of the loop around. */
  function TopOf(locals: seq<Lexical.Local>, loop: Loop): Slots
    requires Base(locals, loop) <= |locals|
  {
    SlotsOf(locals[..Base(locals, loop)])
  }

  lemma FlaggedBase(a: seq<Lexical.Local>, b: seq<Lexical.Local>, loop: Loop)
    requires Flagged(a, b)
    ensures Base(a, loop) == Base(b, loop)
    ensures Base(a, loop) <= |a| ==> Into(TopOf(a, loop), TopOf(b, loop))
  {
    if loop.InLoop? { FlaggedDeeper(a, b, loop.level); }
    if Base(a, loop) <= |a| { FlaggedInto(a, b, Base(a, loop)); }
  }

  lemma FlaggedScoped(a: seq<Lexical.Local>, b: seq<Lexical.Local>, level: nat)
    requires Flagged(a, b) && Scoped(a, level)
    ensures Scoped(b, level)
  {
  }

  lemma FlaggedSlots(a: seq<Lexical.Local>, b: seq<Lexical.Local>)
    requires Flagged(a, b)
    ensures Into(SlotsOf(a), SlotsOf(b))
  {
    FlaggedInto(a, b, |a|);
    assert a[..|a|] == a && b[..|b|] == b;
  }

  // ----- what compiling a statement promises -----

  /** The code may be entered with the locals before it and is left with the locals after it; `continue` arrives at
      the top of the loop with the locals there. */
  ghost predicate Carries(m: Made, pool: seq<Constant>, chain: Chain, c: Spot, st: seq<Slots>) {
    && m.Made? && Lexical.Grows(chain, m.chain) && pool <= m.pool && (PoolTyped(pool) ==> PoolTyped(m.pool))
    && Base(chain[0].locals, c.loop) <= |m.chain[0].locals|
    && Base(m.chain[0].locals, c.loop) <= |m.chain[0].locals|
    && Typed(m.code, m.pool, st, Exits(c.loop, TopOf(m.chain[0].locals, c.loop)), Base(chain[0].locals, c.loop))
    && Into(SlotsOf(chain[0].locals), st[0]) && st[|m.code|] == SlotsOf(m.chain[0].locals)
  }

  lemma GrowsFlagged(chain: Chain, after: Chain)
    requires Lexical.Grows(chain, after)
    ensures Flagged(chain[0].locals, after[0].locals)
  {
    assert Lexical.LevelGrows(chain[0], after[0]);
  }

  /** More constants, fewer slots to pop, and more captured slots at the loop's top. */
  lemma Lift(code: seq<byte>, pool: seq<Constant>, st: seq<Slots>, loop: Loop, u: Slots, low: nat,
      more: seq<Constant>, u': Slots, low': nat)
    requires Typed(code, pool, st, Exits(loop, u), low) && pool <= more && Into(u, u') && low' <= low
    ensures Typed(code, more, st, Exits(loop, u'), low')
  {
    hide Typed;
    forall e | e in Exits(loop, u)
      ensures e in Exits(loop, u') && Into(More(Exits(loop, u)[e], {}), Exits(loop, u')[e])
    {
    }
    TypedSize(code, pool, st, Exits(loop, u), low);
    Raise(code, pool, st, Exits(loop, u), low, more, low', {}, Exits(loop, u'));
    RaisedNothing(st);
  }

  /** Straight code in a loop. */
  lemma LiftStraight(code: seq<byte>, pool: seq<Constant>, st: seq<Slots>, low: nat, more: seq<Constant>, loop: Loop,
      u: Slots, low': nat)
    requires Typed(code, pool, st, map[], low) && pool <= more && low' <= low
    ensures Typed(code, more, st, Exits(loop, u), low')
  {
    hide Typed;
    TypedSize(code, pool, st, map[], low);
    Raise(code, pool, st, map[], low, more, low', {}, Exits(loop, u));
    RaisedNothing(st);
  }

  // ----- simple statements -----

  /** An instruction that takes the value of an expression. */
  lemma DropTyped(code: seq<byte>, pool: seq<Constant>, h: nat, k: set<int>) returns (st: seq<Slots>)
    requires |code| == 1 ==> code[0] in [OP_POP, OP_PRINT]
    requires |code| == 2 ==> code[0] == OP_DEFINE_GLOBAL
    requires (|code| == 1 || |code| == 2) && Bounded(Slots(h, k))
    ensures Typed(code, pool, st, map[], h) && st[0] == Slots(h + 1, k) && st[|code|] == Slots(h, k)
  {
    hide Typed;
    st := InsTyped(code, pool, Slots(h + 1, k), h);
  }

  lemma {:induction false} SimpleTyped(e: Expr, op: byte, c: Spot, pool: seq<Constant>, chain: Chain)
    returns (st: seq<Slots>)
    requires Ready(pool, chain) && MakeExpr(e, pool, chain).Made? && Scoped(chain[0].locals, c.level)
    requires op in [OP_POP, OP_PRINT]
    ensures Carries(MakeExpr(e, pool, chain).Append([op]), pool, chain, c, st)
  {
    hide Ready, MakeExpr, Typed, Into, PoolTyped, OnlyPlain, Visible;
    var locals := chain[0].locals;
    var h, k := |locals|, Marked(locals);
    AllVisible(locals);
    var m := MakeExpr(e, pool, chain);
    var s1 := ExprTyped(e, pool, chain, h, k);
    var s2 := DropTyped([op], m.pool, h, k);
    NotEmpty(m, pool, chain, s1, h, k);
    TypedSize(m.code, m.pool, s1, map[], h);
    st := Then(m.code, s1, [op], s2, m.pool, h);
    CarriesStraight(m.Append([op]), pool, chain, c, st);
  }

  lemma AllVisible(locals: seq<Lexical.Local>)
    ensures Visible(locals, |locals|)
  {
  }

  /** Straight code that leaves the locals alone. */
  lemma CarriesStraight(m: Made, pool: seq<Constant>, chain: Chain, c: Spot, st: seq<Slots>)
    requires m.Made? && OnlyPlain(pool, m.pool) && Lexical.Grows(chain, m.chain)
    requires m.chain[0].locals == chain[0].locals && Scoped(chain[0].locals, c.level)
    requires Typed(m.code, m.pool, st, map[], |chain[0].locals|)
    requires st[0] == SlotsOf(chain[0].locals) && st[|m.code|] == SlotsOf(chain[0].locals)
    ensures Carries(m, pool, chain, c, st)
  {
    hide Typed, Base, SlotsOf, Scoped, PoolTyped, Lexical.Grows, Exits;
    BaseBounds(chain[0].locals, c);
    if PoolTyped(pool) { PlainTyped(pool, m.pool); }
    LiftStraight(m.code, m.pool, st, |chain[0].locals|, m.pool, c.loop, TopOf(m.chain[0].locals, c.loop),
      Base(chain[0].locals, c.loop));
    SelfInto(SlotsOf(chain[0].locals));
  }

  /** Behind a return the locals are the same again. */
  lemma ReturnTyped(pool: seq<Constant>, h: nat, k: set<int>) returns (st: seq<Slots>)
    requires Bounded(Slots(h, k)) && h > 0
    ensures Typed([OP_RETURN], pool, st, map[], h) && st[0] == Slots(h + 1, k) && st[1] == Slots(h, k)
  {
    hide Typed;
    st := OneTyped([OP_RETURN], pool, Slots(h + 1, k), Slots(h, k), map[], h);
  }

  lemma {:induction false} ReturnsTyped(value: Option<Expr>, c: Spot, pool: seq<Constant>, chain: Chain)
    returns (st: seq<Slots>)
    requires Ready(pool, chain) && Scoped(chain[0].locals, c.level)
    requires MakeStmt(Statement.Return(value), c, pool, chain).Made?
    ensures Carries(MakeStmt(Statement.Return(value), c, pool, chain), pool, chain, c, st)
  {
    hide Ready, MakeExpr, Typed, Into, PoolTyped, OnlyPlain, Visible, Carries;
    var locals := chain[0].locals;
    var h, k := |locals|, Marked(locals);
    AllVisible(locals);
    match value
    case None =>
      var s1 := GetTyped([OP_NIL], pool, h, k);
      var s2 := ReturnTyped(pool, h, k);
      TypedSize([OP_NIL], pool, s1, map[], h);
      st := Then([OP_NIL], s1, [OP_RETURN], s2, pool, h);
      assert [OP_NIL] + [OP_RETURN] == [OP_NIL, OP_RETURN];
      GrowsSelf(chain);
      NoMore(pool);
      CarriesStraight(MakeStmt(Statement.Return(value), c, pool, chain), pool, chain, c, st);
    case Some(e) =>
      var m := MakeExpr(e, pool, chain);
      var s1 := ExprTyped(e, pool, chain, h, k);
      var s2 := ReturnTyped(m.pool, h, k);
      NotEmpty(m, pool, chain, s1, h, k);
      TypedSize(m.code, m.pool, s1, map[], h);
      st := Then(m.code, s1, [OP_RETURN], s2, m.pool, h);
      CarriesStraight(m.Append([OP_RETURN]), pool, chain, c, st);
  }

  lemma NoMore(pool: seq<Constant>)
    ensures OnlyPlain(pool, pool)
  {
  }

  /** The locals of the loop's body are not captured where `continue` leaves them. */
  ghost predicate NoneCaptured(locals: seq<Lexical.Local>, loop: Loop) {
    loop.InLoop? ==> forall i :: |locals| - Deeper(locals, loop.level) <= i < |locals| ==> !locals[i].captured
  }

  lemma {:induction false} ContinueTyped(c: Spot, pool: seq<Constant>, chain: Chain) returns (st: seq<Slots>)
    requires Scoped(chain[0].locals, c.level) && NoneCaptured(chain[0].locals, c.loop)
    requires MakeStmt(Statement.Continue, c, pool, chain).Made?
    ensures Carries(MakeStmt(Statement.Continue, c, pool, chain), pool, chain, c, st)
  {
    hide Typed, Into, PoolTyped, Deeper, Scoped, Lexical.Grows, JumpCode;
    var locals := chain[0].locals;
    var n := Deeper(locals, c.loop.level);
    var back, top := c.loop.distance + n + 3, locals[..|locals| - n];
    BaseBounds(locals, c);
    GrowsSelf(chain);
    var s1 := PopsTyped(locals, n, pool, |top|);
    var s2 := JumpTyped(OP_LOOP, back, pool, SlotsOf(top), SlotsOf(locals), |top|);
    SelfInto(SlotsOf(top));
    SelfInto(SlotsOf(locals));
    TypedSize(Pops(n), pool, s1, map[], |top|);
    TypedSize(JumpCode(OP_LOOP, back), pool, s2, map[Leads(OP_LOOP, back) := SlotsOf(top)], |top|);
    JoinStraight(Pops(n), s1, map[], JumpCode(OP_LOOP, back), s2, map[Leads(OP_LOOP, back) := SlotsOf(top)], pool,
      |top|, Exits(c.loop, SlotsOf(top)));
    st := Joined(s1, s2);
  }

  // ----- conditionals, loops and blocks -----

  lemma {:induction false} StmtReady(s: Statement, c: Spot, pool: seq<Constant>, chain: Chain)
    requires Ready(pool, chain) && FunctionsTame(s) && MakeStmt(s, c, pool, chain).Made?
    ensures var m := MakeStmt(s, c, pool, chain); Ready(m.pool, m.chain) && pool <= m.pool
  {
    hide MakeStmt, Sound, PoolOk, Lexical.WellLinked;
    StmtGood(s, c, pool, chain);
  }

  /** No `continue` leaves a captured local. */
  ghost predicate Closes(s: Statement, c: Spot, pool: seq<Constant>, chain: Chain)
    decreases s, 1
  {
    match s
    case Block(items) => AllClose(items, c.(level := c.level + 1), pool, chain)
    case If(e, t, f) =>
      var m := MakeExpr(e, pool, chain);
      m.Made? ==>
        && Closes(t, c.Past(|m.code| + 4), m.pool, m.chain)
        && var n := MakeStmt(t, c.Past(|m.code| + 4), m.pool, m.chain);
          (n.Made? && f.Some? ==> Closes(f.value, c.Past(|m.code| + 4 + |n.code| + 4), n.pool, n.chain))
    case While(e, b) =>
      var m := MakeExpr(e, pool, chain);
      m.Made? ==> Closes(b, c.Inside(|m.code|), m.pool, m.chain)
    case Continue => NoneCaptured(chain[0].locals, c.loop)
    case _ => true
  }

  ghost predicate ItemCloses(d: Item, c: Spot, pool: seq<Constant>, chain: Chain)
    decreases d, 2
  {
    match d
    case Stat(s) => Closes(s, c, pool, chain)
    case Var(_, _) => true
    case Fun(x, params, body) =>
      AllClose(body, BODY, [], Enter(params, if c.level == 0 then chain else AddLocal(chain, x, c.level)))
  }

  ghost predicate AllClose(ds: seq<Item>, c: Spot, pool: seq<Constant>, chain: Chain)
    decreases ds, 0
  {
    ds == [] ||
    var m := MakeItems(ds[..|ds| - 1], c, pool, chain);
    && AllClose(ds[..|ds| - 1], c, pool, chain)
    && (m.Made? ==> ItemCloses(ds[|ds| - 1], c.Past(|m.code|), m.pool, m.chain))
  }

  /** There is no `continue`, not even in a function. */
  predicate Steady(s: Statement)
    decreases s, 1
  {
    match s
    case Block(items) => AllSteady(items)
    case If(_, t, f) => Steady(t) && (f.Some? ==> Steady(f.value))
    case While(_, b) => Steady(b)
    case Continue => false
    case _ => true
  }

  predicate ItemSteady(d: Item)
    decreases d, 2
  {
    match d
    case Stat(s) => Steady(s)
    case Var(_, _) => true
    case Fun(_, _, body) => AllSteady(body)
  }

  predicate AllSteady(ds: seq<Item>)
    decreases ds, 0
  {
    ds == [] || (AllSteady(ds[..|ds| - 1]) && ItemSteady(ds[|ds| - 1]))
  }

  lemma {:induction false} SteadyCloses(s: Statement, c: Spot, pool: seq<Constant>, chain: Chain)
    requires Steady(s)
    ensures Closes(s, c, pool, chain)
    decreases s, 1
  {
    hide MakeExpr, MakeStmt;
    match s
    case Block(items) => SteadyAll(items, c.(level := c.level + 1), pool, chain);
    case If(e, t, f) =>
      var m := MakeExpr(e, pool, chain);
      if m.Made? {
        SteadyCloses(t, c.Past(|m.code| + 4), m.pool, m.chain);
        var n := MakeStmt(t, c.Past(|m.code| + 4), m.pool, m.chain);
        if n.Made? && f.Some? { SteadyCloses(f.value, c.Past(|m.code| + 4 + |n.code| + 4), n.pool, n.chain); }
      }
    case While(e, b) =>
      var m := MakeExpr(e, pool, chain);
      if m.Made? { SteadyCloses(b, c.Inside(|m.code|), m.pool, m.chain); }
    case _ =>
  }

  lemma {:induction false} SteadyItem(d: Item, c: Spot, pool: seq<Constant>, chain: Chain)
    requires ItemSteady(d)
    ensures ItemCloses(d, c, pool, chain)
    decreases d, 2
  {
    match d
    case Stat(s) => SteadyCloses(s, c, pool, chain);
    case Var(_, _) =>
    case Fun(x, params, body) =>
      SteadyAll(body, BODY, [], Enter(params, if c.level == 0 then chain else AddLocal(chain, x, c.level)));
  }

  /** Where nothing is continued no captured local is left by it. */
  lemma {:induction false} SteadyAll(ds: seq<Item>, c: Spot, pool: seq<Constant>, chain: Chain)
    requires AllSteady(ds)
    ensures AllClose(ds, c, pool, chain)
    decreases ds, 0
  {
    hide MakeItems;
    if ds != [] {
      var m := MakeItems(ds[..|ds| - 1], c, pool, chain);
      SteadyAll(ds[..|ds| - 1], c, pool, chain);
      if m.Made? { SteadyItem(ds[|ds| - 1], c.Past(|m.code|), m.pool, m.chain); }
    }
  }

  lemma SpotPast(c: Spot, n: nat)
    ensures c.Past(n).level == c.level && c.Past(n).loop == Past(c.loop, n)
    ensures InScope(c) ==> InScope(c.Past(n))
  {
  }

  /** How far on in a loop does not matter. */
  lemma SameBase(locals: seq<Lexical.Local>, c: Spot, n: nat)
    ensures Base(locals, c.Past(n).loop) == Base(locals, c.loop)
    ensures Base(locals, c.loop) <= |locals| ==> TopOf(locals, c.Past(n).loop) == TopOf(locals, c.loop)
  {
  }

  /** A conditional whose parts have been compiled one after the other. */
  lemma IfCarries(m: Made, sm: seq<Slots>, t: Made, st: seq<Slots>, f: Made, sf: seq<Slots>, c: Spot,
      pool: seq<Constant>, chain: Chain) returns (r: seq<Slots>)
    requires Pushes(m, pool, chain, sm, |chain[0].locals|, Marked(chain[0].locals)) && Scoped(chain[0].locals, c.level)
    requires Carries(t, m.pool, m.chain, c.Past(|m.code| + 4), st)
    requires Carries(f, t.pool, t.chain, c.Past(|m.code| + 4 + |t.code| + 4), sf)
    requires |t.code| + 4 <= UINT16_MAX && |f.code| + 1 <= UINT16_MAX
    ensures Carries(Made(IfCode(m.code, t.code, f.code), f.pool, f.chain), pool, chain, c, r)
  {
    hide Typed, Into, PoolTyped, Deeper, Scoped, Lexical.Grows, IfCode, Base, TopOf, Exits, Marked;
    var a, b, d := chain[0].locals, t.chain[0].locals, f.chain[0].locals;
    SpotPast(c, |m.code| + 4);
    SpotPast(c, |m.code| + 4 + |t.code| + 4);
    SameBase(a, c, |m.code| + 4);
    SameBase(b, c, |m.code| + 4);
    SameBase(b, c, |m.code| + 4 + |t.code| + 4);
    SameBase(d, c, |m.code| + 4 + |t.code| + 4);
    GrowsFlagged(m.chain, t.chain);
    GrowsFlagged(t.chain, f.chain);
    FlaggedOn(a, b, d);
    FlaggedBase(a, b, c.loop);
    FlaggedBase(b, d, c.loop);
    FlaggedSlots(a, b);
    FlaggedSlots(b, d);
    GrowsOn(chain, m.chain, t.chain);
    GrowsOn(chain, t.chain, f.chain);
    BaseBounds(a, c);
    PlainKeeps(pool, m.pool);
    var low, u := Base(a, c.loop), TopOf(d, c.loop);
    SelfInto(u);
    Lower(m.code, m.pool, sm, map[], |a|, f.pool, low);
    Lift(t.code, t.pool, st, Past(c.loop, |m.code| + 4), TopOf(b, c.loop), low, f.pool, u, low);
    SelfInto(SlotsOf(a));
    SelfInto(SlotsOf(b));
    r := IfTyped(m.code, sm, t.code, st, f.code, sf, f.pool, low, SlotsOf(a), SlotsOf(b), c.loop, u);
  }

  lemma PlainKeeps(pool: seq<Constant>, more: seq<Constant>)
    requires OnlyPlain(pool, more)
    ensures PoolTyped(pool) ==> PoolTyped(more)
  {
    if PoolTyped(pool) { PlainTyped(pool, more); }
  }

  /** What a loop's iterations capture may be captured at its top. */
  lemma WhileCarries(m: Made, sm: seq<Slots>, b: Made, sb: seq<Slots>, c: Spot, pool: seq<Constant>, chain: Chain)
    returns (r: seq<Slots>)
    requires Pushes(m, pool, chain, sm, |chain[0].locals|, Marked(chain[0].locals)) && Scoped(chain[0].locals, c.level)
    requires Carries(b, m.pool, m.chain, c.Inside(|m.code|), sb) && |m.code| + |b.code| + 7 <= UINT16_MAX
    ensures Carries(Made(WhileCode(m.code, b.code), b.pool, b.chain), pool, chain, c, r)
  {
    hide Typed, Into, PoolTyped, Scoped, Lexical.Grows, WhileCode, Raised;
    var a, d := chain[0].locals, b.chain[0].locals;
    GrowsFlagged(m.chain, b.chain);
    GrowsOn(chain, m.chain, b.chain);
    PlainKeeps(pool, m.pool);
    WholeFrame(a, d, c);
    FlaggedSlots(a, d);
    var h, t := |a|, SlotsOf(d);
    LoopRaised(m, sm, b, sb, h, Marked(a), t);
    r := WhileTyped(m.code, Raised(sm, t.held), b.code, Raised(sb, t.held), b.pool, h, t);
    BaseBounds(a, c);
    FlaggedBase(a, d, c.loop);
    LiftStraight(WhileCode(m.code, b.code), b.pool, r, h, b.pool, c.loop, TopOf(d, c.loop), Base(a, c.loop));
  }

  /** At the top of the loop all locals are there. */
  lemma WholeFrame(a: seq<Lexical.Local>, d: seq<Lexical.Local>, c: Spot)
    requires Scoped(a, c.level) && Flagged(a, d)
    ensures forall n: nat :: Base(a, c.Inside(n).loop) == |a| && Base(d, c.Inside(n).loop) == |d|
    ensures forall n: nat :: TopOf(d, c.Inside(n).loop) == SlotsOf(d)
  {
    assert Deeper(a, c.level) == 0;
    FlaggedDeeper(a, d, c.level);
    assert d[..|d|] == d;
  }

  /** Condition and body, with everything that may be captured at the end of an iteration. */
  lemma LoopRaised(m: Made, sm: seq<Slots>, b: Made, sb: seq<Slots>, h: nat, k: set<int>, t: Slots)
    requires m.Made? && b.Made? && m.pool <= b.pool && t.height == h && Bounded(t) && Into(Slots(h, k), t)
    requires Typed(m.code, m.pool, sm, map[], h) && sm[0] == Slots(h, k) && sm[|m.code|] == Slots(h + 1, k)
    requires Typed(b.code, b.pool, sb, map[-(|m.code| + 4) := t], h)
    requires Into(Slots(h, k), sb[0]) && sb[|b.code|] == t
    ensures var x, y := Raised(sm, t.held), Raised(sb, t.held);
      && Typed(m.code, b.pool, x, map[], h) && x[0] == t && x[|m.code|] == Slots(h + 1, t.held)
      && Typed(b.code, b.pool, y, map[-(|m.code| + 4) := t], h) && Into(t, y[0]) && Into(y[|b.code|], t)
  {
    hide Typed;
    TypedSize(m.code, m.pool, sm, map[], h);
    TypedSize(b.code, b.pool, sb, map[-(|m.code| + 4) := t], h);
    assert k + t.held == t.held;
    Raise(m.code, m.pool, sm, map[], h, b.pool, h, t.held, map[]);
    Raise(b.code, b.pool, sb, map[-(|m.code| + 4) := t], h, b.pool, h, t.held, map[-(|m.code| + 4) := t]);
  }

  // ----- declarations -----

  /** The same locals, of which more may be captured, and new ones of this scope. */
  ghost predicate Extends(a: seq<Lexical.Local>, b: seq<Lexical.Local>, level: nat) {
    && |a| <= |b| && Flagged(a, b[..|a|])
    && forall i :: |a| <= i < |b| ==> b[i].level == level
  }

  ghost predicate GrowsOut(chain: Chain, after: Chain, level: nat) {
    && |chain| == |after| && chain[0].upvalues <= after[0].upvalues
    && Extends(chain[0].locals, after[0].locals, level)
    && forall d :: 1 <= d < |chain| ==> Lexical.LevelGrows(chain[d], after[d])
  }

  /** What compiling a declaration promises. */
  ghost predicate CarriesOn(m: Made, pool: seq<Constant>, chain: Chain, c: Spot, st: seq<Slots>) {
    && m.Made? && GrowsOut(chain, m.chain, c.level) && pool <= m.pool && (PoolTyped(pool) ==> PoolTyped(m.pool))
    && Base(chain[0].locals, c.loop) <= |m.chain[0].locals|
    && Base(m.chain[0].locals, c.loop) <= |m.chain[0].locals|
    && Typed(m.code, m.pool, st, Exits(c.loop, TopOf(m.chain[0].locals, c.loop)), Base(chain[0].locals, c.loop))
    && Into(SlotsOf(chain[0].locals), st[0]) && st[|m.code|] == SlotsOf(m.chain[0].locals)
  }

  lemma CarriesBoth(m: Made, pool: seq<Constant>, chain: Chain, c: Spot, st: seq<Slots>)
    requires Carries(m, pool, chain, c, st)
    ensures CarriesOn(m, pool, chain, c, st)
  {
    hide Typed, Into, PoolTyped, Base, TopOf, Exits, SlotsOf;
    GrowsFlagged(chain, m.chain);
    var a, b := chain[0].locals, m.chain[0].locals;
    assert b[..|a|] == b;
    assert Lexical.LevelGrows(chain[0], m.chain[0]);
  }

  lemma {:induction false} ExtendsDeeper(a: seq<Lexical.Local>, b: seq<Lexical.Local>, level: nat, l: int)
    requires Extends(a, b, level) && l < level
    ensures Deeper(b, l) == |b| - |a| + Deeper(a, l)
    decreases |b|
  {
    if |b| == |a| {
      assert b[..|a|] == b;
      FlaggedDeeper(a, b, l);
    } else {
      var rest := b[..|b| - 1];
      assert rest[..|a|] == b[..|a|];
      ExtendsDeeper(a, rest, level, l);
    }
  }

  lemma ExtendsBase(a: seq<Lexical.Local>, b: seq<Lexical.Local>, c: Spot)
    requires Scoped(a, c.level) && Extends(a, b, c.level) && InScope(c)
    ensures Base(a, c.loop) == Base(b, c.loop) && 1 <= Base(a, c.loop) <= |a| <= |b|
    ensures Into(TopOf(a, c.loop), TopOf(b, c.loop)) && Scoped(b, c.level)
  {
    if c.loop.InLoop? { ExtendsDeeper(a, b, c.level, c.loop.level); }
    BaseBounds(a, c);
    var n := Base(a, c.loop);
    hide Base;
    FlaggedInto(a, b[..|a|], n);
    assert b[..|a|][..n] == b[..n];
    assert b[0] == b[..|a|][0];
    forall i | 0 <= i < |b|
      ensures 0 <= b[i].level <= c.level
    {
      if i < |a| { assert b[i] == b[..|a|][i]; }
    }
  }

  lemma ExtendsOn(a: seq<Lexical.Local>, b: seq<Lexical.Local>, d: seq<Lexical.Local>, level: nat)
    requires Extends(a, b, level) && Extends(b, d, level)
    ensures Extends(a, d, level)
  {
    assert d[..|a|] == d[..|b|][..|a|];
    FlaggedOn(a, b[..|a|], d[..|a|]);
    forall i | |a| <= i < |d|
      ensures d[i].level == level
    {
      if i < |b| { assert d[i] == d[..|b|][i]; }
    }
  }

  lemma GrowsOutOn(a: Chain, b: Chain, d: Chain, level: nat)
    requires GrowsOut(a, b, level) && GrowsOut(b, d, level)
    ensures GrowsOut(a, d, level)
  {
    ExtendsOn(a[0].locals, b[0].locals, d[0].locals, level);
    forall i | 1 <= i < |a|
      ensures Lexical.LevelGrows(a[i], d[i])
    {
      assert Lexical.LevelGrows(a[i], b[i]) && Lexical.LevelGrows(b[i], d[i]);
    }
  }

  /** Two declarations, one after the other. */
  lemma BothCarry(m: Made, sm: seq<Slots>, n: Made, sn: seq<Slots>, c: Spot, pool: seq<Constant>, chain: Chain)
    returns (r: seq<Slots>)
    requires CarriesOn(m, pool, chain, c, sm) && Scoped(chain[0].locals, c.level) && InScope(c) && m.Made?
    requires CarriesOn(n, m.pool, m.chain, c.Past(|m.code|), sn)
    ensures CarriesOn(Made(m.code + n.code, n.pool, n.chain), pool, chain, c, r)
  {
    hide Typed, Into, PoolTyped, Scoped, Extends, GrowsOut, Base, TopOf, Exits, SlotsOf, InScope;
    var a, b, d := chain[0].locals, m.chain[0].locals, n.chain[0].locals;
    SpotPast(c, |m.code|);
    SameBase(b, c, |m.code|);
    SameBase(d, c, |m.code|);
    OutExtends(chain, m.chain, c.level);
    OutExtends(m.chain, n.chain, c.level);
    ExtendsBase(a, b, c);
    ExtendsBase(b, d, c);
    GrowsOutOn(chain, m.chain, n.chain, c.level);
    var low, u := Base(a, c.loop), TopOf(d, c.loop);
    Lift(m.code, m.pool, sm, c.loop, TopOf(b, c.loop), low, n.pool, u, low);
    TypedSize(m.code, n.pool, sm, Exits(c.loop, u), low);
    TypedSize(n.code, n.pool, sn, Exits(Past(c.loop, |m.code|), u), low);
    JoinInLoop(m.code, sm, n.code, sn, n.pool, low, c.loop, u);
    r := Joined(sm, sn);
    if m.code == [] { IntoOn(SlotsOf(a), sm[0], sn[0]); }
  }

  lemma OutExtends(chain: Chain, after: Chain, level: nat)
    requires GrowsOut(chain, after, level)
    ensures Extends(chain[0].locals, after[0].locals, level)
  {
  }

  /** A block's own locals are popped or closed at its end. */
  lemma BlockCarries(m: Made, sm: seq<Slots>, c: Spot, pool: seq<Constant>, chain: Chain) returns (r: seq<Slots>)
    requires CarriesOn(m, pool, chain, c.(level := c.level + 1), sm) && Scoped(chain[0].locals, c.level) && InScope(c)
    ensures Carries(EndScope(m, c.level), pool, chain, c, r)
  {
    hide Typed, Into, PoolTyped, Base, TopOf, Exits, SlotsOf, EndLocals;
    var inner := c.(level := c.level + 1);
    var a, b := chain[0].locals, m.chain[0].locals;
    OneDeeper(a, b, c);
    ExtendsBase(a, b, inner);
    FlaggedBase(a, b[..|a|], c.loop);
    var low, u := Base(a, c.loop), TopOf(b, c.loop);
    var ends := EndLocals(b, c.level);
    var se := EndLocalsTyped(b, c.level, m.pool, low);
    SameTop(b, |a|, c.loop);
    LiftStraight(ends, m.pool, se, low, m.pool, Past(c.loop, |m.code|), u, low);
    TypedSize(m.code, m.pool, sm, Exits(c.loop, u), low);
    TypedSize(ends, m.pool, se, map[], low);
    SelfInto(SlotsOf(b));
    JoinInLoop(m.code, sm, ends, se, m.pool, low, c.loop, u);
    r := Joined(sm, se);
    if m.code == [] { IntoOn(SlotsOf(a), sm[0], se[0]); }
    BlockGrows(chain, m.chain, c.level);
  }

  lemma OneDeeper(a: seq<Lexical.Local>, b: seq<Lexical.Local>, c: Spot)
    requires Scoped(a, c.level) && Extends(a, b, c.level + 1) && InScope(c)
    ensures Deeper(b, c.level) == |b| - |a| && Scoped(a, c.level + 1) && InScope(c.(level := c.level + 1))
  {
    ExtendsDeeper(a, b, c.level + 1, c.level);
  }

  lemma SameTop(b: seq<Lexical.Local>, n: nat, loop: Loop)
    requires n <= |b| && Base(b, loop) == Base(b[..n], loop) <= n
    ensures TopOf(b[..n], loop) == TopOf(b, loop)
  {
    hide Base;
    assert b[..n][..Base(b, loop)] == b[..Base(b, loop)];
  }

  lemma BlockGrows(chain: Chain, after: Chain, level: nat)
    requires GrowsOut(chain, after, level + 1)
    ensures Lexical.Grows(chain, WithLocals(after, after[0].locals[..|chain[0].locals|]))
  {
    var r := WithLocals(after, after[0].locals[..|chain[0].locals|]);
    forall d | 0 <= d < |chain|
      ensures Lexical.LevelGrows(chain[d], r[d])
    {
      if d > 0 { assert Lexical.LevelGrows(chain[d], after[d]); }
    }
  }

  /** The value of a declaration's initializer. */
  lemma {:induction false} InitTyped(init: Option<Expr>, pool: seq<Constant>, chain: Chain, h: nat, k: set<int>)
    returns (st: seq<Slots>)
    requires Ready(pool, chain) && MakeInit(init, pool, chain).Made?
    requires Visible(chain[0].locals, h) && Bounded(Slots(h, k))
    ensures Pushes(MakeInit(init, pool, chain), pool, chain, st, h, k)
  {
    hide Ready, MakeExpr, Typed, Bounded, Visible;
    match init
    case None =>
      GrowsSelf(chain);
      NoMore(pool);
      st := GetTyped([OP_NIL], pool, h, k);
    case Some(e) => st := ExprTyped(e, pool, chain, h, k);
  }

  /** A value becomes a new local. */
  lemma LocalCarries(m: Made, sm: seq<Slots>, x: Ident, c: Spot, pool: seq<Constant>, chain: Chain)
    requires Scoped(chain[0].locals, c.level) && InScope(c)
    requires Pushes(m, pool, AddLocal(chain, x, -1), sm, |chain[0].locals|, Marked(chain[0].locals))
    ensures CarriesOn(Finish(m, c.level), pool, chain, c, sm)
  {
    hide Typed, Into, PoolTyped, Base, TopOf, Exits;
    var a, b := chain[0].locals, Finish(m, c.level).chain[0].locals;
    assert b == a + [Lexical.Local(x, c.level, false)];
    assert b[..|a|] == a;
    assert Marked(b) == Marked(a);
    PlainKeeps(pool, m.pool);
    ExtendsBase(a, b, c);
    LiftStraight(m.code, m.pool, sm, |a|, m.pool, c.loop, TopOf(b, c.loop), Base(a, c.loop));
    SelfInto(SlotsOf(a));
    forall d | 1 <= d < |chain|
      ensures Lexical.LevelGrows(chain[d], Finish(m, c.level).chain[d])
    {
      assert Lexical.LevelGrows(AddLocal(chain, x, -1)[d], m.chain[d]);
    }
    assert Lexical.LevelGrows(AddLocal(chain, x, -1)[0], m.chain[0]);
  }

  /** A value becomes a global. */
  lemma GlobalCarries(def: Made, m: Made, sm: seq<Slots>, c: Spot, pool: seq<Constant>, chain: Chain)
    returns (r: seq<Slots>)
    requires Scoped(chain[0].locals, c.level) && def.Made? && def.chain == chain && OnlyPlain(pool, def.pool)
    requires |def.code| == 2 && def.code[0] == OP_DEFINE_GLOBAL
    requires Value(m, def.pool, chain, sm, |chain[0].locals|)
    ensures CarriesOn(Define(def, m), pool, chain, c, r)
  {
    hide Typed, Into, PoolTyped, Base, TopOf, Exits, Lexical.Grows;
    var a, b := chain[0].locals, m.chain[0].locals;
    GrowsFlagged(chain, m.chain);
    FlaggedBase(a, b, c.loop);
    BaseBounds(a, c);
    PlainKeeps(pool, def.pool);
    var sd := DropTyped(def.code, m.pool, |a|, Marked(b));
    TypedSize(m.code, m.pool, sm, map[], |a|);
    TypedSize(def.code, m.pool, sd, map[], |a|);
    JoinStraight(m.code, sm, map[], def.code, sd, map[], m.pool, |a|, map[]);
    r := Joined(sm, sd);
    LiftStraight(m.code + def.code, m.pool, r, |a|, m.pool, c.loop, TopOf(b, c.loop), Base(a, c.loop));
    if m.code == [] { IntoOn(SlotsOf(a), sm[0], sd[0]); }
    CarriesBoth(Define(def, m), pool, chain, c, r);
  }

  /** The code leaves a value on the frame; functions it refers to may have captured locals. */
  ghost predicate Value(m: Made, pool: seq<Constant>, chain: Chain, st: seq<Slots>, h: nat) {
    && m.Made? && Lexical.Grows(chain, m.chain) && pool <= m.pool && (PoolTyped(pool) ==> PoolTyped(m.pool))
    && Typed(m.code, m.pool, st, map[], h) && Into(Slots(h, Marked(chain[0].locals)), st[0])
    && Into(st[|m.code|], Slots(h + 1, Marked(m.chain[0].locals)))
  }

  lemma PushesValue(m: Made, pool: seq<Constant>, chain: Chain, st: seq<Slots>, h: nat)
    requires Pushes(m, pool, chain, st, h, Marked(chain[0].locals))
    ensures Value(m, pool, chain, st, h)
  {
    hide Typed, PoolTyped;
    PlainKeeps(pool, m.pool);
  }

  /** A function becomes a local: its slot is there before it is compiled. */
  lemma FunctionCarries(m: Made, sm: seq<Slots>, x: Ident, c: Spot, pool: seq<Constant>, chain: Chain)
    returns (r: seq<Slots>)
    requires Scoped(chain[0].locals, c.level) && InScope(c)
    requires Value(m, pool, AddLocal(chain, x, c.level), sm, |chain[0].locals|)
    ensures CarriesOn(m, pool, chain, c, r)
  {
    hide Typed, PoolTyped, Base, TopOf, Exits;
    var a, b, between := chain[0].locals, m.chain[0].locals, AddLocal(chain, x, c.level);
    GrowsFlagged(between, m.chain);
    assert between[0].locals[..|a|] == a;
    forall d | 1 <= d < |chain|
      ensures Lexical.LevelGrows(chain[d], m.chain[d])
    {
      assert Lexical.LevelGrows(between[d], m.chain[d]);
    }
    assert Lexical.LevelGrows(between[0], m.chain[0]);
    ExtendsBase(a, b, c);
    TypedSize(m.code, m.pool, sm, map[], |a|);
    r := sm[|m.code| := SlotsOf(b)];
    EndUp(m.code, m.pool, sm, |a|, SlotsOf(b));
    LiftStraight(m.code, m.pool, r, |a|, m.pool, c.loop, TopOf(b, c.loop), Base(a, c.loop));
    assert Marked(between[0].locals) == Marked(a);
  }

  // ----- every tree -----

  lemma EmptyCarries(pool: seq<Constant>, chain: Chain, c: Spot) returns (st: seq<Slots>)
    requires Scoped(chain[0].locals, c.level)
    ensures Carries(Made([], pool, chain), pool, chain, c, st)
  {
    hide Typed, PoolTyped, Base, SlotsOf, Bounded;
    var s := SlotsOf(chain[0].locals);
    GrowsSelf(chain);
    NoMore(pool);
    EmptyTyped(pool, s, |chain[0].locals|);
    st := [s];
    CarriesStraight(Made([], pool, chain), pool, chain, c, st);
  }

  lemma {:induction false} StmtTyped(s: Statement, c: Spot, pool: seq<Constant>, chain: Chain) returns (st: seq<Slots>)
    requires Ready(pool, chain) && FunctionsTame(s) && Closes(s, c, pool, chain)
    requires Scoped(chain[0].locals, c.level) && InScope(c) && MakeStmt(s, c, pool, chain).Made?
    ensures Carries(MakeStmt(s, c, pool, chain), pool, chain, c, st)
    decreases s, 1
  {
    hide Ready, Carries, Scoped, InScope, MakeExpr, MakeItems, EndScope, NoneCaptured, AllClose;
    match s
    case Do(e) => st := SimpleTyped(e, OP_POP, c, pool, chain);
    case Print(e) => st := SimpleTyped(e, OP_PRINT, c, pool, chain);
    case Block(items) => st := BlockTyped(items, c, pool, chain);
    case If(e, t, f) => st := ConditionalTyped(e, t, f, c, pool, chain);
    case While(e, b) => st := LoopTyped(e, b, c, pool, chain);
    case Continue => st := ContinueTyped(c, pool, chain);
    case Return(value) => st := ReturnsTyped(value, c, pool, chain);
  }

  lemma {:induction false} BlockTyped(items: seq<Item>, c: Spot, pool: seq<Constant>, chain: Chain)
    returns (st: seq<Slots>)
    requires Ready(pool, chain) && FunctionsTame(Statement.Block(items))
    requires Closes(Statement.Block(items), c, pool, chain)
    requires Scoped(chain[0].locals, c.level) && InScope(c) && MakeStmt(Statement.Block(items), c, pool, chain).Made?
    ensures Carries(MakeStmt(Statement.Block(items), c, pool, chain), pool, chain, c, st)
    decreases Statement.Block(items), 0
  {
    hide Ready, Carries, CarriesOn, MakeItems, EndScope, AllClose, ItemsTame;
    var inner := c.(level := c.level + 1);
    assert EndScope(MakeItems(items, inner, pool, chain), c.level).Made?;
    EndMade(MakeItems(items, inner, pool, chain), c.level);
    var sm := ItemsTyped(items, inner, pool, chain);
    st := BlockCarries(MakeItems(items, inner, pool, chain), sm, c, pool, chain);
  }

  lemma EndMade(m: Made, level: int)
    requires EndScope(m, level).Made?
    ensures m.Made?
  {
  }

  lemma PushesKeeps(m: Made, pool: seq<Constant>, chain: Chain, st: seq<Slots>, h: nat, k: set<int>)
    requires Pushes(m, pool, chain, st, h, k)
    ensures m.Made? && m.chain[0].locals == chain[0].locals
  {
  }

  lemma {:induction false} ConditionalTyped(e: Expr, t: Statement, f: Option<Statement>, c: Spot, pool: seq<Constant>,
      chain: Chain) returns (st: seq<Slots>)
    requires Ready(pool, chain) && FunctionsTame(Statement.If(e, t, f)) && Closes(Statement.If(e, t, f), c, pool, chain)
    requires Scoped(chain[0].locals, c.level) && InScope(c) && MakeStmt(Statement.If(e, t, f), c, pool, chain).Made?
    ensures Carries(MakeStmt(Statement.If(e, t, f), c, pool, chain), pool, chain, c, st)
    decreases Statement.If(e, t, f), 0
  {
    hide Ready, Carries, MakeExpr, MakeStmt, Scoped, InScope, Visible, IfCode, Pushes, Lexical.Grows;
    IfMade(e, t, f, c, pool, chain);
    AllVisible(chain[0].locals);
    var m := MakeExpr(e, pool, chain);
    var sm := ExprTyped(e, pool, chain, |chain[0].locals|, Marked(chain[0].locals));
    ExprReady(e, pool, chain);
    PushesKeeps(m, pool, chain, sm, |chain[0].locals|, Marked(chain[0].locals));
    var past := c.Past(|m.code| + 4);
    SpotPast(c, |m.code| + 4);
    var s1 := StmtTyped(t, past, m.pool, m.chain);
    var n := MakeStmt(t, past, m.pool, m.chain);
    StmtReady(t, past, m.pool, m.chain);
    CarriesScoped(n, m.pool, m.chain, past, s1, c.level);
    var after := c.Past(|m.code| + 4 + |n.code| + 4);
    SpotPast(c, |m.code| + 4 + |n.code| + 4);
    if f.None? {
      var s2 := EmptyCarries(n.pool, n.chain, after);
      st := IfCarries(m, sm, n, s1, Made([], n.pool, n.chain), s2, c, pool, chain);
    } else {
      var s2 := StmtTyped(f.value, after, n.pool, n.chain);
      st := IfCarries(m, sm, n, s1, MakeStmt(f.value, after, n.pool, n.chain), s2, c, pool, chain);
    }
  }

  lemma CarriesScoped(m: Made, pool: seq<Constant>, chain: Chain, c: Spot, st: seq<Slots>, level: nat)
    requires Carries(m, pool, chain, c, st) && Scoped(chain[0].locals, level)
    ensures Scoped(m.chain[0].locals, level)
  {
    hide Typed, PoolTyped, Base, TopOf, Exits, SlotsOf;
    GrowsFlagged(chain, m.chain);
    FlaggedScoped(chain[0].locals, m.chain[0].locals, level);
  }

  lemma {:induction false} LoopTyped(e: Expr, b: Statement, c: Spot, pool: seq<Constant>, chain: Chain)
    returns (st: seq<Slots>)
    requires Ready(pool, chain) && FunctionsTame(Statement.While(e, b)) && Closes(Statement.While(e, b), c, pool, chain)
    requires Scoped(chain[0].locals, c.level) && InScope(c) && MakeStmt(Statement.While(e, b), c, pool, chain).Made?
    ensures Carries(MakeStmt(Statement.While(e, b), c, pool, chain), pool, chain, c, st)
    decreases Statement.While(e, b), 0
  {
    hide Ready, Carries, MakeExpr, MakeStmt, Visible, WhileCode;
    WhileMade(e, b, c, pool, chain);
    AllVisible(chain[0].locals);
    var m := MakeExpr(e, pool, chain);
    var sm := ExprTyped(e, pool, chain, |chain[0].locals|, Marked(chain[0].locals));
    ExprReady(e, pool, chain);
    var inside := c.Inside(|m.code|);
    var sb := StmtTyped(b, inside, m.pool, m.chain);
    st := WhileCarries(m, sm, MakeStmt(b, inside, m.pool, m.chain), sb, c, pool, chain);
  }

  lemma {:induction false} ItemsReady(ds: seq<Item>, c: Spot, pool: seq<Constant>, chain: Chain)
    requires Ready(pool, chain) && ItemsTame(ds) && MakeItems(ds, c, pool, chain).Made?
    ensures var m := MakeItems(ds, c, pool, chain); Ready(m.pool, m.chain) && pool <= m.pool
  {
    hide MakeItems, Sound, PoolOk, Lexical.WellLinked;
    ItemsGood(ds, c, pool, chain);
  }

  lemma {:induction false} ItemsTyped(ds: seq<Item>, c: Spot, pool: seq<Constant>, chain: Chain)
    returns (st: seq<Slots>)
    requires Ready(pool, chain) && ItemsTame(ds) && AllClose(ds, c, pool, chain)
    requires Scoped(chain[0].locals, c.level) && InScope(c) && MakeItems(ds, c, pool, chain).Made?
    ensures CarriesOn(MakeItems(ds, c, pool, chain), pool, chain, c, st)
    decreases ds, 0
  {
    hide Ready, Carries, CarriesOn, MakeItem, Scoped, InScope, ItemTame, ItemCloses;
    if ds == [] {
      st := EmptyCarries(pool, chain, c);
      CarriesBoth(Made([], pool, chain), pool, chain, c, st);
    } else {
      var init, last := ds[..|ds| - 1], ds[|ds| - 1];
      var m := MakeItems(init, c, pool, chain);
      var sm := ItemsTyped(init, c, pool, chain);
      ItemsReady(init, c, pool, chain);
      OnScoped(m, pool, chain, c, sm);
      var past := c.Past(|m.code|);
      SpotPast(c, |m.code|);
      var sn := ItemTyped(last, past, m.pool, m.chain);
      st := BothCarry(m, sm, MakeItem(last, past, m.pool, m.chain), sn, c, pool, chain);
    }
  }

  lemma OnScoped(m: Made, pool: seq<Constant>, chain: Chain, c: Spot, st: seq<Slots>)
    requires CarriesOn(m, pool, chain, c, st) && Scoped(chain[0].locals, c.level) && InScope(c)
    ensures Scoped(m.chain[0].locals, c.level)
  {
    hide Typed, PoolTyped, Base, TopOf, Exits, SlotsOf;
    ExtendsBase(chain[0].locals, m.chain[0].locals, c);
  }

  lemma {:induction false} ItemTyped(d: Item, c: Spot, pool: seq<Constant>, chain: Chain) returns (st: seq<Slots>)
    requires Ready(pool, chain) && ItemTame(d) && ItemCloses(d, c, pool, chain)
    requires Scoped(chain[0].locals, c.level) && InScope(c) && MakeItem(d, c, pool, chain).Made?
    ensures CarriesOn(MakeItem(d, c, pool, chain), pool, chain, c, st)
    decreases d, 2
  {
    hide Ready, Carries, CarriesOn, MakeStmt, MakeInit, MakeFunction, Functions.WithConstant, InScope, Closes,
      AllClose, FunctionsTame, ItemsTame, ItemsOutline, Define, Finish;
    match d
    case Stat(s) =>
      st := StmtTyped(s, c, pool, chain);
      CarriesBoth(MakeStmt(s, c, pool, chain), pool, chain, c, st);
    case Var(x, init) => st := VarTyped(x, init, c, pool, chain);
    case Fun(x, params, body) => st := FunTyped(x, params, body, c, pool, chain);
  }

  lemma {:induction false} VarTyped(x: Ident, init: Option<Expr>, c: Spot, pool: seq<Constant>, chain: Chain)
    returns (st: seq<Slots>)
    requires Ready(pool, chain) && Scoped(chain[0].locals, c.level) && InScope(c)
    requires MakeItem(Var(x, init), c, pool, chain).Made?
    ensures CarriesOn(MakeItem(Var(x, init), c, pool, chain), pool, chain, c, st)
  {
    hide Ready, CarriesOn, MakeInit, Functions.WithConstant, InScope, Visible, Value, Pushes;
    var h, k := |chain[0].locals|, Marked(chain[0].locals);
    if c.level == 0 {
      var def := Functions.WithConstant(OP_DEFINE_GLOBAL, Plain(Str(x)), pool, chain);
      ConstantForm(OP_DEFINE_GLOBAL, Plain(Str(x)), pool, chain);
      DefReady(x, pool, chain);
      AllVisible(chain[0].locals);
      var sm := InitTyped(init, def.pool, chain, h, k);
      PushesValue(MakeInit(init, def.pool, chain), def.pool, chain, sm, h);
      st := GlobalCarries(def, MakeInit(init, def.pool, chain), sm, c, pool, chain);
    } else {
      var between := AddLocal(chain, x, -1);
      EarlyVisible(chain[0].locals, x);
      LocalsReady(pool, chain, between[0].locals);
      FinishMade(MakeInit(init, pool, between), c.level);
      st := InitTyped(init, pool, between, h, k);
      LocalCarries(MakeInit(init, pool, between), st, x, c, pool, chain);
    }
  }

  lemma FinishMade(m: Made, level: nat)
    ensures Finish(m, level).Made? <==> m.Made?
  {
  }

  /** The local whose initializer is compiled has no slot yet. */
  lemma EarlyVisible(locals: seq<Lexical.Local>, x: Ident)
    ensures Visible(locals + [Lexical.Local(x, -1, false)], |locals|)
  {
  }

  lemma LocalsReady(pool: seq<Constant>, chain: Chain, locals: seq<Lexical.Local>)
    requires Ready(pool, chain) && |locals| <= UINT8_MAX + 1
    ensures Ready(pool, WithLocals(chain, locals))
  {
    hide PoolOk, Lexical.WellLinked;
    LocalsChange(chain, locals);
  }

  lemma DefReady(x: Ident, pool: seq<Constant>, chain: Chain)
    requires Ready(pool, chain) && Functions.WithConstant(OP_DEFINE_GLOBAL, Plain(Str(x)), pool, chain).Made?
    ensures Ready(Functions.WithConstant(OP_DEFINE_GLOBAL, Plain(Str(x)), pool, chain).pool, chain)
  {
    hide PoolOk, Lexical.WellLinked, Sound;
    ConstantGood(OP_DEFINE_GLOBAL, Str(x), pool, chain);
  }

  lemma {:induction false} FunTyped(x: Ident, params: seq<Ident>, body: seq<Item>, c: Spot, pool: seq<Constant>,
      chain: Chain) returns (st: seq<Slots>)
    requires Ready(pool, chain) && ItemTame(Fun(x, params, body)) && ItemCloses(Fun(x, params, body), c, pool, chain)
    requires Scoped(chain[0].locals, c.level) && InScope(c) && MakeItem(Fun(x, params, body), c, pool, chain).Made?
    ensures CarriesOn(MakeItem(Fun(x, params, body), c, pool, chain), pool, chain, c, st)
    decreases Fun(x, params, body), 1
  {
    hide Ready, CarriesOn, MakeFunction, Functions.WithConstant, InScope, Value, AllClose, ItemsTame, ItemsOutline;
    if c.level == 0 {
      var def := Functions.WithConstant(OP_DEFINE_GLOBAL, Plain(Str(x)), pool, chain);
      ConstantForm(OP_DEFINE_GLOBAL, Plain(Str(x)), pool, chain);
      DefReady(x, pool, chain);
      var sm := FunctionTyped(params, body, def.pool, chain, |chain[0].locals|);
      st := GlobalCarries(def, MakeFunction(params, body, def.pool, chain), sm, c, pool, chain);
    } else {
      var between := AddLocal(chain, x, c.level);
      LocalsReady(pool, chain, between[0].locals);
      var sm := FunctionTyped(params, body, pool, between, |chain[0].locals|);
      st := FunctionCarries(MakeFunction(params, body, pool, between), sm, x, c, pool, chain);
    }
  }

  // ----- functions -----

  lemma {:induction false} FunctionTyped(params: seq<Ident>, body: seq<Item>, pool: seq<Constant>, chain: Chain, h: nat)
    returns (st: seq<Slots>)
    requires Ready(pool, chain) && ItemsOutline(body).Tame() && ItemsTame(body)
    requires AllClose(body, BODY, [], Enter(params, chain)) && MakeFunction(params, body, pool, chain).Made?
    requires h <= |chain[0].locals| <= h + 1
    requires forall i :: h <= i < |chain[0].locals| ==> !chain[0].locals[i].captured
    ensures Value(MakeFunction(params, body, pool, chain), pool, chain, st, h)
    decreases body, 3
  {
    hide PoolOk, LayItems, ItemsTame, ItemsOutline, MakeClosure, AllClose, Disciplined, Compact, Lexical.WellLinked,
      Value, Scoped, InScope;
    var start := Enter(params, chain);
    MadeInside(params, body, pool, chain);
    InnerReady(params, chain);
    var inner := LayItems(body, BODY, start);
    ParametersScoped(params, chain);
    ChunkGood(|params|, body, BODY, start);
    ChunkTyped(|params|, body, BODY, start);
    st := ClosureTyped(|params|, inner, pool, chain, h);
  }

  lemma {:induction false} MadeInside(params: seq<Ident>, body: seq<Item>, pool: seq<Constant>, chain: Chain)
    requires MakeFunction(params, body, pool, chain).Made?
    ensures |params| <= UINT8_MAX
    ensures var inner := LayItems(body, BODY, Enter(params, chain));
      inner.Made? && MakeFunction(params, body, pool, chain) == MakeClosure(|params|, inner, pool)
  {
    hide LayItems, MakeClosure;
  }

  /** The chunk of a function has stack types, and its functions captured only flagged locals of those around. */
  lemma {:induction false} ChunkTyped(arity: nat, body: seq<Item>, c: Spot, chain: Chain)
    requires Ready([], chain) && c.loop.NoLoop? && ItemsOutline(body).Tame() && ItemsTame(body)
    requires AllClose(body, c, [], chain) && Scoped(chain[0].locals, c.level)
    requires SlotsOf(chain[0].locals) == Slots(arity + 1, {}) && LayItems(body, c, chain).Made?
    ensures var r := LayItems(body, c, chain);
      && (|chain| > 1 ==> Lexical.Grows(chain[1..], r.chain[1..]))
      && (Compact(Ended(arity, r)) ==> Disciplined(Ended(arity, r)))
    decreases body, 2
  {
    hide MakeItems, LayItems, ItemsTame, ItemsOutline, AllClose, Ready, Scoped, Disciplined, PoolTyped, Typed, SlotsOf,
      Base, TopOf;
    LaidSize(body, c, chain);
    var m, r := MakeItems(body, c, [], chain), LayItems(body, c, chain);
    var sm := ItemsTyped(body, c, [], chain);
    if |chain| > 1 { OuterFlagged(chain, m.chain, c.level); }
    if Compact(Ended(arity, r)) {
      TameChunk(body, c, chain);
      EndedTyped(arity, m, chain, c, sm);
    }
  }

  lemma OuterFlagged(chain: Chain, after: Chain, level: nat)
    requires GrowsOut(chain, after, level) && |chain| > 1
    ensures Lexical.Grows(chain[1..], after[1..])
  {
    forall d | 0 <= d < |chain[1..]|
      ensures Lexical.LevelGrows(chain[1..][d], after[1..][d])
    {
      assert Lexical.LevelGrows(chain[d + 1], after[d + 1]);
    }
  }

  lemma EndedTyped(arity: nat, m: Made, chain: Chain, c: Spot, sm: seq<Slots>)
    requires CarriesOn(m, [], chain, c, sm) && c.loop.NoLoop? && chain[0].locals != []
    requires SlotsOf(chain[0].locals) == Slots(arity + 1, {}) && Compact(Ended(arity, m))
    ensures Disciplined(Ended(arity, m))
  {
    hide Typed, SlotsOf, Disciplined, Compact;
    var h, k := |m.chain[0].locals|, SlotsOf(m.chain[0].locals).held;
    var s1 := GetTyped([OP_NIL], m.pool, h, k);
    var s2 := ReturnTyped(m.pool, h, k);
    TypedSize([OP_NIL], m.pool, s1, map[], h);
    var s3 := Then([OP_NIL], s1, [OP_RETURN], s2, m.pool, h);
    var ends := [OP_NIL] + [OP_RETURN];
    TypedSize(ends, m.pool, s3, map[], h);
    Lower(ends, m.pool, s3, map[], h, m.pool, 1);
    TypedSize(m.code, m.pool, sm, map[], 1);
    SelfInto(s3[0]);
    JoinStraight(m.code, sm, map[], ends, s3, map[], m.pool, 1, map[]);
    var st, f := Joined(sm, s3), Ended(arity, m);
    assert f.code == m.code + ends;
    if m.code == [] { IntoOn(Slots(arity + 1, {}), sm[0], s3[0]); }
    assert TypedFunction(f, st);
    AllTyped(f);
  }

  lemma AllTyped(f: Function)
    requires PoolTyped(f.pool) && Compact(f) && exists st :: TypedFunction(f, st)
    ensures Disciplined(f)
  {
    hide TypedFunction;
  }

  /** A closure is pushed, and captures flagged locals. */
  lemma ClosureTyped(arity: nat, inner: Made, pool: seq<Constant>, chain: Chain, h: nat) returns (st: seq<Slots>)
    requires inner.Made? && Lexical.WellLinked(inner.chain) && |inner.chain| > 1
    requires Lexical.Grows(chain, inner.chain[1..]) && MakeClosure(arity, inner, pool).Made?
    requires Compact(Ended(arity, inner)) ==> Disciplined(Ended(arity, inner))
    requires h <= |chain[0].locals| <= h + 1
    requires forall i :: h <= i < |chain[0].locals| ==> !chain[0].locals[i].captured
    ensures Value(MakeClosure(arity, inner, pool), pool, chain, st, h)
  {
    hide Typed, Compact, Disciplined, FirstSame, Lexical.LevelOk, Lexical.Grows, Allowed, After, InstrLen;
    var f, upvalues := Ended(arity, inner), inner.chain[0].upvalues;
    var m := MakeClosure(arity, inner, pool);
    NeverSame(pool, f, 0);
    assert m.code == [OP_CLOSURE, |pool|] + ClosureCode.Operands(upvalues);
    assert m.pool == pool + [Compiled(f)] && m.chain == inner.chain[1..];
    GrowsFlagged(chain, m.chain);
    assert m.chain[0] == inner.chain[1];
    var a, b := chain[0].locals, m.chain[0].locals;
    var s := Slots(h, Marked(a));
    CapturesAllowed(m.code, inner.chain[0], inner.chain[1], s, h);
    ClosureLen(m.code, m.pool, f);
    st := InsTyped(m.code, m.pool, s, h);
    SelfInto(s);
    MoreTyped(pool, f);
    assert Marked(a) <= Marked(b);
  }

  lemma ClosureLen(code: seq<byte>, pool: seq<Constant>, f: Function)
    requires |code| == 2 + 2 * f.upvalues && code[0] == OP_CLOSURE && code[1] < |pool| && pool[code[1]] == Compiled(f)
    ensures Whole(code, pool, 0) && InstrLen(code, pool, 0) == |code|
  {
  }

  lemma MoreTyped(pool: seq<Constant>, f: Function)
    requires Compact(f) ==> Disciplined(f)
    ensures PoolTyped(pool) ==> PoolTyped(pool + [Compiled(f)])
  {
    hide Compact, Disciplined;
  }

  /** What a function captures of the one around it are flagged locals. */
  lemma CapturesAllowed(code: seq<byte>, inner: Lexical.Level, outer: Lexical.Level, s: Slots, h: nat)
    requires ClosureCode.InRange(inner.upvalues) && |code| == 2 + 2 * |inner.upvalues| && code[0] == OP_CLOSURE
    requires code[2..] == ClosureCode.Operands(inner.upvalues) && Lexical.EntriesOk(inner, outer)
    requires s.height == h && Bounded(s) && |outer.locals| <= h + 1
    ensures Allowed(code, s, h) && After(code, s).height == h + 1
    ensures After(code, s).held <= s.held + Marked(outer.locals)
  {
    forall k | 0 <= k < |code| && 2 * k + 3 < |code| && CapturesSlot(code, k)
      ensures 0 <= SlotOf(code, k) <= h && SlotOf(code, k) in Marked(outer.locals)
    {
      OneAllowed(code, inner, outer, k);
    }
  }

  lemma OneAllowed(code: seq<byte>, inner: Lexical.Level, outer: Lexical.Level, k: nat)
    requires ClosureCode.InRange(inner.upvalues) && |code| == 2 + 2 * |inner.upvalues|
    requires code[2..] == ClosureCode.Operands(inner.upvalues) && Lexical.EntriesOk(inner, outer)
    requires 2 * k + 3 < |code| && CapturesSlot(code, k)
    ensures 0 <= SlotOf(code, k) < |outer.locals| && outer.locals[SlotOf(code, k)].captured
  {
    assert code[2..][2 * k] == code[2 * k + 2] && code[2..][2 * k + 1] == code[2 * k + 3];
    assert Lexical.EntryOk(inner.upvalues[k], outer);
  }

  /** Every script that compiles, with functions at any depth, whose loops are tame, whose chunks have less than 65535
      bytes and in which no `continue` leaves a captured local: the chunk of the script and of every function in it has
      stack types. */
  lemma ScriptTyped(ds: seq<Item>)
    requires MakeScript(ds).Accepted? && Functions.Tame(ds) && Compact(MakeScript(ds).f)
    requires AllClose(ds, TOP, [], SCRIPT)
    ensures Disciplined(MakeScript(ds).f)
  {
    hide LayItems, ItemsTame, ItemsOutline, AllClose, Ready, Disciplined, Compact;
    ScriptReady();
    ScriptScoped();
    ChunkTyped(0, ds, TOP, SCRIPT);
  }

  lemma ScriptScoped()
    ensures Scoped(SCRIPT[0].locals, TOP.level) && SlotsOf(SCRIPT[0].locals) == Slots(1, {})
  {
    assert Marked(SCRIPT[0].locals) == {};
  }

  lemma ParametersScoped(params: seq<Ident>, chain: Chain)
    ensures Scoped(Enter(params, chain)[0].locals, BODY.level) && InScope(BODY)
    ensures SlotsOf(Enter(params, chain)[0].locals) == Slots(|params| + 1, {})
  {
    assert Marked(Parameters(params)) == {};
  }
}
