/** Every script that keeps the rules of names compiles, as long as no limit of the instruction set can be met:
    constants and slots have one byte, distances two. */
module Acceptance {
  import opened Values
  import opened Bytecode
  import opened Functions
  import opened Naming
  import ClosureCode
  import Codegen
  import Discipline
  import ExprTypes
  import Growth
  import Lexical
  import SoundCode
  import Syntax

  /** Up to so many parts of a script no limit is met. */
  const PARTS := 250
  const BYTES := 260

  // ----- how many parts a tree has -----

  function ExprSize(e: Expr): (r: nat)
    ensures r >= 1
    decreases e, 1
  {
    match e
    case Literal(_) => 1
    case Variable(_) => 1
    case Assign(_, rhs) => 1 + ExprSize(rhs)
    case Unary(_, a) => 1 + ExprSize(a)
    case Binary(_, a, b) => 1 + ExprSize(a) + ExprSize(b)
    case Conj(a, b) => 1 + ExprSize(a) + ExprSize(b)
    case Disj(a, b) => 1 + ExprSize(a) + ExprSize(b)
    case Call(f, args) => 1 + ExprSize(f) + ArgsSize(args)
  }

  function ArgsSize(args: seq<Expr>): (r: nat)
    ensures r >= |args|
    decreases args, 0
  {
    if args == [] then 0 else ArgsSize(args[..|args| - 1]) + ExprSize(args[|args| - 1])
  }

  function InitSize(init: Option<Expr>): (r: nat)
    ensures r >= 1
  {
    if init.None? then 1 else ExprSize(init.value)
  }

  function StmtSize(s: Statement): (r: nat)
    ensures r >= 1
    decreases s, 1
  {
    match s
    case Do(e) => 1 + ExprSize(e)
    case Print(e) => 1 + ExprSize(e)
    case Block(items) => 1 + ItemsSize(items)
    case If(e, t, f) => 1 + ExprSize(e) + StmtSize(t) + if f.None? then 0 else StmtSize(f.value)
    case While(e, b) => 1 + ExprSize(e) + StmtSize(b)
    case Continue => 1
    case Return(value) => 1 + InitSize(value)
  }

  function ItemSize(d: Item): (r: nat)
    ensures r >= 1
    decreases d, 2
  {
    match d
    case Stat(s) => StmtSize(s)
    case Var(_, init) => 1 + InitSize(init)
    case Fun(_, params, body) => 3 + |params| + ItemsSize(body)
  }

  function ItemsSize(ds: seq<Item>): nat
    decreases ds, 0
  {
    if ds == [] then 0 else ItemsSize(ds[..|ds| - 1]) + ItemSize(ds[|ds| - 1])
  }

  // ----- room for more, and what a piece of code takes of it -----

  ghost predicate Room(pool: seq<Constant>, chain: Chain, n: nat) {
    && |pool| + n <= PARTS && |chain[0].locals| + n <= PARTS
    && forall d :: 0 <= d < |chain| ==> |chain[d].upvalues| + n <= PARTS
  }

  ghost predicate Takes(pool: seq<Constant>, chain: Chain, m: Made, n: nat) {
    && m.Made? && |m.code| <= BYTES * n && |m.pool| <= |pool| + n && |m.chain| == |chain|
    && |m.chain[0].locals| <= |chain[0].locals| + n
    && forall d :: 0 <= d < |chain| ==> |m.chain[d].upvalues| <= |chain[d].upvalues| + n
  }

  lemma RoomLeft(pool: seq<Constant>, chain: Chain, m: Made, a: nat, b: nat)
    requires Room(pool, chain, a + b) && Takes(pool, chain, m, a)
    ensures Room(m.pool, m.chain, b)
  {
  }

  lemma RoomLess(pool: seq<Constant>, chain: Chain, a: nat, b: nat)
    requires Room(pool, chain, a) && b <= a
    ensures Room(pool, chain, b)
  {
  }

  /** Two pieces, with a little code of their own. */
  lemma TakesBoth(pool: seq<Constant>, chain: Chain, m: Made, a: nat, n: Made, b: nat, code: seq<byte>, c: nat)
    requires Takes(pool, chain, m, a) && Takes(m.pool, m.chain, n, b) && |code| <= |m.code| + |n.code| + BYTES * c
    ensures Takes(pool, chain, Made(code, n.pool, n.chain), a + b + c)
  {
  }

  lemma TakesMore(pool: seq<Constant>, chain: Chain, m: Made, a: nat, code: seq<byte>, c: nat)
    requires Takes(pool, chain, m, a) && |code| <= |m.code| + BYTES * c
    ensures Takes(pool, chain, Made(code, m.pool, m.chain), a + c)
  {
  }

  // ----- names -----

  /** Only a local called `p` may still be without its value, in the innermost function. */
  ghost predicate Readable(chain: Chain, p: Option<string>) {
    && (forall i :: 0 <= i < |chain[0].locals| && chain[0].locals[i].level == -1 ==> p == Some(chain[0].locals[i].name))
    && forall d :: 1 <= d < |chain| ==> Settled(chain[d])
  }

  ghost predicate Settled(l: Lexical.Level) {
    forall i :: 0 <= i < |l.locals| ==> l.locals[i].level != -1
  }

  predicate Avoids(e: Expr, p: Option<string>) {
    p.Some? ==> !Mentions(e, p.value)
  }

  lemma ReadableGrows(chain: Chain, after: Chain, p: Option<string>)
    requires Readable(chain, p) && Lexical.Grows(chain, after)
    ensures Readable(after, p)
  {
    assert Lexical.LevelGrows(chain[0], after[0]);
    forall d | 1 <= d < |after|
      ensures Settled(after[d])
    {
      assert Lexical.LevelGrows(chain[d], after[d]) && Settled(chain[d]);
    }
  }

  /** Functions around have no local without a value. */
  lemma {:induction false} NeverEarly(chain: Chain, x: string)
    requires forall d :: 1 <= d < |chain| ==> Settled(chain[d])
    ensures !Lexical.ResolveUp(chain, x).early
    decreases |chain|
  {
    if |chain| > 1 && Lexical.Newest(chain[1].locals, x) < 0 {
      forall d | 1 <= d < |chain[1..]|
        ensures Settled(chain[1..][d])
      {
        assert chain[1..][d] == chain[d + 1];
      }
      NeverEarly(chain[1..], x);
    } else if |chain| > 1 {
      assert Settled(chain[1]);
    }
  }

  /** A lookup gives every function at most one more upvalue. */
  lemma {:induction false} OneUpvalue(chain: Chain, x: string, d: nat)
    requires d < |chain|
    ensures |Lexical.ResolveUp(chain, x).chain[d].upvalues| <= |chain[d].upvalues| + 1
    decreases |chain|
  {
    if |chain| > 1 && Lexical.Newest(chain[1].locals, x) < 0 && d > 0 {
      OneUpvalue(chain[1..], x, d - 1);
    }
  }

  lemma NotFull(pool: seq<Constant>, chain: Chain, x: string)
    requires Room(pool, chain, 1)
    ensures !Lexical.ResolveUp(chain, x).full
  {
    if Lexical.ResolveUp(chain, x).full { Lexical.FullAt256(chain, x); }
  }

  lemma ConstantMakes(op: byte, k: Constant, pool: seq<Constant>, chain: Chain)
    requires |pool| < PARTS
    ensures Takes(pool, chain, Functions.WithConstant(op, k, pool, chain), 1)
  {
  }

  lemma {:induction false} AccessMakes(ops: Ops, x: string, pool: seq<Constant>, chain: Chain, p: Option<string>)
    requires Lexical.WellLinked(chain) && Readable(chain, p) && p != Some(x) && Room(pool, chain, 1)
    ensures Takes(pool, chain, Access(ops, x, pool, chain), 1)
  {
    hide Lexical.WellLinked, Lexical.Grows, Functions.WithConstant, Lexical.ResolveUp;
    SoundCode.NoneTooLarge(chain, x);
    if Lexical.Newest(chain[0].locals, x) < 0 {
      NotFull(pool, chain, x);
      NeverEarly(chain, x);
      var u := Lexical.ResolveUp(chain, x);
      Lexical.LookupGrows(chain, x);
      SameLocals(chain, u.chain);
      forall d | 0 <= d < |chain|
        ensures |u.chain[d].upvalues| <= |chain[d].upvalues| + 1
      {
        OneUpvalue(chain, x, d);
      }
      ConstantMakes(ops.global, Plain(Str(x)), pool, u.chain);
      if u.index < 0 { ExprTypes.ConstantForm(ops.global, Plain(Str(x)), pool, u.chain); }
    }
  }

  lemma SameLocals(chain: Chain, after: Chain)
    requires Lexical.Grows(chain, after)
    ensures |after| == |chain| && |after[0].locals| == |chain[0].locals|
  {
    assert Lexical.LevelGrows(chain[0], after[0]);
  }

  // ----- expressions -----

  lemma LiteralMakes(v: Value, pool: seq<Constant>, chain: Chain)
    requires |pool| < PARTS
    ensures Takes(pool, chain, MakeLiteral(v, pool, chain), 1)
  {
  }

  lemma {:induction false} ExprMakes(e: Expr, pool: seq<Constant>, chain: Chain, p: Option<string>)
    requires SoundCode.Ready(pool, chain) && Readable(chain, p) && Avoids(e, p) && Room(pool, chain, ExprSize(e))
    ensures Takes(pool, chain, MakeExpr(e, pool, chain), ExprSize(e))
    decreases e, 1
  {
    hide SoundCode.PoolOk, Lexical.WellLinked, Access, Readable, Takes, Room, MakeLiteral, Codegen.BinaryCode,
      Codegen.UnaryCode;
    match e
    case Literal(v) => RoomPool(pool, chain, 1); LiteralMakes(v, pool, chain);
    case Variable(x) => AccessMakes(GET, x, pool, chain, p);
    case Assign(x, rhs) => AssignMakes(x, rhs, pool, chain, p);
    case Unary(op, a) =>
      RoomLess(pool, chain, ExprSize(e), ExprSize(a));
      ExprMakes(a, pool, chain, p);
      TakesFacts(pool, chain, MakeExpr(a, pool, chain), ExprSize(a));
      UnaryShort(op);
      TakesMore(pool, chain, MakeExpr(a, pool, chain), ExprSize(a), MakeExpr(e, pool, chain).code, 1);
    case Binary(op, a, b) =>
      PairMakes(a, b, pool, chain, p, ExprSize(e));
      BinaryShort(op);
      var m := MakeExpr(a, pool, chain);
      TakesBoth(pool, chain, m, ExprSize(a), MakeExpr(b, m.pool, m.chain), ExprSize(b), MakeExpr(e, pool, chain).code,
        1);
    case Conj(a, b) => ShortMakes(e, OP_JUMP_IF_FALSE, a, b, pool, chain, p);
    case Disj(a, b) => ShortMakes(e, OP_JUMP_IF_TRUE, a, b, pool, chain, p);
    case Call(f, args) => CallMakes(f, args, pool, chain, p);
  }

  lemma RoomPool(pool: seq<Constant>, chain: Chain, n: nat)
    requires Room(pool, chain, n) && n >= 1
    ensures |pool| < PARTS && n <= PARTS
  {
  }

  lemma TakesFacts(pool: seq<Constant>, chain: Chain, m: Made, n: nat)
    requires Takes(pool, chain, m, n)
    ensures m.Made? && |m.code| <= BYTES * n
  {
  }

  lemma UnaryShort(op: Syntax.UnOp)
    ensures |Codegen.UnaryCode(op)| == 1
  {
  }

  lemma BinaryShort(op: Syntax.BinOp)
    ensures 1 <= |Codegen.BinaryCode(op)| <= 2
  {
  }

  lemma {:induction false} AssignMakes(x: Ident, rhs: Expr, pool: seq<Constant>, chain: Chain, p: Option<string>)
    requires SoundCode.Ready(pool, chain) && Readable(chain, p) && Avoids(Syntax.Assign(x, rhs), p)
    requires Room(pool, chain, ExprSize(Syntax.Assign(x, rhs)))
    ensures Takes(pool, chain, MakeExpr(Syntax.Assign(x, rhs), pool, chain), ExprSize(Syntax.Assign(x, rhs)))
    decreases Syntax.Assign(x, rhs), 0
  {
    hide SoundCode.PoolOk, Lexical.WellLinked, Access, Readable, Takes, Room, Lexical.Grows;
    var a, n := Access(SET, x, pool, chain), ExprSize(rhs);
    RoomLess(pool, chain, 1 + n, 1);
    AccessMakes(SET, x, pool, chain, p);
    TakesFacts(pool, chain, a, 1);
    Growth.AccessWider(SET, x, pool, chain);
    Growth.AccessReady(SET, x, pool, chain);
    ReadableGrows(chain, a.chain, p);
    RoomLeft(pool, chain, a, 1, n);
    ExprMakes(rhs, a.pool, a.chain, p);
    var m := MakeExpr(rhs, a.pool, a.chain);
    TakesFacts(a.pool, a.chain, m, n);
    TakesBoth(pool, chain, a, 1, m, n, m.code + a.code, 0);
  }

  /** Two expressions, one after the other. */
  lemma {:induction false} PairMakes(a: Expr, b: Expr, pool: seq<Constant>, chain: Chain, p: Option<string>, n: nat)
    requires SoundCode.Ready(pool, chain) && Readable(chain, p) && Avoids(a, p) && Avoids(b, p)
    requires Room(pool, chain, n) && n == 1 + ExprSize(a) + ExprSize(b)
    ensures var m := MakeExpr(a, pool, chain);
      && m.Made? && Takes(pool, chain, m, ExprSize(a)) && Takes(m.pool, m.chain, MakeExpr(b, m.pool, m.chain),
        ExprSize(b))
      && |m.code| <= BYTES * ExprSize(a) && |MakeExpr(b, m.pool, m.chain).code| <= BYTES * ExprSize(b) && n <= PARTS
      && MakeExpr(b, m.pool, m.chain).Made?
    decreases if a < b then b else a, 2
  {
    hide SoundCode.Ready, MakeExpr, Readable, Takes, Room, Lexical.Grows, Avoids;
    RoomPool(pool, chain, n);
    RoomLess(pool, chain, n, ExprSize(a) + ExprSize(b));
    RoomLess(pool, chain, n, ExprSize(a));
    ExprMakes(a, pool, chain, p);
    var m := MakeExpr(a, pool, chain);
    TakesFacts(pool, chain, m, ExprSize(a));
    Growth.ExprGrows(a, pool, chain);
    ExprTypes.ExprReady(a, pool, chain);
    ReadableGrows(chain, m.chain, p);
    RoomLeft(pool, chain, m, ExprSize(a), ExprSize(b));
    ExprMakes(b, m.pool, m.chain, p);
    TakesFacts(m.pool, m.chain, MakeExpr(b, m.pool, m.chain), ExprSize(b));
  }

  lemma {:induction false} ShortParts(e: Expr, jump: byte, a: Expr, b: Expr, pool: seq<Constant>, chain: Chain,
      p: Option<string>)
    requires (e == Syntax.Conj(a, b) && jump == OP_JUMP_IF_FALSE) || (e == Syntax.Disj(a, b) && jump == OP_JUMP_IF_TRUE)
    ensures MakeExpr(e, pool, chain) ==
      var m := MakeExpr(a, pool, chain);
      if !m.Made? then m else Short(jump, m.code, MakeExpr(b, m.pool, m.chain))
    ensures ExprSize(e) == 1 + ExprSize(a) + ExprSize(b) && (Avoids(e, p) ==> Avoids(a, p) && Avoids(b, p))
  {
    hide Short;
  }

  lemma ShortTakes(pool: seq<Constant>, chain: Chain, m: Made, a: nat, n: Made, b: nat, jump: byte)
    requires Takes(pool, chain, m, a) && m.Made? && Takes(m.pool, m.chain, n, b) && 1 + a + b <= PARTS
    ensures Takes(pool, chain, Short(jump, m.code, n), 1 + a + b)
  {
    TakesBoth(pool, chain, m, a, n, b, Short(jump, m.code, n).code, 1);
  }

  lemma {:induction false} ShortMakes(e: Expr, jump: byte, a: Expr, b: Expr, pool: seq<Constant>, chain: Chain,
      p: Option<string>)
    requires (e == Syntax.Conj(a, b) && jump == OP_JUMP_IF_FALSE) || (e == Syntax.Disj(a, b) && jump == OP_JUMP_IF_TRUE)
    requires SoundCode.Ready(pool, chain) && Readable(chain, p) && Avoids(e, p) && Room(pool, chain, ExprSize(e))
    ensures Takes(pool, chain, MakeExpr(e, pool, chain), ExprSize(e))
    decreases e, 0
  {
    hide SoundCode.Ready, Readable, Takes, Room, MakeExpr, ExprSize, Avoids, Short;
    ShortParts(e, jump, a, b, pool, chain, p);
    PairMakes(a, b, pool, chain, p, ExprSize(e));
    var m := MakeExpr(a, pool, chain);
    ShortTakes(pool, chain, m, ExprSize(a), MakeExpr(b, m.pool, m.chain), ExprSize(b), jump);
  }

  lemma {:induction false} CallMakes(f: Expr, args: seq<Expr>, pool: seq<Constant>, chain: Chain, p: Option<string>)
    requires SoundCode.Ready(pool, chain) && Readable(chain, p) && Avoids(Syntax.Call(f, args), p)
    requires Room(pool, chain, ExprSize(Syntax.Call(f, args)))
    ensures Takes(pool, chain, MakeExpr(Syntax.Call(f, args), pool, chain), ExprSize(Syntax.Call(f, args)))
    decreases Syntax.Call(f, args), 0
  {
    hide SoundCode.Ready, Readable, Takes, Room, Lexical.Grows;
    var a, b := ExprSize(f), ArgsSize(args);
    RoomPool(pool, chain, 1 + a + b);
    RoomLess(pool, chain, 1 + a + b, a + b);
    RoomLess(pool, chain, a + b, a);
    ExprMakes(f, pool, chain, p);
    var m := MakeExpr(f, pool, chain);
    TakesFacts(pool, chain, m, a);
    Growth.ExprGrows(f, pool, chain);
    ExprTypes.ExprReady(f, pool, chain);
    ReadableGrows(chain, m.chain, p);
    RoomLeft(pool, chain, m, a, b);
    ArgsMake(args, m.pool, m.chain, p);
    var n := MakeArgs(args, m.pool, m.chain);
    TakesFacts(m.pool, m.chain, n, b);
    TakesBoth(pool, chain, m, a, n, b, m.code + n.code + [OP_CALL, |args|], 1);
  }

  lemma {:induction false} ArgsMake(args: seq<Expr>, pool: seq<Constant>, chain: Chain, p: Option<string>)
    requires SoundCode.Ready(pool, chain) && Readable(chain, p) && forall i :: 0 <= i < |args| ==> Avoids(args[i], p)
    requires Room(pool, chain, ArgsSize(args))
    ensures Takes(pool, chain, MakeArgs(args, pool, chain), ArgsSize(args))
    decreases args, 0
  {
    hide SoundCode.Ready, Readable, Takes, Room, Lexical.Grows, MakeExpr, Avoids;
    if args == [] {
      NothingTaken(pool, chain);
    } else {
      var init, last := args[..|args| - 1], args[|args| - 1];
      var a, b := ArgsSize(init), ExprSize(last);
      RoomLess(pool, chain, a + b, a);
      ArgsMake(init, pool, chain, p);
      var m := MakeArgs(init, pool, chain);
      TakesFacts(pool, chain, m, a);
      ArgsGrowHere(init, pool, chain);
      ExprTypes.ArgsReady(init, pool, chain);
      ReadableGrows(chain, m.chain, p);
      RoomLeft(pool, chain, m, a, b);
      ExprMakes(last, m.pool, m.chain, p);
      var n := MakeExpr(last, m.pool, m.chain);
      TakesFacts(m.pool, m.chain, n, b);
      TakesBoth(pool, chain, m, a, n, b, m.code + n.code, 0);
    }
  }

  lemma ArgsGrowHere(args: seq<Expr>, pool: seq<Constant>, chain: Chain)
    requires SoundCode.Ready(pool, chain) && MakeArgs(args, pool, chain).Made?
    ensures Lexical.Grows(chain, MakeArgs(args, pool, chain).chain)
  {
    hide SoundCode.Ready, MakeArgs;
    Growth.ArgsWider(args, pool, chain);
  }

  lemma NothingTaken(pool: seq<Constant>, chain: Chain)
    ensures Takes(pool, chain, Made([], pool, chain), 0)
  {
  }

  // ----- statements -----

  /** The top of the loop around is near enough for `n` more parts. */
  predicate Near(c: Spot, n: nat) {
    c.loop.InLoop? ==> c.loop.distance + BYTES * n <= BYTES * PARTS
  }

  lemma NearOn(c: Spot, k: nat, a: nat, b: nat)
    requires Near(c, a + b) && k <= BYTES * a
    ensures Near(c.Past(k), b) && c.Past(k).loop.InLoop? == c.loop.InLoop? && c.Past(k).level == c.level
  {
  }

  /** No local is without its value, in any function. */
  lemma AllSettled(chain: Chain, level: nat)
    requires Discipline.Scoped(chain[0].locals, level) && forall d :: 1 <= d < |chain| ==> Settled(chain[d])
    ensures Readable(chain, None)
  {
  }

  ghost predicate OuterSettled(chain: Chain) {
    forall d :: 1 <= d < |chain| ==> Settled(chain[d])
  }

  lemma OuterOn(chain: Chain, after: Chain)
    requires OuterSettled(chain) && Lexical.Grows(chain, after)
    ensures OuterSettled(after)
  {
    forall d | 1 <= d < |after|
      ensures Settled(after[d])
    {
      assert Lexical.LevelGrows(chain[d], after[d]) && Settled(chain[d]);
    }
  }

  lemma OuterOut(chain: Chain, after: Chain, level: nat)
    requires OuterSettled(chain) && Discipline.GrowsOut(chain, after, level)
    ensures OuterSettled(after)
  {
    forall d | 1 <= d < |after|
      ensures Settled(after[d])
    {
      assert Lexical.LevelGrows(chain[d], after[d]) && Settled(chain[d]);
    }
  }

  /** Where a statement or declaration can be compiled: what has been compiled before it is in order, and there
      is room. */
  ghost predicate Fine(c: Spot, pool: seq<Constant>, chain: Chain, n: nat) {
    && SoundCode.Ready(pool, chain) && Discipline.Scoped(chain[0].locals, c.level) && OuterSettled(chain)
    && Room(pool, chain, n) && Near(c, n)
  }

  lemma FineLess(c: Spot, pool: seq<Constant>, chain: Chain, a: nat, b: nat)
    requires Fine(c, pool, chain, a) && b <= a
    ensures Fine(c, pool, chain, b)
  {
    hide SoundCode.Ready, OuterSettled;
  }

  /** Behind a piece of code there is still room for the rest. */
  lemma FineOn(c: Spot, pool: seq<Constant>, chain: Chain, m: Made, k: nat, a: nat, b: nat)
    requires Fine(c, pool, chain, a + b) && Takes(pool, chain, m, a) && k <= BYTES * a
    requires SoundCode.Ready(m.pool, m.chain) && Lexical.Grows(chain, m.chain)
    ensures Fine(c.Past(k), m.pool, m.chain, b)
    ensures c.Past(k).loop.InLoop? == c.loop.InLoop? && c.Past(k).level == c.level && |m.chain| == |chain|
  {
    hide SoundCode.Ready, OuterSettled, Lexical.Grows, Room, Near;
    RoomLeft(pool, chain, m, a, b);
    Growth.GrowsScoped(chain, m.chain, c.level);
    OuterOn(chain, m.chain);
    NearOn(c, k, a, b);
  }

  /** The expression of a statement. */
  lemma {:induction false} FirstMakes(e: Expr, c: Spot, pool: seq<Constant>, chain: Chain, n: nat)
    requires Fine(c, pool, chain, n) && ExprSize(e) <= n
    ensures var m := MakeExpr(e, pool, chain);
      && Takes(pool, chain, m, ExprSize(e)) && m.Made? && |m.code| <= BYTES * ExprSize(e)
      && SoundCode.Ready(m.pool, m.chain) && Lexical.Grows(chain, m.chain)
  {
    hide SoundCode.Ready, Room, Near, MakeExpr, Takes, Lexical.Grows, Readable;
    AllSettled(chain, c.level);
    RoomLess(pool, chain, n, ExprSize(e));
    ExprMakes(e, pool, chain, None);
    TakesFacts(pool, chain, MakeExpr(e, pool, chain), ExprSize(e));
    Growth.ExprGrows(e, pool, chain);
    ExprTypes.ExprReady(e, pool, chain);
  }

  lemma FineSize(c: Spot, pool: seq<Constant>, chain: Chain, n: nat)
    requires Fine(c, pool, chain, n)
    ensures n <= PARTS && Discipline.Scoped(chain[0].locals, c.level) && SoundCode.Ready(pool, chain)
    ensures |chain[0].locals| + n <= PARTS && |pool| + n <= PARTS
    ensures c.loop.InLoop? ==> c.loop.distance + BYTES * n <= BYTES * PARTS
  {
    hide SoundCode.Ready, OuterSettled;
  }

  lemma {:induction false} StmtMakes(s: Statement, c: Spot, pool: seq<Constant>, chain: Chain)
    requires FunctionsTame(s) && StmtNamed(s, c.loop.InLoop?, |chain| > 1) && Fine(c, pool, chain, StmtSize(s))
    ensures Takes(pool, chain, MakeStmt(s, c, pool, chain), StmtSize(s))
    decreases s, 1
  {
    hide SoundCode.Ready, MakeExpr, Fine, Takes, MakeItems, EndScope, Codegen.Pops, Codegen.JumpCode, Lexical.Grows;
    var n := StmtSize(s);
    match s
    case Do(e) =>
      FirstMakes(e, c, pool, chain, n);
      TakesMore(pool, chain, MakeExpr(e, pool, chain), ExprSize(e), MakeStmt(s, c, pool, chain).code, 1);
    case Print(e) =>
      FirstMakes(e, c, pool, chain, n);
      TakesMore(pool, chain, MakeExpr(e, pool, chain), ExprSize(e), MakeStmt(s, c, pool, chain).code, 1);
    case Block(items) => BlockMakes(items, c, pool, chain);
    case If(e, t, f) => IfMakes(e, t, f, c, pool, chain);
    case While(e, b) => WhileMakes(e, b, c, pool, chain);
    case Continue => ContinueMakes(c, pool, chain);
    case Return(value) =>
      if value.None? {
        OwnCode(pool, chain, [OP_NIL, OP_RETURN], n);
      } else {
        FirstMakes(value.value, c, pool, chain, n);
        TakesMore(pool, chain, MakeExpr(value.value, pool, chain), ExprSize(value.value),
          MakeStmt(s, c, pool, chain).code, 1);
      }
  }

  lemma OwnCode(pool: seq<Constant>, chain: Chain, code: seq<byte>, n: nat)
    requires |code| <= BYTES * n
    ensures Takes(pool, chain, Made(code, pool, chain), n)
  {
  }

  lemma {:induction false} ContinueMakes(c: Spot, pool: seq<Constant>, chain: Chain)
    requires c.loop.InLoop? && Fine(c, pool, chain, 1)
    ensures Takes(pool, chain, MakeStmt(Statement.Continue, c, pool, chain), 1)
  {
    hide SoundCode.Ready, Fine, Takes, Codegen.JumpCode;
    FineSize(c, pool, chain, 1);
    var n := Deeper(chain[0].locals, c.loop.level);
    OwnCode(pool, chain, Codegen.Pops(n) + Codegen.JumpCode(OP_LOOP, c.loop.distance + n + 3), 1);
  }

  lemma {:induction false} BlockMakes(items: seq<Item>, c: Spot, pool: seq<Constant>, chain: Chain)
    requires ItemsTame(items) && ItemsNamed(items, {}, false, c.loop.InLoop?, |chain| > 1)
    requires Fine(c, pool, chain, 1 + ItemsSize(items))
    ensures Takes(pool, chain, MakeStmt(Statement.Block(items), c, pool, chain), 1 + ItemsSize(items))
    decreases Statement.Block(items), 0
  {
    hide SoundCode.Ready, Fine, Takes, MakeItems, EndScope, Discipline.GrowsOut, Discipline.Scoped, Shows,
      Lexical.Grows, ItemsNamed;
    var inner, n := c.(level := c.level + 1), ItemsSize(items);
    FineSize(c, pool, chain, 1 + n);
    FineLess(c, pool, chain, 1 + n, n);
    FineDeeper(c, pool, chain, n);
    ShowsNothing(chain[0].locals, c.level);
    ItemsMake(items, inner, pool, chain, {});
    var m := MakeItems(items, inner, pool, chain);
    TakesFacts(pool, chain, m, n);
    Growth.DeeperScoped(chain[0].locals, c.level);
    Growth.ItemsGrow(items, inner, pool, chain);
    Growth.BlockEnds(chain, m, c);
    TakesEnd(pool, chain, m, n, c.level);
  }

  lemma FineDeeper(c: Spot, pool: seq<Constant>, chain: Chain, n: nat)
    requires Fine(c, pool, chain, n)
    ensures Fine(c.(level := c.level + 1), pool, chain, n)
  {
    hide SoundCode.Ready, OuterSettled, Room;
  }

  /** The end of a scope takes one byte for each of its locals. */
  lemma TakesEnd(pool: seq<Constant>, chain: Chain, m: Made, n: nat, level: nat)
    requires Takes(pool, chain, m, n) && |chain[0].locals| + 1 + n <= PARTS
    requires EndScope(m, level).Made? && Lexical.Grows(chain, EndScope(m, level).chain)
    ensures Takes(pool, chain, EndScope(m, level), 1 + n)
  {
    SameLocals(chain, EndScope(m, level).chain);
    hide Lexical.Grows;
  }

  /** The second branch of a conditional. */
  lemma {:induction false} ElseMakes(f: Statement, c: Spot, pool: seq<Constant>, chain: Chain, m: Made, n: Made, a: nat,
      b: nat)
    requires FunctionsTame(f) && StmtNamed(f, c.loop.InLoop?, |chain| > 1) && m.Made? && n.Made? && a >= 1
    requires Fine(c, pool, chain, a + b + StmtSize(f))
    requires |m.code| <= BYTES * (a - 1) && |n.code| <= BYTES * b
    requires Takes(pool, chain, Made(m.code + n.code, n.pool, n.chain), a - 1 + b)
    requires Takes(pool, chain, Made(m.code + n.code, n.pool, n.chain), a + b)
    requires SoundCode.Ready(n.pool, n.chain) && Lexical.Grows(chain, n.chain)
    ensures var k := MakeStmt(f, c.Past(|m.code| + 4 + |n.code| + 4), n.pool, n.chain);
      && k.Made? && |k.code| <= BYTES * StmtSize(f) && a + b + StmtSize(f) <= PARTS
      && Takes(pool, chain, Made(Codegen.IfCode(m.code, n.code, k.code), k.pool, k.chain), a + b + StmtSize(f))
    decreases f, 2
  {
    hide SoundCode.Ready, MakeStmt, Fine, Takes, Lexical.Grows, Codegen.JumpCode, StmtNamed, FunctionsTame, StmtSize;
    var d, len := StmtSize(f), |m.code| + 4 + |n.code| + 4;
    FineSize(c, pool, chain, a + b + d);
    FineOn(c, pool, chain, Made(m.code + n.code, n.pool, n.chain), len, a + b, d);
    StmtMakes(f, c.Past(len), n.pool, n.chain);
    var k := MakeStmt(f, c.Past(len), n.pool, n.chain);
    TakesFacts(n.pool, n.chain, k, d);
    TakesBoth(pool, chain, Made(m.code + n.code, n.pool, n.chain), a - 1 + b, k, d,
      Codegen.IfCode(m.code, n.code, k.code), 1);
  }

  lemma {:induction false} IfMakes(e: Expr, t: Statement, f: Option<Statement>, c: Spot, pool: seq<Constant>,
      chain: Chain)
    requires FunctionsTame(Statement.If(e, t, f)) && StmtNamed(Statement.If(e, t, f), c.loop.InLoop?, |chain| > 1)
    requires Fine(c, pool, chain, StmtSize(Statement.If(e, t, f)))
    ensures Takes(pool, chain, MakeStmt(Statement.If(e, t, f), c, pool, chain), StmtSize(Statement.If(e, t, f)))
    decreases Statement.If(e, t, f), 0
  {
    hide SoundCode.Ready, MakeExpr, MakeStmt, Fine, Takes, Lexical.Grows, Codegen.JumpCode;
    IfMade(e, t, f, c, pool, chain);
    var a, b, d := 1 + ExprSize(e), StmtSize(t), if f.None? then 0 else StmtSize(f.value);
    FineSize(c, pool, chain, a + b + d);
    FirstMakes(e, c, pool, chain, a + b + d);
    var m := MakeExpr(e, pool, chain);
    TakesMore(pool, chain, m, a - 1, m.code, 1);
    FineOn(c, pool, chain, m, |m.code| + 4, a, b + d);
    var past := c.Past(|m.code| + 4);
    FineLess(past, m.pool, m.chain, b + d, b);
    StmtMakes(t, past, m.pool, m.chain);
    var n := MakeStmt(t, past, m.pool, m.chain);
    TakesFacts(m.pool, m.chain, n, b);
    TakesBoth(pool, chain, m, a - 1, n, b, m.code + n.code, 0);
    FineSize(past, m.pool, m.chain, b + d);
    Growth.StmtGrows(t, past, m.pool, m.chain);
    Discipline.StmtReady(t, past, m.pool, m.chain);
    TakesMore(pool, chain, Made(m.code + n.code, n.pool, n.chain), a - 1 + b, m.code + n.code, 1);
    if f.Some? {
      ExprTypes.GrowsOn(chain, m.chain, n.chain);
      ElseMakes(f.value, c, pool, chain, m, n, a, b);
    } else {
      TakesMore(pool, chain, Made(m.code + n.code, n.pool, n.chain), a - 1 + b, Codegen.IfCode(m.code, n.code, []), 1);
    }
  }

  lemma {:induction false} WhileMakes(e: Expr, b: Statement, c: Spot, pool: seq<Constant>, chain: Chain)
    requires FunctionsTame(Statement.While(e, b)) && StmtNamed(Statement.While(e, b), c.loop.InLoop?, |chain| > 1)
    requires Fine(c, pool, chain, StmtSize(Statement.While(e, b)))
    ensures Takes(pool, chain, MakeStmt(Statement.While(e, b), c, pool, chain), StmtSize(Statement.While(e, b)))
    decreases Statement.While(e, b), 0
  {
    hide SoundCode.Ready, MakeExpr, MakeStmt, Fine, Takes, Lexical.Grows, Codegen.JumpCode;
    WhileMade(e, b, c, pool, chain);
    var a, n := 1 + ExprSize(e), StmtSize(b);
    FineSize(c, pool, chain, a + n);
    FirstMakes(e, c, pool, chain, a + n);
    var m := MakeExpr(e, pool, chain);
    TakesMore(pool, chain, m, a - 1, m.code, 1);
    FineOn(c, pool, chain, m, |m.code| + 4, a, n);
    FineInside(c, m.pool, m.chain, |m.code|, a, n);
    StmtMakes(b, c.Inside(|m.code|), m.pool, m.chain);
    var k := MakeStmt(b, c.Inside(|m.code|), m.pool, m.chain);
    TakesFacts(m.pool, m.chain, k, n);
    TakesBoth(pool, chain, m, a - 1, k, n, Codegen.WhileCode(m.code, k.code), 1);
  }

  lemma FineInside(c: Spot, pool: seq<Constant>, chain: Chain, len: nat, a: nat, n: nat)
    requires Fine(c.Past(len + 4), pool, chain, n) && len + 4 <= BYTES * a && a + n <= PARTS
    ensures Fine(c.Inside(len), pool, chain, n)
  {
    hide SoundCode.Ready, OuterSettled, Room;
    assert BYTES * a + BYTES * n <= BYTES * PARTS;
  }

  // ----- declarations -----

  /** Behind declarations. */
  lemma FineOut(c: Spot, pool: seq<Constant>, chain: Chain, m: Made, a: nat, b: nat)
    requires Fine(c, pool, chain, a + b) && Takes(pool, chain, m, a)
    requires SoundCode.Ready(m.pool, m.chain) && Discipline.GrowsOut(chain, m.chain, c.level)
    requires Discipline.Scoped(m.chain[0].locals, c.level)
    ensures Fine(c.Past(|m.code|), m.pool, m.chain, b)
    ensures c.Past(|m.code|).loop.InLoop? == c.loop.InLoop? && c.Past(|m.code|).level == c.level
  {
    hide SoundCode.Ready, OuterSettled, Discipline.GrowsOut, Room, Near;
    RoomLeft(pool, chain, m, a, b);
    OuterOut(chain, m.chain, c.level);
    NearOn(c, |m.code|, a, b);
  }

  lemma {:induction false} ItemsMake(ds: seq<Item>, c: Spot, pool: seq<Constant>, chain: Chain, here: set<string>)
    requires ItemsTame(ds) && ItemsNamed(ds, here, c.level == 0, c.loop.InLoop?, |chain| > 1)
    requires Fine(c, pool, chain, ItemsSize(ds)) && (c.level > 0 ==> Shows(chain[0].locals, c.level, here))
    ensures Takes(pool, chain, MakeItems(ds, c, pool, chain), ItemsSize(ds))
    decreases ds, 0
  {
    hide SoundCode.Ready, MakeItem, ItemTame, Fine, Takes, Discipline.GrowsOut, Discipline.Scoped, Shows, ItemNamed;
    if ds == [] {
      NothingTaken(pool, chain);
    } else {
      var init, last := ds[..|ds| - 1], ds[|ds| - 1];
      var a, b := ItemsSize(init), ItemSize(last);
      FineSize(c, pool, chain, a + b);
      FineLess(c, pool, chain, a + b, a);
      ItemsMake(init, c, pool, chain, here);
      var m := MakeItems(init, c, pool, chain);
      TakesFacts(pool, chain, m, a);
      ItemsAreNamed(init, c, pool, chain, here);
      Discipline.ItemsReady(init, c, pool, chain);
      Growth.ItemsGrow(init, c, pool, chain);
      FineOut(c, pool, chain, m, a, b);
      var past := c.Past(|m.code|);
      ItemMakes(last, past, m.pool, m.chain, here + Names(init));
      var n := MakeItem(last, past, m.pool, m.chain);
      TakesFacts(m.pool, m.chain, n, b);
      TakesBoth(pool, chain, m, a, n, b, m.code + n.code, 0);
    }
  }

  lemma {:induction false} ItemMakes(d: Item, c: Spot, pool: seq<Constant>, chain: Chain, here: set<string>)
    requires ItemTame(d) && ItemNamed(d, here, c.level == 0, c.loop.InLoop?, |chain| > 1)
    requires Fine(c, pool, chain, ItemSize(d)) && (c.level > 0 ==> Shows(chain[0].locals, c.level, here))
    ensures Takes(pool, chain, MakeItem(d, c, pool, chain), ItemSize(d))
    decreases d, 2
  {
    hide SoundCode.Ready, MakeStmt, MakeInit, MakeFunction, Fine, Takes, Shows, ItemsNamed, Distinct, ItemsTame,
      ItemsOutline;
    match d
    case Stat(s) => StmtMakes(s, c, pool, chain);
    case Var(x, init) =>
      if c.level == 0 {
        GlobalMakes(x, init, c, pool, chain);
      } else {
        LocalMakes(x, init, c, pool, chain, here);
      }
    case Fun(x, params, body) =>
      if c.level == 0 {
        GlobalFunMakes(x, params, body, c, pool, chain);
      } else {
        LocalFunMakes(x, params, body, c, pool, chain, here);
      }
  }

  lemma InitMakes(init: Option<Expr>, pool: seq<Constant>, chain: Chain, p: Option<string>)
    requires SoundCode.Ready(pool, chain) && Readable(chain, p) && (init.Some? ==> Avoids(init.value, p))
    requires Room(pool, chain, InitSize(init))
    ensures Takes(pool, chain, MakeInit(init, pool, chain), InitSize(init))
  {
    hide SoundCode.Ready, Readable, Room, Takes, MakeExpr, Avoids;
    if init.None? {
      OwnCode(pool, chain, [OP_NIL], 1);
    } else {
      ExprMakes(init.value, pool, chain, p);
    }
  }

  /** The name of a global, and what follows it. */
  lemma DefinitionMakes(x: Ident, c: Spot, pool: seq<Constant>, chain: Chain, n: nat)
    requires Fine(c, pool, chain, 1 + n)
    ensures var def := Functions.WithConstant(OP_DEFINE_GLOBAL, Plain(Str(x)), pool, chain);
      && Takes(pool, chain, def, 1) && def.Made? && |def.code| == 2 && def.chain == chain
      && SoundCode.Ready(def.pool, chain) && Room(def.pool, chain, n)
  {
    hide SoundCode.Ready, OuterSettled, Functions.WithConstant;
    ConstantMakes(OP_DEFINE_GLOBAL, Plain(Str(x)), pool, chain);
    ExprTypes.ConstantForm(OP_DEFINE_GLOBAL, Plain(Str(x)), pool, chain);
    Discipline.DefReady(x, pool, chain);
  }

  lemma {:induction false} GlobalMakes(x: Ident, init: Option<Expr>, c: Spot, pool: seq<Constant>, chain: Chain)
    requires c.level == 0 && Fine(c, pool, chain, 1 + InitSize(init))
    ensures Takes(pool, chain, MakeItem(Var(x, init), c, pool, chain), 1 + InitSize(init))
  {
    hide SoundCode.Ready, MakeInit, Takes, Room, Functions.WithConstant, Discipline.Scoped, Readable;
    DefinitionMakes(x, c, pool, chain, InitSize(init));
    var def := Functions.WithConstant(OP_DEFINE_GLOBAL, Plain(Str(x)), pool, chain);
    AllSettled(chain, c.level);
    InitMakes(init, def.pool, chain, None);
    var m := MakeInit(init, def.pool, chain);
    TakesFacts(def.pool, chain, m, InitSize(init));
    TakesBoth(pool, chain, def, 1, m, InitSize(init), m.code + def.code, 0);
  }

  lemma AddedReadable(chain: Chain, x: Ident, level: nat)
    requires Discipline.Scoped(chain[0].locals, level) && OuterSettled(chain)
    ensures Readable(AddLocal(chain, x, -1), Some(x))
  {
    var between := AddLocal(chain, x, -1);
    forall d | 1 <= d < |between|
      ensures Settled(between[d])
    {
      assert between[d] == chain[d] && Settled(chain[d]);
    }
  }

  lemma AddedRoom(pool: seq<Constant>, chain: Chain, x: Ident, level: int, n: nat)
    requires Room(pool, chain, 1 + n)
    ensures Room(pool, AddLocal(chain, x, level), n)
  {
  }

  /** A local takes a slot. */
  lemma AddedTakes(pool: seq<Constant>, chain: Chain, x: Ident, level: int, m: Made, n: nat, after: Made)
    requires Takes(pool, AddLocal(chain, x, level), m, n)
    requires after.Made? && after.code == m.code && after.pool == m.pool && |after.chain| == |m.chain|
    requires |after.chain[0].locals| == |m.chain[0].locals|
    requires forall d :: 0 <= d < |m.chain| ==> after.chain[d].upvalues == m.chain[d].upvalues
    ensures Takes(pool, chain, after, 1 + n)
  {
    assert forall d :: 0 <= d < |chain| ==> AddLocal(chain, x, level)[d].upvalues == chain[d].upvalues;
  }

  lemma {:induction false} LocalMakes(x: Ident, init: Option<Expr>, c: Spot, pool: seq<Constant>, chain: Chain,
      here: set<string>)
    requires c.level > 0 && Fine(c, pool, chain, 1 + InitSize(init)) && Shows(chain[0].locals, c.level, here)
    requires x !in here && (init.Some? ==> !Mentions(init.value, x))
    ensures Takes(pool, chain, MakeItem(Var(x, init), c, pool, chain), 1 + InitSize(init))
  {
    hide SoundCode.Ready, MakeInit, Takes, Readable, Discipline.Scoped, AddLocal, Mentions;
    var between, n := AddLocal(chain, x, -1), InitSize(init);
    FineSize(c, pool, chain, 1 + n);
    Growth.LocalAdded(pool, chain, x, -1);
    AddedReadable(chain, x, c.level);
    AddedRoom(pool, chain, x, -1, n);
    InitMakes(init, pool, between, Some(x));
    var m := MakeInit(init, pool, between);
    TakesFacts(pool, between, m, n);
    AddedTakes(pool, chain, x, -1, m, n, Functions.Finish(m, c.level));
  }

  // ----- functions -----

  lemma StartFine(params: seq<Ident>, pool: seq<Constant>, chain: Chain, n: nat)
    requires SoundCode.Ready(pool, chain) && |params| <= UINT8_MAX && OuterSettled(chain) && Settled(chain[0])
    requires Room(pool, chain, 2 + |params| + n)
    ensures Fine(BODY, [], Enter(params, chain), n)
  {
    hide Lexical.WellLinked, SoundCode.PoolOk;
    Growth.StartReady(pool, params, chain);
    Discipline.ParametersScoped(params, chain);
    var start := Enter(params, chain);
    forall d | 1 <= d < |start|
      ensures Settled(start[d])
    {
      assert start[d] == chain[d - 1] && Settled(chain[d - 1]);
    }
    forall d | 0 <= d < |start|
      ensures |start[d].upvalues| + n <= PARTS
    {
      if d > 0 { assert start[d] == chain[d - 1]; }
    }
  }

  /** What a function takes of the chunk and the functions around it. */
  lemma ClosureTakes(params: seq<Ident>, m: Made, pool: seq<Constant>, chain: Chain, n: nat)
    requires Takes([], Enter(params, chain), m, n) && |pool| < PARTS
    requires Discipline.GrowsOut(Enter(params, chain), m.chain, BODY.level)
    requires ClosureCode.InRange(m.chain[0].upvalues)
    ensures Takes(pool, chain, MakeClosure(|params|, m, pool), 1 + n)
  {
    var start, after := Enter(params, chain), m.chain[1..];
    assert forall d :: 0 <= d < |chain| ==> start[d + 1] == chain[d] && after[d] == m.chain[d + 1];
    assert Lexical.LevelGrows(start[1], m.chain[1]);
    ConstantMakes(OP_CLOSURE, Compiled(Ended(|params|, m)), pool, after);
  }

  lemma {:induction false} FunctionMakes(params: seq<Ident>, body: seq<Item>, pool: seq<Constant>, chain: Chain)
    requires SoundCode.Ready(pool, chain) && OuterSettled(chain) && Settled(chain[0])
    requires ItemsOutline(body).Tame() && ItemsTame(body) && Distinct(params)
    requires ItemsNamed(body, set p | p in params, false, false, true)
    requires Room(pool, chain, 2 + |params| + ItemsSize(body))
    ensures Takes(pool, chain, MakeFunction(params, body, pool, chain), 2 + |params| + ItemsSize(body))
    decreases body, 3
  {
    hide SoundCode.Ready, LayItems, MakeItems, ItemsTame, ItemsOutline, Discipline.Scoped, Discipline.GrowsOut, Shows,
      Fine, Takes, ItemsNamed, Distinct, OuterSettled, Settled, MakeClosure;
    var start, n := Enter(params, chain), ItemsSize(body);
    RoomPool(pool, chain, 2 + |params| + n);
    StartFine(params, pool, chain, n);
    ShowsParameters(params);
    ItemsMake(body, BODY, [], start, set p | p in params);
    var m := MakeItems(body, BODY, [], start);
    TakesFacts([], start, m, n);
    Growth.StartReady(pool, params, chain);
    Discipline.ParametersScoped(params, chain);
    Discipline.ItemsReady(body, BODY, [], start);
    Growth.ItemsGrow(body, BODY, [], start);
    SoundCode.TameChunk(body, BODY, start);
    LinkedFit(m.pool, m.chain);
    ClosureTakes(params, m, pool, chain, n);
    TakesMore(pool, chain, MakeClosure(|params|, m, pool), 1 + n, MakeClosure(|params|, m, pool).code, 1 + |params|);
  }

  lemma LinkedFit(pool: seq<Constant>, chain: Chain)
    requires SoundCode.Ready(pool, chain) && |chain| > 1
    ensures ClosureCode.InRange(chain[0].upvalues)
  {
    hide SoundCode.PoolOk, Lexical.WellLinked;
    ClosureCode.IndexesFit(chain);
  }

  lemma ScopedSettled(l: Lexical.Level, level: nat)
    requires Discipline.Scoped(l.locals, level)
    ensures Settled(l)
  {
  }

  lemma {:induction false} GlobalFunMakes(x: Ident, params: seq<Ident>, body: seq<Item>, c: Spot, pool: seq<Constant>,
      chain: Chain)
    requires c.level == 0 && Fine(c, pool, chain, 3 + |params| + ItemsSize(body))
    requires ItemsOutline(body).Tame() && ItemsTame(body) && Distinct(params)
    requires ItemsNamed(body, set p | p in params, false, false, true)
    ensures Takes(pool, chain, MakeItem(Fun(x, params, body), c, pool, chain), 3 + |params| + ItemsSize(body))
    decreases body, 4
  {
    hide SoundCode.Ready, MakeFunction, Takes, Room, Functions.WithConstant, Discipline.Scoped, ItemsTame, ItemsOutline,
      ItemsNamed, Distinct, OuterSettled, Settled;
    var n := 2 + |params| + ItemsSize(body);
    DefinitionMakes(x, c, pool, chain, n);
    var def := Functions.WithConstant(OP_DEFINE_GLOBAL, Plain(Str(x)), pool, chain);
    ScopedSettled(chain[0], c.level);
    FunctionMakes(params, body, def.pool, chain);
    var m := MakeFunction(params, body, def.pool, chain);
    TakesFacts(def.pool, chain, m, n);
    TakesBoth(pool, chain, def, 1, m, n, m.code + def.code, 0);
  }

  lemma AddedOuter(chain: Chain, x: Ident, level: nat)
    requires OuterSettled(chain) && Discipline.Scoped(chain[0].locals, level)
    ensures OuterSettled(AddLocal(chain, x, level)) && Settled(AddLocal(chain, x, level)[0])
  {
    var between := AddLocal(chain, x, level);
    forall d | 1 <= d < |between|
      ensures Settled(between[d])
    {
      assert between[d] == chain[d] && Settled(chain[d]);
    }
  }

  lemma {:induction false} LocalFunMakes(x: Ident, params: seq<Ident>, body: seq<Item>, c: Spot, pool: seq<Constant>,
      chain: Chain, here: set<string>)
    requires c.level > 0 && Fine(c, pool, chain, 3 + |params| + ItemsSize(body))
    requires Shows(chain[0].locals, c.level, here)
    requires ItemsOutline(body).Tame() && ItemsTame(body) && Distinct(params) && x !in here
    requires ItemsNamed(body, set p | p in params, false, false, true)
    ensures Takes(pool, chain, MakeItem(Fun(x, params, body), c, pool, chain), 3 + |params| + ItemsSize(body))
    decreases body, 4
  {
    hide SoundCode.Ready, MakeFunction, Takes, Discipline.Scoped, ItemsTame, ItemsOutline, AddLocal, ItemsNamed,
      Distinct, OuterSettled, Settled;
    var between, n := AddLocal(chain, x, c.level), 2 + |params| + ItemsSize(body);
    FineSize(c, pool, chain, 1 + n);
    Growth.LocalAdded(pool, chain, x, c.level);
    AddedOuter(chain, x, c.level);
    AddedRoom(pool, chain, x, c.level, n);
    FunctionMakes(params, body, pool, between);
    var m := MakeFunction(params, body, pool, between);
    TakesFacts(pool, between, m, n);
    AddedTakes(pool, chain, x, c.level, m, n, m);
  }

  // ----- scripts -----

  /** A script of fewer than 250 parts, whose loops and those of its functions are tame, compiles exactly if it keeps
      the rules of names. */
  lemma {:induction false} CompilesExactly(ds: seq<Item>)
    requires Functions.Tame(ds) && ItemsSize(ds) < 250
    ensures MakeScript(ds).Accepted? <==> Named(ds)
  {
    hide LayItems, MakeItems, ItemsTame, ItemsOutline, Discipline.Scoped, SoundCode.Ready, ItemsNamed, Takes;
    SoundCode.ScriptReady();
    Discipline.ScriptScoped();
    if Named(ds) {
      assert Fine(TOP, [], SCRIPT, ItemsSize(ds));
      ItemsMake(ds, TOP, [], SCRIPT, {});
      TakesFacts([], SCRIPT, MakeItems(ds, TOP, [], SCRIPT), ItemsSize(ds));
      SoundCode.ScriptChunk(ds);
    }
    if MakeScript(ds).Accepted? { ScriptIsNamed(ds); }
  }

  // ----- the limits themselves -----

  /** A chunk has at most 256 constants, equal ones counted once. */
  lemma ConstantLimit(op: byte, k: Constant, pool: seq<Constant>, chain: Chain)
    ensures Functions.WithConstant(op, k, pool, chain).Made? <==>
      |pool| < 256 || exists i :: 0 <= i < 256 && Same(pool[i], k)
  {
    FirstOnly(pool, k, 0);
  }

  lemma {:induction false} FirstOnly(pool: seq<Constant>, k: Constant, i: nat)
    requires i <= |pool|
    ensures forall j :: i <= j < FirstSame(pool, k, i) ==> !Same(pool[j], k)
    decreases |pool| - i
  {
    if i < |pool| && !Same(pool[i], k) { FirstOnly(pool, k, i + 1); }
  }

  /** A call has at most 255 arguments. */
  lemma ArgumentLimit(f: Expr, args: seq<Expr>, pool: seq<Constant>, chain: Chain)
    requires MakeExpr(f, pool, chain).Made?
    requires var m := MakeExpr(f, pool, chain); MakeArgs(args, m.pool, m.chain).Made?
    ensures MakeExpr(Syntax.Call(f, args), pool, chain).Made? <==> |args| <= 255
  {
    hide MakeArgs;
  }

  /** A function has at most 255 parameters. */
  lemma ParameterLimit(params: seq<Ident>, body: seq<Item>, pool: seq<Constant>, chain: Chain)
    requires |params| > 255
    ensures MakeFunction(params, body, pool, chain) == Functions.Failed
  {
  }

  /** A function has at most 256 slots, its own included, and a scope no second local of a name. */
  lemma LocalLimit(x: Ident, c: Spot, pool: seq<Constant>, chain: Chain)
    requires c.level > 0
    ensures MakeItem(Var(x, None), c, pool, chain).Made? <==>
      |chain[0].locals| < 256 && !Declared(chain[0].locals, x, c.level)
  {
  }

  /** A jump reaches at most 65535 bytes ahead. */
  lemma JumpLimit(jump: byte, left: seq<byte>, right: Made)
    requires right.Made?
    ensures Short(jump, left, right).Made? <==> |right.code| + 1 <= 65535
  {
  }
}
