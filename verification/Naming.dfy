/** The rules of names a script has to keep, stated on its tree; every script that compiles keeps them. */
module Naming {
  import opened Values
  import opened Bytecode
  import opened Functions
  import Discipline
  import ExprTypes
  import Growth
  import Lexical
  import SoundCode

  // ----- the rules -----

  /** The expression reads or writes the variable `x`. */
  predicate Mentions(e: Expr, x: string)
    decreases e
  {
    match e
    case Literal(_) => false
    case Variable(y) => x == y
    case Assign(y, rhs) => x == y || Mentions(rhs, x)
    case Unary(_, a) => Mentions(a, x)
    case Binary(_, a, b) => Mentions(a, x) || Mentions(b, x)
    case Conj(a, b) => Mentions(a, x) || Mentions(b, x)
    case Disj(a, b) => Mentions(a, x) || Mentions(b, x)
    case Call(f, args) => Mentions(f, x) || exists i :: 0 <= i < |args| && Mentions(args[i], x)
  }

  /** The names a list of declarations declares in its own scope. */
  function Names(ds: seq<Item>): set<string> {
    if ds == [] then {} else Names(ds[..|ds| - 1]) + Adds(ds[|ds| - 1])
  }

  function Adds(d: Item): set<string> {
    match d
    case Var(x, _) => {x}
    case Fun(x, _, _) => {x}
    case Stat(_) => {}
  }

  /** `continue` only in a loop of the same function, `return` only in a function. */
  predicate StmtNamed(s: Statement, loop: bool, inner: bool)
    decreases s, 1
  {
    match s
    case Block(items) => ItemsNamed(items, {}, false, loop, inner)
    case If(_, t, f) => StmtNamed(t, loop, inner) && (f.Some? ==> StmtNamed(f.value, loop, inner))
    case While(_, b) => StmtNamed(b, true, inner)
    case Continue => loop
    case Return(_) => inner
    case _ => true
  }

  /** Outside of the top level a scope declares no name twice, parameters included, and a variable does not occur in its
      own initializer. */
  predicate ItemNamed(d: Item, here: set<string>, top: bool, loop: bool, inner: bool)
    decreases d, 2
  {
    match d
    case Stat(s) => StmtNamed(s, loop, inner)
    case Var(x, init) => top || (x !in here && (init.Some? ==> !Mentions(init.value, x)))
    case Fun(x, params, body) =>
      && (top || x !in here) && Distinct(params)
      && ItemsNamed(body, set p | p in params, false, false, true)
  }

  predicate ItemsNamed(ds: seq<Item>, here: set<string>, top: bool, loop: bool, inner: bool)
    decreases ds, 0
  {
    ds == [] ||
    (ItemsNamed(ds[..|ds| - 1], here, top, loop, inner)
     && ItemNamed(ds[|ds| - 1], here + Names(ds[..|ds| - 1]), top, loop, inner))
  }

  /** The rules for a whole script. */
  predicate Named(ds: seq<Item>) {
    ItemsNamed(ds, {}, true, false, false)
  }

  // ----- the names of a scope are its locals -----

  ghost predicate Shows(locals: seq<Lexical.Local>, level: nat, here: set<string>) {
    forall x: string :: Declared(locals, x, level) <==> x in here
  }

  lemma ShowsFlagged(a: seq<Lexical.Local>, b: seq<Lexical.Local>, level: nat, here: set<string>)
    requires ExprTypes.Flagged(a, b) && Shows(a, level, here)
    ensures Shows(b, level, here)
  {
    forall x: string
      ensures Declared(b, x, level) <==> x in here
    {
      assert forall i :: 0 <= i < |a| ==> a[i].name == b[i].name && a[i].level == b[i].level;
      assert Declared(a, x, level) <==> Declared(b, x, level);
    }
  }

  /** A new scope has no names yet. */
  lemma ShowsNothing(locals: seq<Lexical.Local>, level: nat)
    requires Discipline.Scoped(locals, level)
    ensures Shows(locals, level + 1, {})
  {
  }

  lemma ShowsMore(locals: seq<Lexical.Local>, level: nat, here: set<string>, x: string, captured: bool)
    requires Shows(locals, level, here)
    ensures Shows(locals + [Lexical.Local(x, level, captured)], level, here + {x})
  {
    var more := locals + [Lexical.Local(x, level, captured)];
    forall y: string
      ensures Declared(more, y, level) <==> y in here + {x}
    {
      assert more[|locals|].name == x;
      if Declared(locals, y, level) {
        var i :| 0 <= i < |locals| && locals[i].name == y && locals[i].level == level;
        assert more[i] == locals[i];
      }
      if Declared(more, y, level) && y != x {
        var i :| 0 <= i < |more| && more[i].name == y && more[i].level == level;
        assert locals[i].name == y;
      }
    }
  }

  /** The names of a function's own scope are its parameters. */
  lemma ShowsParameters(params: seq<Ident>)
    ensures Shows(Parameters(params), 1, set p | p in params)
  {
    var locals := Parameters(params);
    forall x: string
      ensures Declared(locals, x, 1) <==> x in params
    {
      if x in params {
        var i :| 0 <= i < |params| && params[i] == x;
        assert locals[i + 1].name == x && locals[i + 1].level == 1;
      }
      if Declared(locals, x, 1) {
        var i :| 0 <= i < |locals| && locals[i].name == x && locals[i].level == 1;
        assert params[i - 1] == x;
      }
    }
  }

  // ----- a local that is being initialized is not read -----

  /** The name of the newest local, if that is not initialized yet. */
  ghost predicate Pending(chain: Chain, x: string) {
    var locals := chain[0].locals;
    locals != [] && locals[|locals| - 1].name == x && locals[|locals| - 1].level == -1
  }

  lemma PendingNewest(chain: Chain, x: string)
    requires Pending(chain, x)
    ensures !Access(GET, x, [], chain).Made? && forall ops, pool :: !Access(ops, x, pool, chain).Made?
  {
  }

  lemma PendingGrows(chain: Chain, after: Chain, x: string)
    requires Pending(chain, x) && Growth.Wider(chain, after)
    ensures Pending(after, x)
  {
  }

  lemma {:induction false} ExprNamed(e: Expr, pool: seq<Constant>, chain: Chain, x: string)
    requires SoundCode.Ready(pool, chain) && Pending(chain, x) && MakeExpr(e, pool, chain).Made?
    ensures !Mentions(e, x)
    decreases e, 1
  {
    hide SoundCode.Ready, Access, Growth.Wider, Pending, MakeLiteral;
    PendingNewest(chain, x);
    match e
    case Literal(_) =>
    case Variable(_) =>
    case Assign(y, rhs) =>
      var a := Access(SET, y, pool, chain);
      Growth.AccessWider(SET, y, pool, chain);
      Growth.AccessReady(SET, y, pool, chain);
      PendingGrows(chain, a.chain, x);
      ExprNamed(rhs, a.pool, a.chain, x);
    case Unary(_, a) => ExprNamed(a, pool, chain, x);
    case Binary(_, a, b) => PairNamed(a, b, pool, chain, x);
    case Conj(a, b) => PairNamed(a, b, pool, chain, x);
    case Disj(a, b) => PairNamed(a, b, pool, chain, x);
    case Call(f, args) =>
      var m := MakeExpr(f, pool, chain);
      ExprNamed(f, pool, chain, x);
      Growth.ExprWider(f, pool, chain);
      ExprTypes.ExprReady(f, pool, chain);
      PendingGrows(chain, m.chain, x);
      ArgsNamed(args, m.pool, m.chain, x);
  }

  lemma {:induction false} PairNamed(a: Expr, b: Expr, pool: seq<Constant>, chain: Chain, x: string)
    requires SoundCode.Ready(pool, chain) && Pending(chain, x) && MakeExpr(a, pool, chain).Made?
    requires var m := MakeExpr(a, pool, chain); MakeExpr(b, m.pool, m.chain).Made?
    ensures !Mentions(a, x) && !Mentions(b, x)
    decreases if a < b then b else a, 2
  {
    hide SoundCode.Ready, MakeExpr, Growth.Wider, Pending, Mentions;
    var m := MakeExpr(a, pool, chain);
    ExprNamed(a, pool, chain, x);
    Growth.ExprWider(a, pool, chain);
    ExprTypes.ExprReady(a, pool, chain);
    PendingGrows(chain, m.chain, x);
    ExprNamed(b, m.pool, m.chain, x);
  }

  lemma {:induction false} ArgsNamed(args: seq<Expr>, pool: seq<Constant>, chain: Chain, x: string)
    requires SoundCode.Ready(pool, chain) && Pending(chain, x) && MakeArgs(args, pool, chain).Made?
    ensures forall i :: 0 <= i < |args| ==> !Mentions(args[i], x)
    decreases args, 0
  {
    hide SoundCode.Ready, MakeExpr, Growth.Wider, Pending, Mentions;
    if args != [] {
      var init, last := args[..|args| - 1], args[|args| - 1];
      var m := MakeArgs(init, pool, chain);
      ArgsNamed(init, pool, chain, x);
      Growth.ArgsWider(init, pool, chain);
      ExprTypes.ArgsReady(init, pool, chain);
      PendingGrows(chain, m.chain, x);
      ExprNamed(last, m.pool, m.chain, x);
      assert forall i :: 0 <= i < |init| ==> args[i] == init[i];
    }
  }

  // ----- scripts that compile keep the rules -----

  lemma {:induction false} StmtIsNamed(s: Statement, c: Spot, pool: seq<Constant>, chain: Chain)
    requires SoundCode.Ready(pool, chain) && FunctionsTame(s) && Discipline.Scoped(chain[0].locals, c.level)
    requires MakeStmt(s, c, pool, chain).Made?
    ensures StmtNamed(s, c.loop.InLoop?, |chain| > 1)
    decreases s, 1
  {
    hide SoundCode.Ready, MakeExpr, MakeItems, EndScope, Discipline.Scoped, Lexical.Grows, Shows;
    match s
    case Block(items) =>
      Growth.EndedBlock(MakeItems(items, c.(level := c.level + 1), pool, chain), c.level);
      Growth.DeeperScoped(chain[0].locals, c.level);
      ShowsNothing(chain[0].locals, c.level);
      ItemsAreNamed(items, c.(level := c.level + 1), pool, chain, {});
    case If(e, t, f) => IfIsNamed(e, t, f, c, pool, chain);
    case While(e, b) => WhileIsNamed(e, b, c, pool, chain);
    case _ =>
  }

  lemma {:induction false} IfIsNamed(e: Expr, t: Statement, f: Option<Statement>, c: Spot, pool: seq<Constant>,
      chain: Chain)
    requires SoundCode.Ready(pool, chain) && FunctionsTame(Statement.If(e, t, f))
    requires Discipline.Scoped(chain[0].locals, c.level) && MakeStmt(Statement.If(e, t, f), c, pool, chain).Made?
    ensures StmtNamed(Statement.If(e, t, f), c.loop.InLoop?, |chain| > 1)
    decreases Statement.If(e, t, f), 0
  {
    hide SoundCode.Ready, MakeExpr, MakeStmt, Discipline.Scoped, Lexical.Grows;
    IfMade(e, t, f, c, pool, chain);
    var m := MakeExpr(e, pool, chain);
    Growth.ExprGrows(e, pool, chain);
    ExprTypes.ExprReady(e, pool, chain);
    Growth.GrowsScoped(chain, m.chain, c.level);
    var past := c.Past(|m.code| + 4);
    var n := MakeStmt(t, past, m.pool, m.chain);
    StmtIsNamed(t, past, m.pool, m.chain);
    if f.Some? {
      Growth.StmtGrows(t, past, m.pool, m.chain);
      Discipline.StmtReady(t, past, m.pool, m.chain);
      Growth.GrowsScoped(m.chain, n.chain, c.level);
      StmtIsNamed(f.value, c.Past(|m.code| + 4 + |n.code| + 4), n.pool, n.chain);
    }
  }

  lemma {:induction false} WhileIsNamed(e: Expr, b: Statement, c: Spot, pool: seq<Constant>, chain: Chain)
    requires SoundCode.Ready(pool, chain) && FunctionsTame(Statement.While(e, b))
    requires Discipline.Scoped(chain[0].locals, c.level) && MakeStmt(Statement.While(e, b), c, pool, chain).Made?
    ensures StmtNamed(Statement.While(e, b), c.loop.InLoop?, |chain| > 1)
    decreases Statement.While(e, b), 0
  {
    hide SoundCode.Ready, MakeExpr, MakeStmt, Discipline.Scoped, Lexical.Grows;
    WhileMade(e, b, c, pool, chain);
    var m := MakeExpr(e, pool, chain);
    Growth.ExprGrows(e, pool, chain);
    ExprTypes.ExprReady(e, pool, chain);
    Growth.GrowsScoped(chain, m.chain, c.level);
    Growth.DeeperScoped(m.chain[0].locals, c.level);
    StmtIsNamed(b, c.Inside(|m.code|), m.pool, m.chain);
  }

  lemma {:induction false} ItemsAreNamed(ds: seq<Item>, c: Spot, pool: seq<Constant>, chain: Chain, here: set<string>)
    requires SoundCode.Ready(pool, chain) && ItemsTame(ds) && Discipline.Scoped(chain[0].locals, c.level)
    requires MakeItems(ds, c, pool, chain).Made? && (c.level > 0 ==> Shows(chain[0].locals, c.level, here))
    ensures ItemsNamed(ds, here, c.level == 0, c.loop.InLoop?, |chain| > 1)
    ensures c.level > 0 ==> Shows(MakeItems(ds, c, pool, chain).chain[0].locals, c.level, here + Names(ds))
    decreases ds, 0
  {
    hide SoundCode.Ready, MakeItem, ItemTame, Discipline.Scoped, Discipline.GrowsOut, Shows, ItemNamed;
    if ds == [] {
      assert here + Names(ds) == here;
    } else {
      var init, last := ds[..|ds| - 1], ds[|ds| - 1];
      var m := MakeItems(init, c, pool, chain);
      ItemsAreNamed(init, c, pool, chain, here);
      Discipline.ItemsReady(init, c, pool, chain);
      Growth.ItemsGrow(init, c, pool, chain);
      ItemIsNamed(last, c.Past(|m.code|), m.pool, m.chain, here + Names(init));
      assert here + Names(ds) == here + Names(init) + Adds(last);
    }
  }

  lemma {:induction false} ItemIsNamed(d: Item, c: Spot, pool: seq<Constant>, chain: Chain, here: set<string>)
    requires SoundCode.Ready(pool, chain) && ItemTame(d) && Discipline.Scoped(chain[0].locals, c.level)
    requires MakeItem(d, c, pool, chain).Made? && (c.level > 0 ==> Shows(chain[0].locals, c.level, here))
    ensures ItemNamed(d, here, c.level == 0, c.loop.InLoop?, |chain| > 1)
    ensures c.level > 0 ==> Shows(MakeItem(d, c, pool, chain).chain[0].locals, c.level, here + Adds(d))
    decreases d, 2
  {
    hide SoundCode.Ready, MakeStmt, MakeInit, MakeFunction, Functions.WithConstant, Discipline.Scoped, Shows,
      Lexical.Grows, AddLocal, Mentions;
    match d
    case Stat(s) =>
      StmtIsNamed(s, c, pool, chain);
      Growth.StmtGrows(s, c, pool, chain);
      Discipline.GrowsFlagged(chain, MakeStmt(s, c, pool, chain).chain);
      if c.level > 0 { ShowsFlagged(chain[0].locals, MakeStmt(s, c, pool, chain).chain[0].locals, c.level, here); }
      assert here + {} == here;
    case Var(x, init) =>
      if c.level > 0 { VarIsNamed(x, init, c, pool, chain, here); }
    case Fun(x, params, body) =>
      if c.level == 0 {
        var def := Functions.WithConstant(OP_DEFINE_GLOBAL, Plain(Str(x)), pool, chain);
        ExprTypes.ConstantForm(OP_DEFINE_GLOBAL, Plain(Str(x)), pool, chain);
        Discipline.DefReady(x, pool, chain);
        FunctionIsNamed(params, body, def.pool, chain);
      } else {
        var between := AddLocal(chain, x, c.level);
        Growth.LocalAdded(pool, chain, x, c.level);
        NotThere(chain[0].locals, c.level, here, x);
        FunctionIsNamed(params, body, pool, between);
        ShowsMore(chain[0].locals, c.level, here, x, false);
        Growth.FunctionGrows(params, body, pool, between);
        var after := MakeFunction(params, body, pool, between).chain;
        Discipline.GrowsFlagged(between, after);
        ShowsFlagged(between[0].locals, after[0].locals, c.level, here + {x});
      }
  }

  lemma NotThere(locals: seq<Lexical.Local>, level: nat, here: set<string>, x: string)
    requires Shows(locals, level, here) && !Declared(locals, x, level)
    ensures x !in here
  {
  }

  lemma {:induction false} VarIsNamed(x: Ident, init: Option<Expr>, c: Spot, pool: seq<Constant>, chain: Chain,
      here: set<string>)
    requires SoundCode.Ready(pool, chain) && c.level > 0 && Shows(chain[0].locals, c.level, here)
    requires MakeItem(Var(x, init), c, pool, chain).Made?
    ensures x !in here && (init.Some? ==> !Mentions(init.value, x))
    ensures Shows(MakeItem(Var(x, init), c, pool, chain).chain[0].locals, c.level, here + {x})
  {
    hide SoundCode.Ready, MakeExpr, Lexical.Grows, AddLocal, Mentions;
    var between := AddLocal(chain, x, -1);
    Growth.LocalAdded(pool, chain, x, -1);
    Growth.InitWider(init, pool, between);
    Growth.LocalGrows(chain, x, c.level, MakeInit(init, pool, between));
    ShowsMore(chain[0].locals, c.level, here, x, false);
    if init.Some? { ExprNamed(init.value, pool, between, x); }
  }

  lemma {:induction false} FunctionIsNamed(params: seq<Ident>, body: seq<Item>, pool: seq<Constant>, chain: Chain)
    requires SoundCode.Ready(pool, chain) && ItemsTame(body) && MakeFunction(params, body, pool, chain).Made?
    ensures Distinct(params) && ItemsNamed(body, set p | p in params, false, false, true)
    decreases body, 3
  {
    hide SoundCode.Ready, LayItems, MakeItems, ItemsTame, Discipline.Scoped, Shows;
    var start := Enter(params, chain);
    Growth.FunctionInside(params, body, pool, chain);
    Growth.StartReady(pool, params, chain);
    SoundCode.LaidSize(body, BODY, start);
    Discipline.ParametersScoped(params, chain);
    ShowsParameters(params);
    ItemsAreNamed(body, BODY, [], start, set p | p in params);
  }

  /** Every script that compiles keeps the rules. */
  lemma ScriptIsNamed(ds: seq<Item>)
    requires MakeScript(ds).Accepted? && ItemsTame(ds)
    ensures Named(ds)
  {
    hide LayItems, MakeItems, ItemsTame, Discipline.Scoped, SoundCode.Ready;
    SoundCode.ScriptReady();
    SoundCode.LaidSize(ds, TOP, SCRIPT);
    Discipline.ScriptScoped();
    ItemsAreNamed(ds, TOP, [], SCRIPT, {});
  }
}
