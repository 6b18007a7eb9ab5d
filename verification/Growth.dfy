/** What compiling a piece does to the chain of functions being compiled: locals stay where they are, and only become
    captured; upvalues and constants are added at the end. */
module Growth {
  import opened Values
  import opened Bytecode
  import opened Functions
  import opened SoundCode
  import ExprTypes
  import Discipline
  import Lexical

  // ----- expressions -----

  /** The innermost function keeps its locals as they are. */
  ghost predicate Wider(chain: Chain, after: Chain) {
    Lexical.Grows(chain, after) && after[0].locals == chain[0].locals
  }

  lemma WiderSelf(chain: Chain)
    ensures Wider(chain, chain)
  {
    ExprTypes.GrowsSelf(chain);
  }

  lemma WiderOn(a: Chain, b: Chain, c: Chain)
    requires Wider(a, b) && Wider(b, c)
    ensures Wider(a, c)
  {
    hide Lexical.Grows;
    ExprTypes.GrowsOn(a, b, c);
  }

  lemma {:induction false} AccessWider(ops: Ops, x: string, pool: seq<Constant>, chain: Chain)
    requires Ready(pool, chain) && Access(ops, x, pool, chain).Made?
    ensures Wider(chain, Access(ops, x, pool, chain).chain)
  {
    hide PoolOk, Lexical.WellLinked, Lexical.ResolveUp, Functions.WithConstant, Lexical.Grows;
    WiderSelf(chain);
    Lexical.LookupGrows(chain, x);
    var u := Lexical.ResolveUp(chain, x);
    if Lexical.Newest(chain[0].locals, x) < 0 && u.index < 0 {
      ExprTypes.ConstantForm(ops.global, Plain(Str(x)), pool, u.chain);
    }
  }

  lemma AccessReady(ops: Ops, x: string, pool: seq<Constant>, chain: Chain)
    requires Ready(pool, chain) && (ops == GET || ops == SET) && Access(ops, x, pool, chain).Made?
    ensures var m := Access(ops, x, pool, chain); Ready(m.pool, m.chain) && pool <= m.pool
  {
    hide PoolOk, Lexical.WellLinked, Access;
    AccessGood(ops, x, pool, chain);
  }

  lemma LiteralWider(v: Value, pool: seq<Constant>, chain: Chain)
    requires MakeLiteral(v, pool, chain).Made?
    ensures Wider(chain, MakeLiteral(v, pool, chain).chain)
  {
    WiderSelf(chain);
  }

  lemma {:induction false} ExprWider(e: Expr, pool: seq<Constant>, chain: Chain)
    requires Ready(pool, chain) && MakeExpr(e, pool, chain).Made?
    ensures Wider(chain, MakeExpr(e, pool, chain).chain)
    decreases e, 1
  {
    hide Ready, Access, MakeLiteral, Wider;
    match e
    case Literal(v) => LiteralWider(v, pool, chain);
    case Variable(x) => AccessWider(GET, x, pool, chain);
    case Assign(x, rhs) =>
      var m := Access(SET, x, pool, chain);
      AccessWider(SET, x, pool, chain);
      AccessReady(SET, x, pool, chain);
      ExprWider(rhs, m.pool, m.chain);
      WiderOn(chain, m.chain, MakeExpr(rhs, m.pool, m.chain).chain);
    case Unary(op, a) => ExprWider(a, pool, chain);
    case Binary(op, a, b) => PairWider(a, b, pool, chain);
    case Conj(a, b) => PairWider(a, b, pool, chain);
    case Disj(a, b) => PairWider(a, b, pool, chain);
    case Call(f, args) =>
      var m := MakeExpr(f, pool, chain);
      ExprWider(f, pool, chain);
      ExprTypes.ExprReady(f, pool, chain);
      ArgsWider(args, m.pool, m.chain);
      WiderOn(chain, m.chain, MakeArgs(args, m.pool, m.chain).chain);
  }

  lemma {:induction false} PairWider(a: Expr, b: Expr, pool: seq<Constant>, chain: Chain)
    requires Ready(pool, chain) && MakeExpr(a, pool, chain).Made?
    requires var m := MakeExpr(a, pool, chain); MakeExpr(b, m.pool, m.chain).Made?
    ensures var m := MakeExpr(a, pool, chain); Wider(chain, MakeExpr(b, m.pool, m.chain).chain)
    decreases if a < b then b else a, 2
  {
    hide Ready, MakeExpr, Wider;
    var m := MakeExpr(a, pool, chain);
    ExprWider(a, pool, chain);
    ExprTypes.ExprReady(a, pool, chain);
    ExprWider(b, m.pool, m.chain);
    WiderOn(chain, m.chain, MakeExpr(b, m.pool, m.chain).chain);
  }

  lemma {:induction false} ArgsWider(args: seq<Expr>, pool: seq<Constant>, chain: Chain)
    requires Ready(pool, chain) && MakeArgs(args, pool, chain).Made?
    ensures Wider(chain, MakeArgs(args, pool, chain).chain)
    decreases args, 0
  {
    hide Ready, MakeExpr, Wider;
    if args == [] {
      WiderSelf(chain);
    } else {
      var init, last := args[..|args| - 1], args[|args| - 1];
      var m := MakeArgs(init, pool, chain);
      ArgsWider(init, pool, chain);
      ExprTypes.ArgsReady(init, pool, chain);
      ExprWider(last, m.pool, m.chain);
      WiderOn(chain, m.chain, MakeExpr(last, m.pool, m.chain).chain);
    }
  }

  lemma InitWider(init: Option<Expr>, pool: seq<Constant>, chain: Chain)
    requires Ready(pool, chain) && MakeInit(init, pool, chain).Made?
    ensures var m := MakeInit(init, pool, chain); Wider(chain, m.chain) && Ready(m.pool, m.chain) && pool <= m.pool
  {
    hide Ready, MakeExpr, Wider;
    WiderSelf(chain);
    if init.Some? {
      ExprWider(init.value, pool, chain);
      ExprTypes.ExprReady(init.value, pool, chain);
    }
  }

  // ----- statements -----

  lemma WiderGrows(chain: Chain, after: Chain)
    requires Wider(chain, after)
    ensures Lexical.Grows(chain, after)
  {
  }

  lemma GrowsScoped(chain: Chain, after: Chain, level: nat)
    requires Lexical.Grows(chain, after) && Discipline.Scoped(chain[0].locals, level)
    ensures Discipline.Scoped(after[0].locals, level)
  {
    Discipline.GrowsFlagged(chain, after);
    Discipline.FlaggedScoped(chain[0].locals, after[0].locals, level);
  }

  lemma {:induction false} StmtGrows(s: Statement, c: Spot, pool: seq<Constant>, chain: Chain)
    requires Ready(pool, chain) && FunctionsTame(s) && Discipline.Scoped(chain[0].locals, c.level)
    requires MakeStmt(s, c, pool, chain).Made?
    ensures Lexical.Grows(chain, MakeStmt(s, c, pool, chain).chain)
    decreases s, 1
  {
    hide Ready, Wider, MakeExpr, MakeItems, EndScope, Discipline.Scoped, Lexical.Grows;
    match s
    case Do(e) => ExprGrows(e, pool, chain);
    case Print(e) => ExprGrows(e, pool, chain);
    case Block(items) =>
      var m := MakeItems(items, c.(level := c.level + 1), pool, chain);
      EndedBlock(m, c.level);
      DeeperScoped(chain[0].locals, c.level);
      ItemsGrow(items, c.(level := c.level + 1), pool, chain);
      BlockEnds(chain, m, c);
    case If(e, t, f) => IfGrows(e, t, f, c, pool, chain);
    case While(e, b) => WhileGrows(e, b, c, pool, chain);
    case Continue => ExprTypes.GrowsSelf(chain);
    case Return(None) => ExprTypes.GrowsSelf(chain);
    case Return(Some(e)) => ExprGrows(e, pool, chain);
  }

  lemma {:induction false} ExprGrows(e: Expr, pool: seq<Constant>, chain: Chain)
    requires Ready(pool, chain) && MakeExpr(e, pool, chain).Made?
    ensures Lexical.Grows(chain, MakeExpr(e, pool, chain).chain)
  {
    hide Ready, MakeExpr, Lexical.Grows;
    ExprWider(e, pool, chain);
  }

  lemma EndedBlock(m: Made, level: int)
    requires EndScope(m, level).Made?
    ensures m.Made?
  {
  }

  lemma DeeperScoped(locals: seq<Lexical.Local>, level: nat)
    requires Discipline.Scoped(locals, level)
    ensures Discipline.Scoped(locals, level + 1)
  {
  }

  /** At the end of a block its own locals are gone. */
  lemma BlockEnds(chain: Chain, m: Made, c: Spot)
    requires m.Made? && Discipline.GrowsOut(chain, m.chain, c.level + 1) && Discipline.Scoped(chain[0].locals, c.level)
    ensures EndScope(m, c.level).Made? && Lexical.Grows(chain, EndScope(m, c.level).chain)
    ensures EndScope(m, c.level).chain == WithLocals(m.chain, m.chain[0].locals[..|chain[0].locals|])
    ensures Deeper(m.chain[0].locals, c.level) == |m.chain[0].locals| - |chain[0].locals|
  {
    hide Lexical.Grows, Deeper, WithLocals, EndLocals;
    Discipline.OutExtends(chain, m.chain, c.level + 1);
    Discipline.OneDeeper(chain[0].locals, m.chain[0].locals, c.(loop := TOP.loop));
    Discipline.BlockGrows(chain, m.chain, c.level);
  }

  lemma {:induction false} IfGrows(e: Expr, t: Statement, f: Option<Statement>, c: Spot, pool: seq<Constant>,
      chain: Chain)
    requires Ready(pool, chain) && FunctionsTame(Statement.If(e, t, f)) && Discipline.Scoped(chain[0].locals, c.level)
    requires MakeStmt(Statement.If(e, t, f), c, pool, chain).Made?
    ensures Lexical.Grows(chain, MakeStmt(Statement.If(e, t, f), c, pool, chain).chain)
    decreases Statement.If(e, t, f), 0
  {
    hide Ready, MakeExpr, MakeStmt, Discipline.Scoped, Lexical.Grows;
    IfMade(e, t, f, c, pool, chain);
    var m := MakeExpr(e, pool, chain);
    ExprGrows(e, pool, chain);
    ExprTypes.ExprReady(e, pool, chain);
    GrowsScoped(chain, m.chain, c.level);
    var past := c.Past(|m.code| + 4);
    var n := MakeStmt(t, past, m.pool, m.chain);
    StmtGrows(t, past, m.pool, m.chain);
    ExprTypes.GrowsOn(chain, m.chain, n.chain);
    if f.Some? {
      Discipline.StmtReady(t, past, m.pool, m.chain);
      GrowsScoped(chain, n.chain, c.level);
      var after := c.Past(|m.code| + 4 + |n.code| + 4);
      StmtGrows(f.value, after, n.pool, n.chain);
      ExprTypes.GrowsOn(chain, n.chain, MakeStmt(f.value, after, n.pool, n.chain).chain);
    }
  }

  lemma {:induction false} WhileGrows(e: Expr, b: Statement, c: Spot, pool: seq<Constant>, chain: Chain)
    requires Ready(pool, chain) && FunctionsTame(Statement.While(e, b)) && Discipline.Scoped(chain[0].locals, c.level)
    requires MakeStmt(Statement.While(e, b), c, pool, chain).Made?
    ensures Lexical.Grows(chain, MakeStmt(Statement.While(e, b), c, pool, chain).chain)
    decreases Statement.While(e, b), 0
  {
    hide Ready, MakeExpr, MakeStmt, Discipline.Scoped, Lexical.Grows;
    WhileMade(e, b, c, pool, chain);
    var m := MakeExpr(e, pool, chain);
    ExprGrows(e, pool, chain);
    ExprTypes.ExprReady(e, pool, chain);
    GrowsScoped(chain, m.chain, c.level);
    DeeperScoped(m.chain[0].locals, c.level);
    StmtGrows(b, c.Inside(|m.code|), m.pool, m.chain);
    ExprTypes.GrowsOn(chain, m.chain, MakeStmt(b, c.Inside(|m.code|), m.pool, m.chain).chain);
  }

  // ----- declarations -----

  lemma GrowsOutSelf(chain: Chain, level: nat)
    ensures Discipline.GrowsOut(chain, chain, level)
  {
    ExprTypes.GrowsSelf(chain);
    GrowsAlso(chain, chain, level);
  }

  lemma GrowsAlso(chain: Chain, after: Chain, level: nat)
    requires Lexical.Grows(chain, after)
    ensures Discipline.GrowsOut(chain, after, level)
  {
    Discipline.GrowsFlagged(chain, after);
    var a, b := chain[0].locals, after[0].locals;
    assert b[..|a|] == b;
    assert Lexical.LevelGrows(chain[0], after[0]);
  }

  lemma {:induction false} ItemsGrow(ds: seq<Item>, c: Spot, pool: seq<Constant>, chain: Chain)
    requires Ready(pool, chain) && ItemsTame(ds) && Discipline.Scoped(chain[0].locals, c.level)
    requires MakeItems(ds, c, pool, chain).Made?
    ensures Discipline.GrowsOut(chain, MakeItems(ds, c, pool, chain).chain, c.level)
    ensures Discipline.Scoped(MakeItems(ds, c, pool, chain).chain[0].locals, c.level)
    decreases ds, 0
  {
    hide Ready, MakeItem, ItemTame, Discipline.Scoped, Discipline.GrowsOut;
    if ds == [] {
      GrowsOutSelf(chain, c.level);
    } else {
      var init, last := ds[..|ds| - 1], ds[|ds| - 1];
      var m := MakeItems(init, c, pool, chain);
      ItemsGrow(init, c, pool, chain);
      Discipline.ItemsReady(init, c, pool, chain);
      ItemGrows(last, c.Past(|m.code|), m.pool, m.chain);
      var n := MakeItem(last, c.Past(|m.code|), m.pool, m.chain);
      Discipline.GrowsOutOn(chain, m.chain, n.chain, c.level);
      OutScoped(chain, n.chain, c.level);
    }
  }

  lemma OutScoped(chain: Chain, after: Chain, level: nat)
    requires Discipline.GrowsOut(chain, after, level) && Discipline.Scoped(chain[0].locals, level)
    ensures Discipline.Scoped(after[0].locals, level)
  {
    Discipline.OutExtends(chain, after, level);
    Discipline.ExtendsBase(chain[0].locals, after[0].locals, Spot(level, TOP.loop));
  }

  lemma {:induction false} ItemGrows(d: Item, c: Spot, pool: seq<Constant>, chain: Chain)
    requires Ready(pool, chain) && ItemTame(d) && Discipline.Scoped(chain[0].locals, c.level)
    requires MakeItem(d, c, pool, chain).Made?
    ensures Discipline.GrowsOut(chain, MakeItem(d, c, pool, chain).chain, c.level)
    decreases d, 2
  {
    hide Ready, Wider, MakeStmt, MakeInit, MakeFunction, Functions.WithConstant, Discipline.Scoped, Lexical.Grows,
      Discipline.GrowsOut, AddLocal;
    match d
    case Stat(s) =>
      StmtGrows(s, c, pool, chain);
      GrowsAlso(chain, MakeStmt(s, c, pool, chain).chain, c.level);
    case Var(x, init) =>
      if c.level == 0 {
        var def := Functions.WithConstant(OP_DEFINE_GLOBAL, Plain(Str(x)), pool, chain);
        ExprTypes.ConstantForm(OP_DEFINE_GLOBAL, Plain(Str(x)), pool, chain);
        Discipline.DefReady(x, pool, chain);
        InitWider(init, def.pool, chain);
        WiderGrows(chain, MakeInit(init, def.pool, chain).chain);
        GrowsAlso(chain, MakeInit(init, def.pool, chain).chain, c.level);
      } else {
        var between := AddLocal(chain, x, -1);
        LocalAdded(pool, chain, x, -1);
        InitWider(init, pool, between);
        LocalGrows(chain, x, c.level, MakeInit(init, pool, between));
      }
    case Fun(x, params, body) =>
      if c.level == 0 {
        var def := Functions.WithConstant(OP_DEFINE_GLOBAL, Plain(Str(x)), pool, chain);
        ExprTypes.ConstantForm(OP_DEFINE_GLOBAL, Plain(Str(x)), pool, chain);
        Discipline.DefReady(x, pool, chain);
        FunctionGrows(params, body, def.pool, chain);
        GrowsAlso(chain, MakeFunction(params, body, def.pool, chain).chain, c.level);
      } else {
        LocalAdded(pool, chain, x, c.level);
        FunctionGrows(params, body, pool, AddLocal(chain, x, c.level));
        FunctionLocal(chain, x, c.level, MakeFunction(params, body, pool, AddLocal(chain, x, c.level)).chain);
      }
  }

  lemma LocalAdded(pool: seq<Constant>, chain: Chain, x: Ident, level: int)
    requires Ready(pool, chain) && |chain[0].locals| <= UINT8_MAX
    ensures Ready(pool, AddLocal(chain, x, level))
    ensures AddLocal(chain, x, level)[0].locals == chain[0].locals + [Lexical.Local(x, level, false)]
  {
    hide Ready;
    Discipline.LocalsReady(pool, chain, chain[0].locals + [Lexical.Local(x, level, false)]);
  }

  /** A local whose initializer has been compiled. */
  lemma LocalGrows(chain: Chain, x: Ident, level: nat, m: Made)
    requires m.Made? && Wider(AddLocal(chain, x, -1), m.chain)
    ensures Finish(m, level).Made? && Discipline.GrowsOut(chain, Finish(m, level).chain, level)
    ensures Finish(m, level).chain[0].locals == chain[0].locals + [Lexical.Local(x, level, false)]
  {
    var after := Finish(m, level).chain;
    assert after[0].locals[..|chain[0].locals|] == chain[0].locals;
    var between := AddLocal(chain, x, -1);
    assert Lexical.LevelGrows(between[0], m.chain[0]);
    forall d | 1 <= d < |chain|
      ensures Lexical.LevelGrows(chain[d], after[d])
    {
      assert Lexical.LevelGrows(between[d], m.chain[d]);
    }
  }

  lemma FunctionLocal(chain: Chain, x: Ident, level: nat, after: Chain)
    requires Lexical.Grows(AddLocal(chain, x, level), after)
    ensures Discipline.GrowsOut(chain, after, level)
  {
    var between := AddLocal(chain, x, level);
    assert Lexical.LevelGrows(between[0], after[0]);
    assert forall i :: 0 <= i < |chain[0].locals| ==> between[0].locals[i] == chain[0].locals[i];
    forall d | 1 <= d < |chain|
      ensures Lexical.LevelGrows(chain[d], after[d])
    {
      assert Lexical.LevelGrows(between[d], after[d]);
    }
  }

  /** Outside of all scopes a declaration adds no local. */
  lemma {:induction false} TopItemGrows(d: Item, c: Spot, pool: seq<Constant>, chain: Chain)
    requires Ready(pool, chain) && ItemTame(d) && Discipline.Scoped(chain[0].locals, c.level) && c.level == 0
    requires MakeItem(d, c, pool, chain).Made?
    ensures Lexical.Grows(chain, MakeItem(d, c, pool, chain).chain)
  {
    hide Ready, Wider, MakeStmt, MakeInit, MakeFunction, Functions.WithConstant, Discipline.Scoped, Lexical.Grows;
    if d.Stat? {
      StmtGrows(d.s, c, pool, chain);
    } else {
      var def := Functions.WithConstant(OP_DEFINE_GLOBAL, Plain(Str(d.name)), pool, chain);
      ExprTypes.ConstantForm(OP_DEFINE_GLOBAL, Plain(Str(d.name)), pool, chain);
      Discipline.DefReady(d.name, pool, chain);
      if d.Var? {
        InitWider(d.init, def.pool, chain);
        WiderGrows(chain, MakeInit(d.init, def.pool, chain).chain);
      } else {
        FunctionGrows(d.params, d.body, def.pool, chain);
      }
    }
  }

  lemma {:induction false} TopItemsGrow(ds: seq<Item>, c: Spot, pool: seq<Constant>, chain: Chain)
    requires Ready(pool, chain) && ItemsTame(ds) && Discipline.Scoped(chain[0].locals, c.level) && c.level == 0
    requires MakeItems(ds, c, pool, chain).Made?
    ensures Lexical.Grows(chain, MakeItems(ds, c, pool, chain).chain)
    decreases ds
  {
    hide Ready, MakeItem, ItemTame, Discipline.Scoped, Lexical.Grows;
    if ds == [] {
      ExprTypes.GrowsSelf(chain);
    } else {
      var init, last := ds[..|ds| - 1], ds[|ds| - 1];
      var m := MakeItems(init, c, pool, chain);
      TopItemsGrow(init, c, pool, chain);
      Discipline.ItemsReady(init, c, pool, chain);
      GrowsScoped(chain, m.chain, c.level);
      TopItemGrows(last, c.Past(|m.code|), m.pool, m.chain);
      ExprTypes.GrowsOn(chain, m.chain, MakeItem(last, c.Past(|m.code|), m.pool, m.chain).chain);
    }
  }

  // ----- functions -----

  lemma {:induction false} FunctionGrows(params: seq<Ident>, body: seq<Item>, pool: seq<Constant>, chain: Chain)
    requires Ready(pool, chain) && ItemsTame(body) && MakeFunction(params, body, pool, chain).Made?
    ensures Lexical.Grows(chain, MakeFunction(params, body, pool, chain).chain)
    decreases body, 3
  {
    hide Ready, LayItems, MakeItems, ItemsTame, Discipline.Scoped, Discipline.GrowsOut, Lexical.Grows;
    var start := Enter(params, chain);
    FunctionInside(params, body, pool, chain);
    StartReady(pool, params, chain);
    LaidSize(body, BODY, start);
    Discipline.ParametersScoped(params, chain);
    ItemsGrow(body, BODY, [], start);
    var m := MakeItems(body, BODY, [], start);
    Discipline.OuterFlagged(start, m.chain, BODY.level);
  }

  lemma StartReady(pool: seq<Constant>, params: seq<Ident>, chain: Chain)
    requires Ready(pool, chain) && |params| <= UINT8_MAX
    ensures Ready([], Enter(params, chain)) && Enter(params, chain)[1..] == chain
  {
    hide Lexical.WellLinked, PoolOk;
    InnerReady(params, chain);
  }

  /** What a function is made from. */
  lemma {:induction false} FunctionInside(params: seq<Ident>, body: seq<Item>, pool: seq<Constant>, chain: Chain)
    requires MakeFunction(params, body, pool, chain).Made?
    ensures |params| <= UINT8_MAX && Distinct(params)
    ensures var inner := LayItems(body, BODY, Enter(params, chain));
      && inner.Made? && MakeFunction(params, body, pool, chain) == MakeClosure(|params|, inner, pool)
      && MakeFunction(params, body, pool, chain).chain == inner.chain[1..]
  {
    hide LayItems;
  }
}
