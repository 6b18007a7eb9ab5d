/** The code of scripts with functions: one chunk for each function, closures made where a function is
    declared, and the chain of functions being compiled threaded through everything.  The code of a tree is
    the code that is meant; the chunk of a function is what laying it down leaves, searches included. */
module Functions {
  import opened Values
  import opened Bytecode
  import opened Lexical
  import opened ClosureCode
  import opened ExitSearch
  import opened Pieces
  import Codegen
  import Syntax

  type Expr = Syntax.Expr

  datatype Statement =
    | Do(e: Expr)
    | Print(e: Expr)
    | Block(items: seq<Item>)
    | If(cond: Expr, thn: Statement, els: Option<Statement>)
    | While(cond: Expr, body: Statement)
    | Continue
    | Return(value: Option<Expr>)

  datatype Item =
    | Var(name: Ident, init: Option<Expr>)
    | Fun(name: Ident, params: seq<Ident>, body: seq<Item>)
    | Stat(s: Statement)

  /** A compiled function: how many arguments and upvalues it has, and its chunk. */
  datatype Function = Function(arity: nat, upvalues: nat, code: seq<byte>, pool: seq<Constant>)

  datatype Constant = Plain(v: Value) | Compiled(f: Function)

  /** The functions being compiled, the innermost first. */
  type Chain = c: seq<Level> | |c| > 0 witness [Level([], [])]

  /** `Hung` is a search that never ends, in the chunk of a function; `Failed` is a compile error. */
  datatype Made = Failed | Hung | Made(code: seq<byte>, pool: seq<Constant>, chain: Chain) {
    predicate IsFailure() { !Made? }
    function PropagateFailure(): Made requires !Made? { this }
    function Extract(): (seq<byte>, seq<Constant>, Chain) requires Made? { (code, pool, chain) }
    function Append(tail: seq<byte>): (r: Made)
      ensures r.Made? ==> Made? && |r.chain| == |chain|
    {
      if Made? then this.(code := code + tail) else this
    }
  }

  // ----- constants and names -----

  /** Functions are constants of their own: no two are equal. */
  predicate Same(a: Constant, b: Constant) {
    a.Plain? && b.Plain? && ValueEqual(a.v, b.v)
  }

  function FirstSame(pool: seq<Constant>, k: Constant, i: nat): (r: nat)
    requires i <= |pool|
    ensures i <= r <= |pool|
    ensures r < |pool| ==> Same(pool[r], k)
    decreases |pool| - i
  {
    if i == |pool| || Same(pool[i], k) then i else FirstSame(pool, k, i + 1)
  }

  /** An opcode and the index of a constant. */
  function WithConstant(op: byte, k: Constant, pool: seq<Constant>, chain: Chain): (r: Made)
    ensures r.Made? ==> |r.chain| == |chain|
  {
    var i := FirstSame(pool, k, 0);
    if i > UINT8_MAX then Failed else Made([op, i], if i < |pool| then pool else pool + [k], chain)
  }

  /** The opcodes that read, or write, a slot, an upvalue and a global. */
  datatype Ops = Ops(local: byte, up: byte, global: byte)

  const GET := Ops(OP_GET_LOCAL, OP_GET_UPVALUE, OP_GET_GLOBAL)
  const SET := Ops(OP_SET_LOCAL, OP_SET_UPVALUE, OP_SET_GLOBAL)

  /** A name is a slot, an upvalue or a global, in this order. */
  function Access(ops: Ops, x: string, pool: seq<Constant>, chain: Chain): (r: Made)
    ensures r.Made? ==> |r.chain| == |chain|
  {
    var slot := Newest(chain[0].locals, x);
    if slot >= 0 then
      if slot > UINT8_MAX || chain[0].locals[slot].level == -1 then Failed else Made([ops.local, slot], pool, chain)
    else
      var u := ResolveUp(chain, x);
      if u.full || u.early || u.index > UINT8_MAX then Failed
      else if u.index >= 0 then Made([ops.up, u.index], pool, u.chain)
      else WithConstant(ops.global, Plain(Str(x)), pool, u.chain)
  }

  // ----- expressions -----

  function MakeLiteral(v: Value, pool: seq<Constant>, chain: Chain): (r: Made)
    ensures r.Made? ==> |r.chain| == |chain|
  {
    match v
    case Nil => Made([OP_NIL], pool, chain)
    case Bool(b) => Made([if b then OP_TRUE else OP_FALSE], pool, chain)
    case _ => WithConstant(OP_CONSTANT, Plain(v), pool, chain)
  }

  /** Left operand, conditional jump over the right one, right operand. */
  function Short(jump: byte, left: seq<byte>, right: Made): (r: Made)
    ensures r.Made? ==> right.Made? && r.chain == right.chain
  {
    if !right.Made? then right
    else if |right.code| + 1 > UINT16_MAX then Failed
    else Made(left + (Codegen.JumpCode(jump, |right.code| + 1) + [OP_POP]) + right.code, right.pool, right.chain)
  }

  function MakeExpr(e: Expr, pool: seq<Constant>, chain: Chain): (r: Made)
    ensures r.Made? ==> |r.chain| == |chain|
    decreases e, 1
  {
    match e
    case Literal(v) => MakeLiteral(v, pool, chain)
    case Variable(x) => Access(GET, x, pool, chain)
    case Assign(x, rhs) =>
      var (store, p, after) :- Access(SET, x, pool, chain);
      MakeExpr(rhs, p, after).Append(store)
    case Unary(op, a) => MakeExpr(a, pool, chain).Append(Codegen.UnaryCode(op))
    case Binary(op, a, b) =>
      var (c, p, after) :- MakeExpr(a, pool, chain);
      var (d, q, last) :- MakeExpr(b, p, after);
      Made(c + d + Codegen.BinaryCode(op), q, last)
    case Conj(a, b) =>
      var (c, p, after) :- MakeExpr(a, pool, chain);
      Short(OP_JUMP_IF_FALSE, c, MakeExpr(b, p, after))
    case Disj(a, b) =>
      var (c, p, after) :- MakeExpr(a, pool, chain);
      Short(OP_JUMP_IF_TRUE, c, MakeExpr(b, p, after))
    case Call(f, args) =>
      var (c, p, after) :- MakeExpr(f, pool, chain);
      var (d, q, last) :- MakeArgs(args, p, after);
      if |args| > UINT8_MAX then Failed else Made(c + d + [OP_CALL, |args|], q, last)
  }

  function MakeArgs(args: seq<Expr>, pool: seq<Constant>, chain: Chain): (r: Made)
    ensures r.Made? ==> |r.chain| == |chain|
    decreases args, 0
  {
    if args == [] then Made([], pool, chain) else
      var (c, p, after) :- MakeArgs(args[..|args| - 1], pool, chain);
      var (d, q, last) :- MakeExpr(args[|args| - 1], p, after);
      Made(c + d, q, last)
  }

  // ----- locals -----

  /** Scope level and loop of a place in a function. */
  datatype Spot = Spot(level: nat, loop: Codegen.Loop) {
    function Past(n: nat): Spot {
      this.(loop := if loop.NoLoop? then loop else Codegen.InLoop(loop.distance + n, loop.level))
    }

    function Inside(condition: nat): Spot {
      Spot(level + 1, Codegen.InLoop(condition + 4, level))
    }
  }

  predicate Declared(locals: seq<Local>, x: string, level: nat) {
    exists i :: 0 <= i < |locals| && locals[i].name == x && locals[i].level == level
  }

  function WithLocals(chain: Chain, locals: seq<Local>): (r: Chain)
    ensures |r| == |chain|
  {
    chain[0 := chain[0].(locals := locals)]
  }

  /** A new local; `level` is -1 while its initializer is compiled. */
  function AddLocal(chain: Chain, x: string, level: int): (r: Chain)
    ensures |r| == |chain|
  {
    WithLocals(chain, chain[0].locals + [Local(x, level, false)])
  }

  function Initialized(chain: Chain, level: nat): (r: Chain)
    ensures |r| == |chain|
  {
    var locals := chain[0].locals;
    if locals == [] then chain
    else WithLocals(chain, locals[|locals| - 1 := locals[|locals| - 1].(level := level)])
  }

  /** How many of the newest locals lie in scopes deeper than `level`. */
  function Deeper(locals: seq<Local>, level: int): (r: nat)
    ensures r <= |locals|
  {
    if locals == [] || locals[|locals| - 1].level <= level then 0 else 1 + Deeper(locals[..|locals| - 1], level)
  }

  /** Leaving a scope closes its captured locals and pops the others, the newest first. */
  function EndLocals(locals: seq<Local>, level: int): (r: seq<byte>)
    ensures |r| == Deeper(locals, level)
  {
    if locals == [] || locals[|locals| - 1].level <= level then []
    else [if locals[|locals| - 1].captured then OP_CLOSE_UPVALUE else OP_POP] + EndLocals(locals[..|locals| - 1], level)
  }

  function EndScope(m: Made, level: int): (r: Made)
    ensures r.Made? ==> m.Made? && |r.chain| == |m.chain|
  {
    if !m.Made? then m else
      var locals := m.chain[0].locals;
      Made(m.code + EndLocals(locals, level), m.pool,
        WithLocals(m.chain, locals[..|locals| - Deeper(locals, level)]))
  }

  // ----- statements, declarations and functions -----

  function MakeStmt(s: Statement, c: Spot, pool: seq<Constant>, chain: Chain): (r: Made)
    ensures r.Made? ==> |r.chain| == |chain|
    decreases s, 1
  {
    match s
    case Do(e) => MakeExpr(e, pool, chain).Append([OP_POP])
    case Print(e) => MakeExpr(e, pool, chain).Append([OP_PRINT])
    case Block(items) => EndScope(MakeItems(items, c.(level := c.level + 1), pool, chain), c.level)
    case If(e, t, f) =>
      var (ce, p, after) :- MakeExpr(e, pool, chain);
      var (ct, q, between) :- MakeStmt(t, c.Past(|ce| + 4), p, after);
      var (cf, r, last) :- (if f.None? then Made([], q, between)
                            else MakeStmt(f.value, c.Past(|ce| + 4 + |ct| + 4), q, between));
      if |ct| + 4 > UINT16_MAX || |cf| + 1 > UINT16_MAX then Failed else Made(Codegen.IfCode(ce, ct, cf), r, last)
    case While(e, b) =>
      var (ce, p, after) :- MakeExpr(e, pool, chain);
      var (cb, q, last) :- MakeStmt(b, c.Inside(|ce|), p, after);
      if |ce| + |cb| + 7 > UINT16_MAX then Failed else Made(Codegen.WhileCode(ce, cb), q, last)
    case Continue =>
      if c.loop.NoLoop? then Failed else
        var n := Deeper(chain[0].locals, c.loop.level);
        var back := c.loop.distance + n + 3;
        if back > UINT16_MAX then Failed
        else Made(Codegen.Pops(n) + Codegen.JumpCode(OP_LOOP, back), pool, chain)
    case Return(value) =>
      // only a function can be returned from
      if |chain| == 1 then Failed
      else if value.None? then Made([OP_NIL, OP_RETURN], pool, chain)
      else MakeExpr(value.value, pool, chain).Append([OP_RETURN])
  }

  function MakeInit(init: Option<Expr>, pool: seq<Constant>, chain: Chain): (r: Made)
    ensures r.Made? ==> |r.chain| == |chain|
  {
    match init
    case None => Made([OP_NIL], pool, chain)
    case Some(e) => MakeExpr(e, pool, chain)
  }

  /** Global: the name is a constant before anything else, and its definition follows the value. */
  function Define(def: Made, value: Made): (r: Made)
    requires def.Made?
    ensures r.Made? ==> value.Made? && r.chain == value.chain
  {
    value.Append(def.code)
  }

  function Finish(value: Made, level: nat): (r: Made)
    ensures r.Made? ==> value.Made? && |r.chain| == |value.chain|
  {
    if !value.Made? then value else value.(chain := Initialized(value.chain, level))
  }

  function MakeItem(d: Item, c: Spot, pool: seq<Constant>, chain: Chain): (r: Made)
    ensures r.Made? ==> |r.chain| == |chain|
    decreases d, 2
  {
    match d
    case Stat(s) => MakeStmt(s, c, pool, chain)
    case Var(x, init) =>
      if c.level == 0 then
        var def := WithConstant(OP_DEFINE_GLOBAL, Plain(Str(x)), pool, chain);
        if !def.Made? then def else Define(def, MakeInit(init, def.pool, def.chain))
      else if Declared(chain[0].locals, x, c.level) || |chain[0].locals| > UINT8_MAX then Failed
      else Finish(MakeInit(init, pool, AddLocal(chain, x, -1)), c.level)
    case Fun(x, params, body) =>
      if c.level == 0 then
        var def := WithConstant(OP_DEFINE_GLOBAL, Plain(Str(x)), pool, chain);
        if !def.Made? then def else Define(def, MakeFunction(params, body, def.pool, def.chain))
      else if Declared(chain[0].locals, x, c.level) || |chain[0].locals| > UINT8_MAX then Failed
      else MakeFunction(params, body, pool, AddLocal(chain, x, c.level))
  }

  function MakeItems(ds: seq<Item>, c: Spot, pool: seq<Constant>, chain: Chain): (r: Made)
    ensures r.Made? ==> |r.chain| == |chain|
    decreases ds, 0
  {
    if ds == [] then Made([], pool, chain) else
      var (code, p, after) :- MakeItems(ds[..|ds| - 1], c, pool, chain);
      var (more, q, last) :- MakeItem(ds[|ds| - 1], c.Past(|code|), p, after);
      Made(code + more, q, last)
  }

  /** The slots a function starts with: its own, and its parameters. */
  function Parameters(params: seq<Ident>): (r: seq<Local>)
    ensures |r| == |params| + 1
  {
    [Local("", 0, false)] + seq(|params|, i requires 0 <= i < |params| => Local(params[i], 1, false))
  }

  predicate Distinct(params: seq<Ident>) {
    forall i, j :: 0 <= i < j < |params| ==> params[i] != params[j]
  }

  /** The places in a function's own scope, outside of loops. */
  const BODY := Spot(1, Codegen.NoLoop)
  const TOP := Spot(0, Codegen.NoLoop)

  function Enter(params: seq<Ident>, chain: Chain): (r: Chain)
    ensures |r| == |chain| + 1
  {
    [Level(Parameters(params), [])] + chain
  }

  /** A function is compiled with its own chunk, which becomes a constant of the chunk around it; the
      closure instruction says where its upvalues come from. */
  function MakeFunction(params: seq<Ident>, body: seq<Item>, pool: seq<Constant>, chain: Chain): (r: Made)
    ensures r.Made? ==> |r.chain| == |chain|
    decreases body, 3
  {
    if |params| > UINT8_MAX || !Distinct(params) then Failed else
      var inner := LayItems(body, BODY, Enter(params, chain));
      if !inner.Made? then inner else MakeClosure(|params|, inner, pool)
  }

  /** The chunk of a function, with its constants and what becomes of the chain. */
  function LayItems(body: seq<Item>, c: Spot, chain: Chain): (r: Made)
    ensures r.Made? ==> |r.chain| == |chain|
    decreases body, 2
  {
    var m := MakeItems(body, c, [], chain);
    if !m.Made? then m else
      var o := Lay(ShapeItems(body, c, [], chain), Done([]));
      if o.Unending? then Hung else m.(code := o.code)
  }

  // ----- the pieces of a tree -----

  function ShapeStmt(s: Statement, c: Spot, pool: seq<Constant>, chain: Chain): Piece
    decreases s, 2
  {
    match s
    case Block(items) =>
      var inner := c.(level := c.level + 1);
      var m := MakeItems(items, inner, pool, chain);
      if !m.Made? then Flat([])
      else Both(ShapeItems(items, inner, pool, chain), Flat(EndLocals(m.chain[0].locals, c.level)))
    case If(e, t, f) =>
      var m := MakeExpr(e, pool, chain);
      if !m.Made? then Flat([]) else
        var n := MakeStmt(t, c.Past(|m.code| + 4), m.pool, m.chain);
        if !n.Made? then Flat([])
        else Cond(m.code, ShapeStmt(t, c.Past(|m.code| + 4), m.pool, m.chain),
          if f.None? then Flat([])
          else ShapeStmt(f.value, c.Past(|m.code| + 4 + |n.code| + 4), n.pool, n.chain))
    case While(e, b) =>
      var m := MakeExpr(e, pool, chain);
      if !m.Made? then Flat([]) else Loop(m.code, ShapeStmt(b, c.Inside(|m.code|), m.pool, m.chain))
    case _ => FlatCode(MakeStmt(s, c, pool, chain))
  }

  function FlatCode(m: Made): Piece {
    Flat(if m.Made? then m.code else [])
  }

  function ShapeItem(d: Item, c: Spot, pool: seq<Constant>, chain: Chain): Piece
    decreases d, 3
  {
    if d.Stat? then ShapeStmt(d.s, c, pool, chain) else FlatCode(MakeItem(d, c, pool, chain))
  }

  function ShapeItems(ds: seq<Item>, c: Spot, pool: seq<Constant>, chain: Chain): Piece
    decreases ds, 1
  {
    if ds == [] then Flat([]) else
      var m := MakeItems(ds[..|ds| - 1], c, pool, chain);
      if !m.Made? then Flat([])
      else Both(ShapeItems(ds[..|ds| - 1], c, pool, chain),
        ShapeItem(ds[|ds| - 1], c.Past(|m.code|), m.pool, m.chain))
  }

  /** The end of a function's chunk is the implicit return. */
  function Ended(arity: nat, m: Made): Function
    requires m.Made?
  {
    Function(arity, |m.chain[0].upvalues|, m.code + [OP_NIL, OP_RETURN], m.pool)
  }

  function MakeClosure(arity: nat, inner: Made, pool: seq<Constant>): (r: Made)
    requires inner.Made? && |inner.chain| > 1
    ensures r.Made? ==> |r.chain| + 1 == |inner.chain|
  {
    var upvalues := inner.chain[0].upvalues;
    var k := WithConstant(OP_CLOSURE, Compiled(Ended(arity, inner)), pool, inner.chain[1..]);
    if k.Failed? || !InRange(upvalues) then Failed else k.Append(Operands(upvalues))
  }

  const SCRIPT: Chain := [Level([Local("this", 0, false)], [])]

  /** What becomes of a script: a compile error, a search that never ends, or the function of its top level. */
  datatype Compilation = Rejected | Endless | Accepted(f: Function)

  function MakeScript(ds: seq<Item>): Compilation {
    match LayItems(ds, TOP, SCRIPT)
    case Failed => Rejected
    case Hung => Endless
    case Made(code, pool, chain) => Accepted(Ended(0, Made(code, pool, chain)))
  }

  // ----- where the loops of a tree are -----

  function StmtOutline(s: Statement): Outline
    decreases s, 1
  {
    match s
    case Block(items) => Sequence(ItemsOutline(items), Straight)
    case If(_, t, f) => Branches(StmtOutline(t), if f.None? then Straight else StmtOutline(f.value))
    case While(_, b) => Repeat(StmtOutline(b))
    case _ => Straight
  }

  function ItemOutline(d: Item): Outline
    decreases d, 2
  {
    if d.Stat? then StmtOutline(d.s) else Straight
  }

  function ItemsOutline(ds: seq<Item>): Outline
    decreases ds, 0
  {
    if ds == [] then Straight else Sequence(ItemsOutline(ds[..|ds| - 1]), ItemOutline(ds[|ds| - 1]))
  }

  /** Every function declared in a tree is tame, and so is every function declared in one of those. */
  predicate FunctionsTame(s: Statement)
    decreases s, 1
  {
    match s
    case Block(items) => ItemsTame(items)
    case If(_, t, f) => FunctionsTame(t) && (f.Some? ==> FunctionsTame(f.value))
    case While(_, b) => FunctionsTame(b)
    case _ => true
  }

  predicate ItemTame(d: Item)
    decreases d, 2
  {
    match d
    case Var(_, _) => true
    case Fun(_, _, body) => ItemsOutline(body).Tame() && ItemsTame(body)
    case Stat(s) => FunctionsTame(s)
  }

  predicate ItemsTame(ds: seq<Item>)
    decreases ds, 0
  {
    ds == [] || (ItemsTame(ds[..|ds| - 1]) && ItemTame(ds[|ds| - 1]))
  }

  /** The script and all its functions are tame. */
  predicate Tame(ds: seq<Item>) {
    ItemsOutline(ds).Tame() && ItemsTame(ds)
  }

  /** A chunk, and those of all functions among its constants, have less than 65535 bytes. */
  predicate Compact(f: Function)
    decreases f
  {
    |f.code| < UINT16_MAX && forall i :: 0 <= i < |f.pool| && f.pool[i].Compiled? ==> Compact(f.pool[i].f)
  }

  // ----- the code of compound statements, one level at a time -----

  lemma {:induction false} IfMade(e: Expr, t: Statement, f: Option<Statement>, c: Spot, pool: seq<Constant>,
      chain: Chain)
    ensures MakeStmt(If(e, t, f), c, pool, chain) ==
      var m := MakeExpr(e, pool, chain);
      if !m.Made? then m
      else
        var n := MakeStmt(t, c.Past(|m.code| + 4), m.pool, m.chain);
        if !n.Made? then n
        else
          var k := if f.None? then Made([], n.pool, n.chain)
                   else MakeStmt(f.value, c.Past(|m.code| + 4 + |n.code| + 4), n.pool, n.chain);
          if !k.Made? then k
          else if |n.code| + 4 > UINT16_MAX || |k.code| + 1 > UINT16_MAX then Failed
          else Made(Codegen.IfCode(m.code, n.code, k.code), k.pool, k.chain)
  {
    hide MakeExpr, Codegen.IfCode;
  }

  lemma {:induction false} WhileMade(e: Expr, b: Statement, c: Spot, pool: seq<Constant>, chain: Chain)
    ensures MakeStmt(While(e, b), c, pool, chain) ==
      var m := MakeExpr(e, pool, chain);
      if !m.Made? then m
      else
        var n := MakeStmt(b, c.Inside(|m.code|), m.pool, m.chain);
        if !n.Made? then n
        else if |m.code| + |n.code| + 7 > UINT16_MAX then Failed
        else Made(Codegen.WhileCode(m.code, n.code), n.pool, n.chain)
  {
    hide MakeExpr, Codegen.WhileCode;
  }

  lemma {:induction false} IfPieces(e: Expr, t: Statement, f: Statement, c: Spot, pool: seq<Constant>, chain: Chain)
    requires var m := MakeExpr(e, pool, chain); m.Made? && MakeStmt(t, c.Past(|m.code| + 4), m.pool, m.chain).Made?
    ensures var m := MakeExpr(e, pool, chain);
      var n := MakeStmt(t, c.Past(|m.code| + 4), m.pool, m.chain);
      ShapeStmt(If(e, t, Some(f)), c, pool, chain) ==
        Cond(m.code, ShapeStmt(t, c.Past(|m.code| + 4), m.pool, m.chain),
          ShapeStmt(f, c.Past(|m.code| + 4 + |n.code| + 4), n.pool, n.chain))
  {
    hide MakeExpr, MakeStmt;
  }

  // ----- the pieces have the code and the outline of the tree -----

  lemma {:induction false} StmtShaped(s: Statement, c: Spot, pool: seq<Constant>, chain: Chain)
    requires MakeStmt(s, c, pool, chain).Made?
    ensures Fitting(ShapeStmt(s, c, pool, chain), MakeStmt(s, c, pool, chain).code, StmtOutline(s))
    decreases s, 1
  {
    hide MakeExpr, MakeStmt, MakeItems, Fitting, EndLocals, Deeper;
    match s
    case Block(items) => BlockShaped(items, c, pool, chain);
    case If(e, t, f) => IfShaped(e, t, f, c, pool, chain);
    case While(e, b) => WhileShaped(e, b, c, pool, chain);
    case Do(_) => FlatFitting(MakeStmt(s, c, pool, chain).code);
    case Print(_) => FlatFitting(MakeStmt(s, c, pool, chain).code);
    case Continue => FlatFitting(MakeStmt(s, c, pool, chain).code);
    case Return(_) => FlatFitting(MakeStmt(s, c, pool, chain).code);
  }

  lemma {:induction false} BlockShaped(items: seq<Item>, c: Spot, pool: seq<Constant>, chain: Chain)
    requires MakeStmt(Block(items), c, pool, chain).Made?
    ensures Fitting(ShapeStmt(Block(items), c, pool, chain), MakeStmt(Block(items), c, pool, chain).code,
      StmtOutline(Block(items)))
    decreases Block(items), 0
  {
    hide MakeItems, ShapeItems, ItemsOutline, EndLocals, Deeper, WithLocals, Fitting;
    var inner := c.(level := c.level + 1);
    ItemsShaped(items, inner, pool, chain);
    var m := MakeItems(items, inner, pool, chain);
    var ends := EndLocals(m.chain[0].locals, c.level);
    FlatFitting(ends);
    BothFitting(ShapeItems(items, inner, pool, chain), m.code, ItemsOutline(items), Flat(ends), ends, Straight);
  }

  lemma {:induction false} IfShaped(e: Expr, t: Statement, f: Option<Statement>, c: Spot, pool: seq<Constant>,
      chain: Chain)
    requires MakeStmt(If(e, t, f), c, pool, chain).Made?
    ensures Fitting(ShapeStmt(If(e, t, f), c, pool, chain), MakeStmt(If(e, t, f), c, pool, chain).code,
      StmtOutline(If(e, t, f)))
    decreases If(e, t, f), 0
  {
    hide MakeExpr, MakeStmt, Fitting, Codegen.IfCode;
    IfMade(e, t, f, c, pool, chain);
    var m := MakeExpr(e, pool, chain);
    var past := c.Past(|m.code| + 4);
    StmtShaped(t, past, m.pool, m.chain);
    var n := MakeStmt(t, past, m.pool, m.chain);
    var after := c.Past(|m.code| + 4 + |n.code| + 4);
    if f.None? {
      FlatFitting([]);
      CondFitting(m.code, ShapeStmt(t, past, m.pool, m.chain), n.code, StmtOutline(t), Flat([]), [], Straight);
    } else {
      StmtShaped(f.value, after, n.pool, n.chain);
      CondFitting(m.code, ShapeStmt(t, past, m.pool, m.chain), n.code, StmtOutline(t),
        ShapeStmt(f.value, after, n.pool, n.chain), MakeStmt(f.value, after, n.pool, n.chain).code,
        StmtOutline(f.value));
    }
  }

  lemma {:induction false} WhileShaped(e: Expr, b: Statement, c: Spot, pool: seq<Constant>, chain: Chain)
    requires MakeStmt(While(e, b), c, pool, chain).Made?
    ensures Fitting(ShapeStmt(While(e, b), c, pool, chain), MakeStmt(While(e, b), c, pool, chain).code,
      StmtOutline(While(e, b)))
    decreases While(e, b), 0
  {
    hide MakeExpr, MakeStmt, Fitting, Codegen.WhileCode;
    WhileMade(e, b, c, pool, chain);
    var m := MakeExpr(e, pool, chain);
    var inside := c.Inside(|m.code|);
    StmtShaped(b, inside, m.pool, m.chain);
    LoopFitting(m.code, ShapeStmt(b, inside, m.pool, m.chain), MakeStmt(b, inside, m.pool, m.chain).code,
      StmtOutline(b));
  }

  lemma {:induction false} ItemShaped(d: Item, c: Spot, pool: seq<Constant>, chain: Chain)
    requires MakeItem(d, c, pool, chain).Made?
    ensures Fitting(ShapeItem(d, c, pool, chain), MakeItem(d, c, pool, chain).code, ItemOutline(d))
    decreases d, 2
  {
    hide MakeStmt, MakeInit, MakeFunction, WithConstant, Fitting;
    if d.Stat? {
      StmtShaped(d.s, c, pool, chain);
    } else {
      FlatFitting(MakeItem(d, c, pool, chain).code);
    }
  }

  lemma {:induction false} ItemsShaped(ds: seq<Item>, c: Spot, pool: seq<Constant>, chain: Chain)
    requires MakeItems(ds, c, pool, chain).Made?
    ensures Fitting(ShapeItems(ds, c, pool, chain), MakeItems(ds, c, pool, chain).code, ItemsOutline(ds))
    decreases ds, 0
  {
    hide MakeItem, ShapeItem, ItemOutline, Fitting;
    if ds == [] {
      FlatFitting([]);
    } else {
      var init, last := ds[..|ds| - 1], ds[|ds| - 1];
      var m := MakeItems(init, c, pool, chain);
      ItemsShaped(init, c, pool, chain);
      ItemShaped(last, c.Past(|m.code|), m.pool, m.chain);
      BothFitting(ShapeItems(init, c, pool, chain), m.code, ItemsOutline(init),
        ShapeItem(last, c.Past(|m.code|), m.pool, m.chain), MakeItem(last, c.Past(|m.code|), m.pool, m.chain).code,
        ItemOutline(last));
    }
  }
}
