/** What the compiler emits for a syntax tree: the code bytes, the constant pool after them and,
    for declarations, the compile-time picture of the stack.  `Fail` is a compile error. */
module Codegen {
  import opened Values
  import opened Syntax
  import opened Bytecode

  /** A compile-time stack slot; level -1 marks a local whose initializer is being compiled. */
  datatype Local = Local(name: string, level: Level)

  type Level = l: int | -1 <= l

  datatype Code = Fail | Emit(code: seq<byte>, pool: seq<Value>) {
    predicate IsFailure() { Fail? }
    function PropagateFailure(): Code requires Fail? { Fail }
    function Extract(): (seq<byte>, seq<Value>) requires Emit? { (code, pool) }
    function Append(tail: seq<byte>): Code { if Fail? then Fail else Emit(code + tail, pool) }
  }

  datatype DeclCode = DeclFail | DeclEmit(code: seq<byte>, pool: seq<Value>, locals: seq<Local>)

  /** The newest slot named `x`, or -1. */
  function Resolve(locals: seq<Local>, x: string): (r: int)
    ensures -1 <= r < |locals|
    ensures r >= 0 ==> locals[r].name == x
    ensures forall k :: r < k < |locals| ==> locals[k].name != x
  {
    if locals == [] then -1
    else if locals[|locals| - 1].name == x then |locals| - 1
    else Resolve(locals[..|locals| - 1], x)
  }

  /** The pool index of the first constant equal to `v` from `i` on, or the pool size. */
  function IndexOf(pool: seq<Value>, v: Value, i: nat): (r: nat)
    requires i <= |pool|
    ensures i <= r <= |pool|
    ensures r < |pool| ==> ValueEqual(pool[r], v)
    ensures forall k :: i <= k < r ==> !ValueEqual(pool[k], v)
    decreases |pool| - i
  {
    if i == |pool| || ValueEqual(pool[i], v) then i else IndexOf(pool, v, i + 1)
  }

  function AddConstant(pool: seq<Value>, v: Value): seq<Value> {
    if IndexOf(pool, v, 0) < |pool| then pool else pool + [v]
  }

  /** One byte of opcode and the index of `v` in the pool. */
  function WithConstant(op: byte, v: Value, pool: seq<Value>): Code {
    var i := IndexOf(pool, v, 0);
    if i > UINT8_MAX then Fail else Emit([op, i], AddConstant(pool, v))
  }

  /** Access to the variable `x`: by slot if it is a local, by name otherwise.  The name of a
      global enters the pool before an assigned expression is compiled. */
  function Access(local: byte, global: byte, x: Ident, locals: seq<Local>, pool: seq<Value>): Code {
    var r := Resolve(locals, x);
    if r == -1 then WithConstant(global, Str(x), pool)
    else if r > UINT8_MAX || locals[r].level == -1 then Fail
    else Emit([local, r], pool)
  }

  function BinaryCode(op: BinOp): seq<byte> {
    match op
    case Arithmetic(Plus) => [OP_ADD]
    case Arithmetic(Minus) => [OP_SUBTRACT]
    case Arithmetic(Times) => [OP_MULTIPLY]
    case Arithmetic(Divide) => [OP_DIVIDE]
    case Arithmetic(Modulo) => [OP_MOD]
    case Arithmetic(ShiftLeft) => [OP_SHL]
    case Arithmetic(ShiftRight) => [OP_SHR]
    case Eq => [OP_EQUAL]
    case Ne => [OP_EQUAL, OP_NOT]
    case Lt => [OP_LESS]
    case Gt => [OP_GREATER]
    case Le => [OP_GREATER, OP_NOT]
    case Ge => [OP_LESS, OP_NOT]
  }

  function UnaryCode(op: UnOp): seq<byte> {
    match op
    case Neg => [OP_NEGATE]
    case Not => [OP_NOT]
  }

  function LiteralCode(v: Value, pool: seq<Value>): Code {
    match v
    case Nil => Emit([OP_NIL], pool)
    case Bool(b) => Emit([if b then OP_TRUE else OP_FALSE], pool)
    case _ => WithConstant(OP_CONSTANT, v, pool)
  }

  /** Left operand, conditional jump over the right one, right operand. */
  function ShortCircuit(jump: byte, left: seq<byte>, right: Code): Code {
    if right.Fail? || |right.code| + 1 > UINT16_MAX then Fail
    else Emit(left + ([jump] + U16(|right.code| + 1) + [OP_POP]) + right.code, right.pool)
  }

  function GenExpr(e: Expr, locals: seq<Local>, pool: seq<Value>): Code
    decreases e, 1
  {
    match e
    case Literal(v) => LiteralCode(v, pool)
    case Variable(x) => Access(OP_GET_LOCAL, OP_GET_GLOBAL, x, locals, pool)
    case Assign(x, rhs) =>
      var (store, p) :- Access(OP_SET_LOCAL, OP_SET_GLOBAL, x, locals, pool);
      var (c, q) :- GenExpr(rhs, locals, p);
      Emit(c + store, q)
    case Unary(op, a) => GenExpr(a, locals, pool).Append(UnaryCode(op))
    case Binary(op, a, b) =>
      var (c, p) :- GenExpr(a, locals, pool);
      var (d, q) :- GenExpr(b, locals, p);
      Emit(c + d + BinaryCode(op), q)
    case Conj(a, b) =>
      var (c, p) :- GenExpr(a, locals, pool);
      ShortCircuit(OP_JUMP_IF_FALSE, c, GenExpr(b, locals, p))
    case Disj(a, b) =>
      var (c, p) :- GenExpr(a, locals, pool);
      ShortCircuit(OP_JUMP_IF_TRUE, c, GenExpr(b, locals, p))
    case Call(f, args) =>
      var (c, p) :- GenExpr(f, locals, pool);
      var (d, q) :- GenArgs(args, locals, p);
      if |args| > UINT8_MAX then Fail else Emit(c + d + [OP_CALL, |args|], q)
  }

  function GenArgs(args: seq<Expr>, locals: seq<Local>, pool: seq<Value>): Code
    decreases args, 0
  {
    if args == [] then Emit([], pool) else
      var (c, p) :- GenArgs(args[..|args| - 1], locals, pool);
      var (d, q) :- GenExpr(args[|args| - 1], locals, p);
      Emit(c + d, q)
  }

  /** The enclosing loop, if any: how many bytes back its top is, and the scope level outside it. */
  datatype Loop = NoLoop | InLoop(distance: nat, level: nat)

  /** Everything compiled code depends on besides the tree: the slots, the scope level and the loop. */
  datatype Context = Context(locals: seq<Local>, level: nat, loop: Loop) {
    /** The same place, `n` bytes further on. */
    function Past(n: nat): Context {
      this.(loop := if loop.NoLoop? then NoLoop else InLoop(loop.distance + n, loop.level))
    }
  }

  function Pops(n: nat): (r: seq<byte>)
    ensures |r| == n && forall i :: 0 <= i < n ==> r[i] == OP_POP
  {
    seq(n, _ => OP_POP)
  }

  /** How many of the newest locals lie in scopes deeper than `level`. */
  function Above(locals: seq<Local>, level: int): (r: nat)
    ensures r <= |locals|
    ensures forall i :: |locals| - r <= i < |locals| ==> locals[i].level > level
    ensures r < |locals| ==> locals[|locals| - r - 1].level <= level
  {
    if locals == [] || locals[|locals| - 1].level <= level then 0
    else 1 + Above(locals[..|locals| - 1], level)
  }

  function JumpCode(op: byte, d: nat): (r: seq<byte>)
    ensures |r| == 3
  {
    [op] + U16(d)
  }

  function IfCode(c: seq<byte>, t: seq<byte>, e: seq<byte>): (r: seq<byte>)
    ensures |r| == |c| + |t| + |e| + 8
  {
    c + (JumpCode(OP_JUMP_IF_FALSE, |t| + 4) + [OP_POP]) + t
      + (JumpCode(OP_JUMP, |e| + 1) + [OP_POP]) + e
  }

  function WhileCode(c: seq<byte>, b: seq<byte>): (r: seq<byte>)
    ensures |r| == |c| + |b| + 8
  {
    c + (JumpCode(OP_JUMP_IF_FALSE, |b| + 4) + [OP_POP]) + b
      + (JumpCode(OP_LOOP, |c| + |b| + 7) + [OP_POP])
  }

  /** The body of a loop whose condition takes `n` bytes: one scope deeper, past the condition
      and the exit jump with its pop. */
  function LoopContext(c: Context, n: nat): Context {
    Context(c.locals, c.level + 1, InLoop(n + 4, c.level))
  }

  function GenStmt(s: Stmt, c: Context, pool: seq<Value>): Code
    decreases s, 1
  {
    match s
    case Expression(e) => GenExpr(e, c.locals, pool).Append([OP_POP])
    case PrintStmt(e) => GenExpr(e, c.locals, pool).Append([OP_PRINT])
    case Block(ds) =>
      var g := GenDecls(ds, c.(level := c.level + 1), pool);
      if g.DeclFail? then Fail
      else Emit(g.code + Pops(Above(g.locals, c.level)), g.pool)
    case IfThen(e, t) =>
      var (ce, p) :- GenExpr(e, c.locals, pool);
      var (ct, q) :- GenStmt(t, c.Past(|ce| + 4), p);
      if |ct| + 4 > UINT16_MAX then Fail else Emit(IfCode(ce, ct, []), q)
    case IfElse(e, t, f) =>
      var (ce, p) :- GenExpr(e, c.locals, pool);
      var (ct, q) :- GenStmt(t, c.Past(|ce| + 4), p);
      var (cf, r) :- GenStmt(f, c.Past(|ce| + 4 + |ct| + 4), q);
      if |ct| + 4 > UINT16_MAX || |cf| + 1 > UINT16_MAX then Fail else Emit(IfCode(ce, ct, cf), r)
    case WhileLoop(e, b) =>
      var (ce, p) :- GenExpr(e, c.locals, pool);
      var (cb, q) :- GenStmt(b, LoopContext(c, |ce|), p);
      if |ce| + |cb| + 7 > UINT16_MAX then Fail else Emit(WhileCode(ce, cb), q)
    case ContinueStmt =>
      if c.loop.NoLoop? then Fail else
        var n := Above(c.locals, c.loop.level);
        var back := c.loop.distance + n + 3;
        if back > UINT16_MAX then Fail else Emit(Pops(n) + JumpCode(OP_LOOP, back), pool)
  }

  /** Is `x` already declared in the current scope? */
  predicate AlreadyDeclared(locals: seq<Local>, x: string, level: nat) {
    exists i :: 0 <= i < |locals| && locals[i] == Local(x, level)
  }

  function GenInit(init: Option<Expr>, locals: seq<Local>, pool: seq<Value>): Code {
    match init
    case None => Emit([OP_NIL], pool)
    case Some(e) => GenExpr(e, locals, pool)
  }

  function GenDecl(d: Decl, c: Context, pool: seq<Value>): DeclCode
    decreases d, 2
  {
    match d
    case Statement(s) =>
      var g := GenStmt(s, c, pool);
      if g.Fail? then DeclFail else DeclEmit(g.code, g.pool, c.locals)
    case VarDecl(x, init) =>
      if c.level == 0 then
        var def := WithConstant(OP_DEFINE_GLOBAL, Str(x), pool);
        if def.Fail? then DeclFail else
          var g := GenInit(init, c.locals, def.pool);
          if g.Fail? then DeclFail else DeclEmit(g.code + def.code, g.pool, c.locals)
      else if AlreadyDeclared(c.locals, x, c.level) || |c.locals| > UINT8_MAX then DeclFail
      else
        var g := GenInit(init, c.locals + [Local(x, -1)], pool);
        if g.Fail? then DeclFail else DeclEmit(g.code, g.pool, c.locals + [Local(x, c.level)])
  }

  function GenDecls(ds: seq<Decl>, c: Context, pool: seq<Value>): DeclCode
    decreases ds, 0
  {
    if ds == [] then DeclEmit([], pool, c.locals) else
      var g := GenDecls(ds[..|ds| - 1], c, pool);
      if g.DeclFail? then DeclFail else
        var h := GenDecl(ds[|ds| - 1], c.Past(|g.code|).(locals := g.locals), g.pool);
        if h.DeclFail? then DeclFail else DeclEmit(g.code + h.code, h.pool, h.locals)
  }

  const TOP_LEVEL := Context([Local("this", 0)], 0, NoLoop)

  /** A whole script, with the implicit return at its end. */
  function GenScript(ds: seq<Decl>): Code {
    var g := GenDecls(ds, TOP_LEVEL, []);
    if g.DeclFail? then Fail else Emit(g.code + [OP_NIL, OP_RETURN], g.pool)
  }

  // ----- the code of compound trees, one level at a time -----

  lemma {:induction false} BinaryShape(op: BinOp, a: Expr, b: Expr, locals: seq<Local>, pool: seq<Value>)
    ensures GenExpr(Binary(op, a, b), locals, pool) ==
      var g := GenExpr(a, locals, pool);
      if g.Fail? then Fail
      else
        var h := GenExpr(b, locals, g.pool);
        if h.Fail? then Fail else Emit(g.code + h.code + BinaryCode(op), h.pool)
  {
    hide BinaryCode;
  }

  lemma {:induction false} ShortShape(a: Expr, b: Expr, locals: seq<Local>, pool: seq<Value>)
    ensures GenExpr(Conj(a, b), locals, pool) ==
      var g := GenExpr(a, locals, pool);
      if g.Fail? then Fail else ShortCircuit(OP_JUMP_IF_FALSE, g.code, GenExpr(b, locals, g.pool))
    ensures GenExpr(Disj(a, b), locals, pool) ==
      var g := GenExpr(a, locals, pool);
      if g.Fail? then Fail else ShortCircuit(OP_JUMP_IF_TRUE, g.code, GenExpr(b, locals, g.pool))
  {
    hide ShortCircuit;
  }

  lemma {:induction false} IfElseShape(e: Expr, x: Stmt, y: Stmt, c: Context, pool: seq<Value>)
    ensures GenStmt(IfElse(e, x, y), c, pool) ==
      var g := GenExpr(e, c.locals, pool);
      if g.Fail? then Fail
      else
        var h := GenStmt(x, c.Past(|g.code| + 4), g.pool);
        if h.Fail? then Fail
        else
          var f := GenStmt(y, c.Past(|g.code| + 4 + |h.code| + 4), h.pool);
          if f.Fail? || |h.code| + 4 > UINT16_MAX || |f.code| + 1 > UINT16_MAX then Fail
          else Emit(IfCode(g.code, h.code, f.code), f.pool)
  {
    hide GenExpr, GenDecls, IfCode, WhileCode, Above, Pops, JumpCode, LoopContext;
  }

  lemma {:induction false} IfThenShape(e: Expr, x: Stmt, c: Context, pool: seq<Value>)
    ensures GenStmt(IfThen(e, x), c, pool) ==
      var g := GenExpr(e, c.locals, pool);
      if g.Fail? then Fail
      else
        var h := GenStmt(x, c.Past(|g.code| + 4), g.pool);
        if h.Fail? || |h.code| + 4 > UINT16_MAX then Fail else Emit(IfCode(g.code, h.code, []), h.pool)
  {
    hide GenExpr, GenDecls, IfCode, WhileCode, Above, Pops, JumpCode, LoopContext;
  }

  lemma {:induction false} WhileShape(e: Expr, b: Stmt, c: Context, pool: seq<Value>)
    ensures GenStmt(WhileLoop(e, b), c, pool) ==
      var g := GenExpr(e, c.locals, pool);
      if g.Fail? then Fail
      else
        var h := GenStmt(b, LoopContext(c, |g.code|), g.pool);
        if h.Fail? || |g.code| + |h.code| + 7 > UINT16_MAX then Fail else Emit(WhileCode(g.code, h.code), h.pool)
  {
    hide GenExpr, GenDecls, IfCode, WhileCode, Above, Pops, JumpCode;
  }

  lemma {:induction false} BlockShape(ds: seq<Decl>, c: Context, pool: seq<Value>)
    ensures GenStmt(Block(ds), c, pool) ==
      var g := GenDecls(ds, c.(level := c.level + 1), pool);
      if g.DeclFail? then Fail else Emit(g.code + Pops(Above(g.locals, c.level)), g.pool)
  {
    hide GenExpr, GenDecls, IfCode, WhileCode, Above, Pops, JumpCode;
  }

  lemma DeclsShape(ds: seq<Decl>, d: Decl, c: Context, pool: seq<Value>)
    ensures var g := GenDecls(ds, c, pool);
      GenDecls(ds + [d], c, pool) ==
        if g.DeclFail? then DeclFail
        else
          var h := GenDecl(d, c.Past(|g.code|).(locals := g.locals), g.pool);
          if h.DeclFail? then DeclFail else DeclEmit(g.code + h.code, h.pool, h.locals)
  {
    hide GenDecl;
    assert (ds + [d])[..|ds|] == ds;
  }
}
