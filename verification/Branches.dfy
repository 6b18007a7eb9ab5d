/** Loops whose exit the search may get wrong: the exact conditions at the level of trees, and scripts
    that meet them. */
module Branches {
  import opened Values
  import opened Syntax
  import opened Bytecode
  import opened Codegen
  import opened ExitSearch
  import opened Laying
  import opened LoopScan
  import opened Patching
  import opened Pieces
  import opened Placing
  import opened Regular

  /** What the first search leaves has no open jump of the second kind. */
  lemma NoBreaks(x: seq<byte>, other: seq<byte>, y: seq<byte>, z: seq<byte>, i: nat)
    requires Closed(x, OP_JUMP) && Sealed(other, OP_JUMP) && Sealed(y, OP_JUMP) && Sealed(z, OP_JUMP)
    ensures var r := OneResult(Exits, x + other + y, z, i);
      r.Done? ==> Search(Breaks, r.code, 0) == r
  {
    hide Closed, Search, Aimed;
    var front := x + other + y;
    ClosedJoin(x, other, OP_JUMP);
    ClosedJoin(x + other, y, OP_JUMP);
    var r := OneResult(Exits, front, z, i);
    AimedOpen(OP_JUMP_IF_FALSE, 65535);
    var next := (i + |front|) % 256;
    ClosedAround(front, OP_JUMP_IF_FALSE, Distance(Exits, z) - i, z, OP_JUMP);
    ClosedAround(front, OP_JUMP_IF_FALSE, Distance(Exits, z) - next, z, OP_JUMP);
    ClosedAround(front, OP_JUMP_IF_FALSE, 65535, z, OP_JUMP);
    if r.Done? { ClosedIsOver(Breaks, r.code, 0); }
  }

  /** Both searches at the end of a loop with condition `c` and body `b`, with an open jump at `|x|`. */
  lemma SearchesInBranch(x: seq<byte>, y: seq<byte>, c: seq<byte>, b: seq<byte>)
    requires NoPlaceholder(x) && Quiet(y) && Quiet(c) && Quiet(LoopTail(c, b))
    requires |y| + |WhileCode(c, b)| <= UINT16_MAX
    ensures var r := Searches((x + OpenJump(OP_JUMP_IF_FALSE) + y + c) + OpenJump(OP_JUMP_IF_FALSE) + LoopTail(c, b));
      var front := x + Aimed(OP_JUMP_IF_FALSE, |y| + |WhileCode(c, b)| - 1) + y;
      var exit := |x| + 3 + |y| + |c|;
      && (r.Unending? <==> |b| + 5 == |x| % 256 && exit % 256 == 0)
      && (r == Done(front + WhileCode(c, b)) <==>
            |x| % 256 == 0 || (|b| + 5 == |x| % 256 && (|x| + exit) % 256 == 0))
      && r == OneResult(Exits, front + c, LoopTail(c, b), |x| % 256)
      && (r.Done? ==> front <= r.code)
  {
    hide NoPlaceholder, Quiet, Closed, WhileCode, LoopTail, Search, Aimed;
    var y', z := y + c, LoopTail(c, b);
    var other := Aimed(OP_JUMP_IF_FALSE, OtherDistance(Exits, y', z));
    QuietAppend(y, c);
    QuietCloses(x);
    QuietCloses(y');
    QuietCloses(z);
    assert x + OpenJump(OP_JUMP_IF_FALSE) + y + c + OpenJump(OP_JUMP_IF_FALSE) + z
        == TwoOpen(OP_JUMP_IF_FALSE, x, y', z);
    TwoUnending(Exits, x, y', z);
    OwnExitRight(Exits, x, y', z);
    TwoSearched(Exits, x, y', z);
    JumpSealed(OP_JUMP_IF_FALSE, OtherDistance(Exits, y', z), OP_JUMP);
    NoBreaks(x, other, y', z, |x| % 256);
    TailCode(x + other + y, c, b);
    assert x + other + y' == x + other + y + c;
  }

  lemma RestOfLoop(c: seq<byte>, b: seq<byte>)
    ensures WhileCode(c, b)[|c| + 3..] == LoopTail(c, b)
  {
    hide LoopTail, WhileCode, Aimed;
    TailCode([], c, b);
    assert [] + c == c && [] + WhileCode(c, b) == WhileCode(c, b);
  }

  /** A loop in a chunk with one open conditional jump: that of a conditional around it, or the exit of a loop
      around it.  Compilation never ends if and only if the rest of the loop behind its exit jump has as many
      bytes as the other jump's offset has in its low byte, and the exit jump is at a multiple of 256.  The loop
      gets its own code if and only if the other jump is at a multiple of 256, or the rest has that many
      bytes and the two offsets add up to a multiple of 256.  In every case the other jump is aimed at the bottom
      of this loop.  The end of a conditional mends that; the exit of a loop keeps it (`Regular.LoopAroundLoop`). */
  lemma {:induction false} LoopInBranch(e: Expr, b: Stmt, c: Context, pool: seq<Value>, x: seq<byte>, y: seq<byte>)
    requires GenStmt(WhileLoop(e, b), c, pool).Emit? && !HasLoop(b) && NoPlaceholder(x) && Quiet(y)
    requires |y| + |GenStmt(WhileLoop(e, b), c, pool).code| <= UINT16_MAX
    ensures var g := GenExpr(e, c.locals, pool);
      var code := GenStmt(WhileLoop(e, b), c, pool).code;
      var rest := |code| - |g.code| - 3;
      var exit := |x| + 3 + |y| + |g.code|;
      var r := PlaceStmt(WhileLoop(e, b), c, pool, Done(x + OpenJump(OP_JUMP_IF_FALSE) + y));
      var front := x + Aimed(OP_JUMP_IF_FALSE, |y| + |code| - 1) + y;
      && (r.Unending? <==> rest == |x| % 256 && exit % 256 == 0)
      && (r == Done(front + code) <==>
            |x| % 256 == 0 || (rest == |x| % 256 && (|x| + exit) % 256 == 0))
      && r == OneResult(Exits, front + g.code, code[|g.code| + 3..], |x| % 256)
      && (r.Done? ==> front <= r.code)
  {
    hide GenExpr, GenStmt, PlaceStmt, HasLoop, NoPlaceholder, Quiet, WhileCode, LoopTail, Searches, Aimed, OpenJump;
    WhileShape(e, b, c, pool);
    LoopSearched(e, b, c, pool, x + OpenJump(OP_JUMP_IF_FALSE) + y);
    TailQuiet(e, b, c, pool);
    var g := GenExpr(e, c.locals, pool);
    var body := GenStmt(b, LoopContext(c, |g.code|), g.pool).code;
    SearchesInBranch(x, y, g.code, body);
    RestOfLoop(g.code, body);
  }

  /** Both searches when the jump back is missing. */
  lemma SearchesTooLarge(x: seq<byte>, b: seq<byte>)
    requires NoPlaceholder(x) && Quiet(b) && |b| < UINT16_MAX
    ensures Searches(x + OpenJump(OP_JUMP_IF_FALSE) + ([OP_POP] + b + [OP_POP])).Unending? <==>
      |b| == 65534 && |x| % 256 == 0
  {
    hide NoPlaceholder, Quiet, Closed, Search, Aimed;
    var y := [OP_POP] + b + [OP_POP];
    OneByteQuiet(OP_POP);
    QuietAppend([OP_POP], b);
    QuietAppend([OP_POP] + b, [OP_POP]);
    QuietCloses(x);
    QuietCloses(y);
    OneUnending(Exits, x, y);
    OneOpen(Exits, x, y, 0);
    QuietEmpty();
    QuietCloses([]);
    NoBreaks(x, [], [], y, 0);
    assert x + [] + [] == x;
  }

  /** A loop whose jump back would be too long: the error is reported, the jump is left out, and the
      search is made all the same.  It never ends if and only if the body has 65534 bytes, so that the
      exit's distance reads like a placeholder, and the exit jump is at a multiple of 256. */
  lemma {:induction false} LoopTooLarge(e: Expr, b: Stmt, c: Context, pool: seq<Value>, r: seq<byte>)
    requires var g := GenExpr(e, c.locals, pool);
      && g.Emit?
      && var h := GenStmt(b, LoopContext(c, |g.code|), g.pool);
        h.Emit? && |g.code| < UINT16_MAX && |h.code| < UINT16_MAX < |g.code| + |h.code| + 7
    requires !HasLoop(b) && NoPlaceholder(r)
    ensures var g := GenExpr(e, c.locals, pool);
      var h := GenStmt(b, LoopContext(c, |g.code|), g.pool);
      PlaceLoop(e, b, c, pool, Done(r)).Unending? <==> |h.code| == 65534 && (|r| + |g.code|) % 256 == 0
  {
    hide GenExpr, GenStmt, HasLoop, NoPlaceholder, Quiet, Searches;
    var g := GenExpr(e, c.locals, pool);
    var h := GenStmt(b, LoopContext(c, |g.code|), g.pool);
    ExprQuiet(e, c.locals, pool);
    StmtQuiet(b, LoopContext(c, |g.code|), g.pool);
    QuietConcat(r, g.code);
    PlainStmt(b, LoopContext(c, |g.code|), g.pool, r + (g.code + OpenJump(OP_JUMP_IF_FALSE) + [OP_POP]));
    SearchesTooLarge(r + g.code, h.code);
    assert r + (g.code + OpenJump(OP_JUMP_IF_FALSE) + [OP_POP]) + h.code + [] + [OP_POP]
        == (r + g.code) + OpenJump(OP_JUMP_IF_FALSE) + ([OP_POP] + h.code + [OP_POP]);
  }

  // ----- scripts -----

  const ONE: Expr := Literal(Number(Ranked(1)))
  const A: Expr := Variable("a")
  const SET: Stmt := Stmt.Expression(Assign("a", ONE))

  /** `n` times `a = 1;` */
  function Times(n: nat): seq<Decl> {
    seq(n, _ => Decl.Statement(SET))
  }

  /** `var a = 1; var b = 1; if (a) { a = 1; ... while (a) a = 1; }` with `n` assignments before the loop. */
  function Script(n: nat): seq<Decl> {
    [VarDecl("a", Some(ONE)), VarDecl("b", Some(ONE)),
     Decl.Statement(IfThen(A, Block(Times(n) + [Decl.Statement(WhileLoop(A, SET))])))]
  }

  const POOL: seq<Value> := [Str("a"), Number(Ranked(1)), Str("b")]
  const LOAD: seq<byte> := [OP_GET_GLOBAL, 0]
  const STORE: seq<byte> := [OP_CONSTANT, 1, OP_SET_GLOBAL, 0, OP_POP]

  /** The constants when only the variable `a` is declared. */
  const LESS: seq<Value> := [Str("a"), Number(Ranked(1))]

  lemma LoadsFrom(c: Context, pool: seq<Value>)
    requires c.locals == TOP_LEVEL.locals && LESS <= pool
    ensures GenExpr(A, c.locals, pool) == Emit(LOAD, pool)
    ensures GenStmt(SET, c, pool) == Emit(STORE, pool)
  {
    assert pool[0] == LESS[0] && pool[1] == LESS[1];
    assert Resolve(c.locals, "a") == -1;
    assert IndexOf(pool, Str("a"), 0) == 0;
    assert IndexOf(pool, Number(Ranked(1)), 0) == 1;
  }

  lemma Loads(c: Context)
    requires c.locals == TOP_LEVEL.locals
    ensures GenExpr(A, c.locals, POOL) == Emit(LOAD, POOL)
    ensures GenStmt(SET, c, POOL) == Emit(STORE, POOL)
  {
    LoadsFrom(c, POOL);
  }

  /** The declarations `ds` leave the constants of the scripts and no local, and have `n` bytes. */
  ghost predicate Sized(ds: seq<Decl>, c: Context, pool: seq<Value>, n: nat) {
    var g := GenDecls(ds, c, pool);
    g.DeclEmit? && |g.code| == n && g.pool == POOL && g.locals == c.locals == TOP_LEVEL.locals
  }

  lemma {:induction false} TimesAfter(ds: seq<Decl>, k: nat, n: nat, c: Context, pool: seq<Value>)
    requires Sized(ds, c, pool, k)
    ensures Sized(ds + Times(n), c, pool, k + 5 * n)
    decreases n
  {
    hide GenStmt, GenDecls;
    if n == 0 {
      assert ds + Times(0) == ds;
    } else {
      TimesAfter(ds, k, n - 1, c, pool);
      assert ds + Times(n) == ds + Times(n - 1) + [Decl.Statement(SET)];
      DeclsShape(ds + Times(n - 1), Decl.Statement(SET), c, pool);
      Loads(c.Past(k + 5 * (n - 1)));
    }
  }

  lemma TimesCode(n: nat, c: Context)
    requires c.locals == TOP_LEVEL.locals
    ensures Sized(Times(n), c, POOL, 5 * n)
  {
    assert GenDecls([], c, POOL) == DeclEmit([], POOL, c.locals);
    TimesAfter([], 0, n, c, POOL);
    assert [] + Times(n) == Times(n);
  }

  /** The block of the script: the assignments and the loop. */
  lemma {:induction false} BlockCode(n: nat, c: Context)
    requires c.locals == TOP_LEVEL.locals
    ensures var loop := Decl.Statement(WhileLoop(A, SET));
      var g := GenDecls(Times(n), c, POOL);
      && g.DeclEmit?
      && GenDecls(Times(n) + [loop], c, POOL) == DeclEmit(g.code + WhileCode(LOAD, STORE), POOL, c.locals)
      && GenStmt(WhileLoop(A, SET), c.Past(|g.code|), POOL) == Emit(WhileCode(LOAD, STORE), POOL)
      && GenExpr(A, c.locals, POOL) == Emit(LOAD, POOL)
  {
    hide GenStmt, GenExpr, WhileCode;
    TimesCode(n, c);
    var past := c.Past(5 * n);
    DeclsShape(Times(n), Decl.Statement(WhileLoop(A, SET)), c, POOL);
    WhileShape(A, SET, past, POOL);
    Loads(past);
    Loads(LoopContext(past, 2));
    assert past.(locals := c.locals) == past;
  }

  const FRONT: seq<byte> := [OP_CONSTANT, 1, OP_DEFINE_GLOBAL, 0, OP_CONSTANT, 1, OP_DEFINE_GLOBAL, 2]
  const GLOBALS: seq<Decl> := [VarDecl("a", Some(ONE)), VarDecl("b", Some(ONE))]

  lemma FrontCode()
    ensures GenDecls(GLOBALS, TOP_LEVEL, []) == DeclEmit(FRONT, POOL, TOP_LEVEL.locals)
  {
    hide GenDecl;
    var first, second := VarDecl("a", Some(ONE)), VarDecl("b", Some(ONE));
    assert GenDecls([], TOP_LEVEL, []) == DeclEmit([], [], TOP_LEVEL.locals);
    DeclsShape([], first, TOP_LEVEL, []);
    DeclsShape([first], second, TOP_LEVEL, []);
    assert [] + [first] == [first] && [first] + [second] == GLOBALS;
    FrontDecl();
    assert [] + FIRST == FIRST;
  }

  lemma FrontDecl()
    ensures GenDecl(VarDecl("a", Some(ONE)), TOP_LEVEL, []) ==
      DeclEmit(FIRST, LESS, TOP_LEVEL.locals)
    ensures GenDecl(VarDecl("b", Some(ONE)), TOP_LEVEL, LESS) ==
      DeclEmit([OP_CONSTANT, 1, OP_DEFINE_GLOBAL, 2], POOL, TOP_LEVEL.locals)
  {
    assert IndexOf([], Str("a"), 0) == 0;
    assert IndexOf([Str("a")], Number(Ranked(1)), 0) == 1;
    assert IndexOf(LESS, Str("b"), 0) == 2;
    assert IndexOf(POOL, Number(Ranked(1)), 0) == 1;
  }

  /** The conditional jump of the script, and everything in its branch before the loop. */
  const BEFORE: seq<byte> := FRONT + LOAD

  function Prefix(n: nat): seq<byte>
    requires GenDecls(Times(n), TOP_LEVEL.(level := 1), POOL).DeclEmit?
  {
    [OP_POP] + GenDecls(Times(n), TOP_LEVEL.(level := 1), POOL).code
  }

  function Branch(n: nat): Stmt {
    Block(Times(n) + [Decl.Statement(WhileLoop(A, SET))])
  }

  /** The chunk at the end of the branch. */
  lemma {:induction false} BranchChunk(n: nat)
    requires 5 * n + 16 <= UINT16_MAX
    ensures GenDecls(Times(n), TOP_LEVEL.(level := 1), POOL).DeclEmit?
    ensures var w := WhileCode(LOAD, STORE);
      && |Prefix(n)| == 5 * n + 1
      && GenStmt(Branch(n), TOP_LEVEL, POOL) == Emit(Prefix(n)[1..] + w, POOL)
      && var o := PlaceStmt(Branch(n), TOP_LEVEL, POOL, Guard(Done(FRONT), LOAD));
        var other := Aimed(OP_JUMP_IF_FALSE, 5 * n + 15);
        && (o.Unending? <==> (5 * n + 16) % 256 == 0)
        && (o == Done(BEFORE + other + Prefix(n) + w) <==> (5 * n + 26) % 256 == 0)
        && o == OneResult(Exits, BEFORE + other + Prefix(n) + LOAD, w[|LOAD| + 3..], |BEFORE| % 256)
        && (o.Done? ==> BEFORE + other + Prefix(n) <= o.code && |o.code| == 5 * n + 29)
  {
    hide GenStmt, GenExpr, GenDecls, PlaceStmt, PlaceDecls, WhileCode, Aimed, NoPlaceholder, Quiet, HasLoop;
    var inner := TOP_LEVEL.(level := 1);
    var ds, loop := Times(n), WhileLoop(A, SET);
    BlockCode(n, inner);
    TimesCode(n, inner);
    var g := GenDecls(ds, inner, POOL);
    BlockShape(ds + [Decl.Statement(loop)], TOP_LEVEL, POOL);
    assert Above(inner.locals, 0) == 0;
    assert g.code + WhileCode(LOAD, STORE) + [] == g.code + WhileCode(LOAD, STORE);
    assert Prefix(n)[1..] == g.code;
    var at := FRONT + (LOAD + OpenJump(OP_JUMP_IF_FALSE) + [OP_POP]);
    BranchPlace(n, at);
    assert at + g.code == BEFORE + OpenJump(OP_JUMP_IF_FALSE) + Prefix(n);
    DeclsQuiet(ds, inner, POOL);
    OneByteQuiet(OP_POP);
    QuietAppend([OP_POP], g.code);
    BeforeQuiet();
    SetIsPlain();
    LoopInBranch(A, SET, inner, POOL, BEFORE, Prefix(n));
    StmtGrown(loop, inner, POOL, Done(at + g.code));
  }

  lemma SetIsPlain()
    ensures !HasLoop(SET)
  {
  }

  lemma BeforeQuiet()
    ensures NoPlaceholder(BEFORE)
  {
  }

  /** The branch places its loop behind its assignments. */
  lemma {:induction false} BranchPlace(n: nat, at: seq<byte>)
    ensures var inner := TOP_LEVEL.(level := 1);
      var g := GenDecls(Times(n), inner, POOL);
      && g.DeclEmit? && GenStmt(WhileLoop(A, SET), inner, POOL).Emit? && GenStmt(Branch(n), TOP_LEVEL, POOL).Emit?
      && PlaceStmt(Branch(n), TOP_LEVEL, POOL, Done(at)) ==
           PlaceStmt(WhileLoop(A, SET), inner, POOL, Done(at + g.code))
  {
    hide GenStmt, GenExpr, GenDecls, PlaceStmt, PlaceDecls, WhileCode, HasLoop;
    var inner := TOP_LEVEL.(level := 1);
    var ds, loop := Times(n), Decl.Statement(WhileLoop(A, SET));
    BlockCode(n, inner);
    TimesCode(n, inner);
    BlockShape(ds + [loop], TOP_LEVEL, POOL);
    BlockPlace(ds + [loop], TOP_LEVEL, POOL, Done(at));
    DeclsPlace(ds, loop, inner, POOL, Done(at));
    SetIsPlain();
    SetsArePlain(n);
    PlainDecls(ds, inner, POOL, at);
    assert Above(inner.locals, 0) == 0;
    var o := PlaceDecls(ds + [loop], inner, POOL, Done(at));
    if o.Done? { assert o.code + [] == o.code; }
  }

  lemma SetsArePlain(n: nat)
    ensures LoopFree(Times(n))
  {
  }

  /** The end of a conditional without second branch overwrites whatever distance its jump had. */
  lemma BranchCloses(x: seq<byte>, d: int, t: seq<byte>)
    requires |t| + 4 <= UINT16_MAX
    ensures CloseElse(CloseThen(Done(x + Aimed(OP_JUMP_IF_FALSE, d) + ([OP_POP] + t)), |t|), 0) ==
      Done(x + JumpCode(OP_JUMP_IF_FALSE, |t| + 4) + ([OP_POP] + t) + (JumpCode(OP_JUMP, 1) + [OP_POP]))
  {
    var y, op := [OP_POP] + t, OP_JUMP_IF_FALSE;
    var code := x + Aimed(op, d) + y + OpenJump(OP_JUMP);
    assert Patch(code, |x| + 1, |t| + 4) == x + JumpCode(op, |t| + 4) + y + OpenJump(OP_JUMP);
    var front := x + JumpCode(op, |t| + 4) + y;
    PatchedJump(front, OP_JUMP, [OP_POP], 1);
    assert front + OpenJump(OP_JUMP) + [OP_POP] == Patch(code, |x| + 1, |t| + 4) + [OP_POP];
    assert front + JumpCode(OP_JUMP, 1) + [OP_POP] == front + (JumpCode(OP_JUMP, 1) + [OP_POP]);
  }

  /** Different branches give different conditionals. */
  lemma BranchesDiffer(x: seq<byte>, y: seq<byte>, v: seq<byte>, w: seq<byte>, z: seq<byte>)
    requires |v| == |w|
    ensures x + (y + v) + z == x + (y + w) + z <==> v == w
  {
    Middle(x, y + v, z);
    Middle(x, y + w, z);
    assert (y + v)[|y|..] == v && (y + w)[|y|..] == w;
  }

  /** The conditional is the intended one if and only if what its branch ends with is. */
  lemma BranchEnds(d: int, t: seq<byte>, v: seq<byte>, w: seq<byte>)
    requires |v| == |w| && |t + v| + 4 <= UINT16_MAX
    ensures var o := CloseThen(Done(BEFORE + Aimed(OP_JUMP_IF_FALSE, d) + ([OP_POP] + (t + v))), |t + v|);
      CloseElse(o, 0).Done? && (CloseElse(o, 0) == Done(FRONT + IfCode(LOAD, t + w, [])) <==> v == w)
  {
    hide Aimed, JumpCode, CloseThen, CloseElse, IfCode;
    BranchCloses(BEFORE, d, t + v);
    IfOnly(LOAD, t + w);
    var front, tail := BEFORE + JumpCode(OP_JUMP_IF_FALSE, |t + w| + 4), JumpCode(OP_JUMP, 1) + [OP_POP];
    BranchesDiffer(front, [OP_POP] + t, v, w, tail);
    assert [OP_POP] + t + v == [OP_POP] + (t + v) && [OP_POP] + t + w == [OP_POP] + (t + w);
  }

  /** A chunk that begins like the branch ends with the loop or with something else. */
  lemma BranchSplits(code: seq<byte>, x: seq<byte>, t: seq<byte>, w: seq<byte>) returns (v: seq<byte>)
    requires x + ([OP_POP] + t) <= code && |code| == |x| + 1 + |t| + |w|
    ensures |v| == |w| && code == x + ([OP_POP] + (t + v))
    ensures code == x + ([OP_POP] + t) + w <==> v == w
  {
    v := code[|x| + 1 + |t|..];
    assert code == x + ([OP_POP] + t) + v;
    assert x + ([OP_POP] + t) + v == x + ([OP_POP] + (t + v));
    assert code[|x| + 1 + |t|..] == v && (x + ([OP_POP] + t) + w)[|x| + 1 + |t|..] == w;
  }

  /** The whole conditional. */
  lemma {:induction false} ConditionalChunk(n: nat)
    requires 5 * n + 19 <= UINT16_MAX
    ensures GenStmt(IfThen(A, Branch(n)), TOP_LEVEL, POOL).Emit?
    ensures var s := IfThen(A, Branch(n));
      var o := PlaceStmt(s, TOP_LEVEL, POOL, Done(FRONT));
      && (o.Unending? <==> (5 * n + 16) % 256 == 0)
      && (o == Done(FRONT + GenStmt(s, TOP_LEVEL, POOL).code) <==> (5 * n + 26) % 256 == 0)
  {
    hide GenStmt, GenExpr, GenDecls, PlaceStmt, PlaceDecls, WhileCode, IfCode, Aimed, Branch, CloseThen, CloseElse;
    BranchChunk(n);
    Loads(TOP_LEVEL);
    IfThenShape(A, Branch(n), TOP_LEVEL, POOL);
    IfThenPlace(A, Branch(n), TOP_LEVEL, POOL, Done(FRONT));
    var w, t, other := WhileCode(LOAD, STORE), Prefix(n)[1..], Aimed(OP_JUMP_IF_FALSE, 5 * n + 15);
    var o := PlaceStmt(Branch(n), TOP_LEVEL, POOL, Guard(Done(FRONT), LOAD));
    assert Prefix(n) == [OP_POP] + t;
    if o.Done? {
      var v := BranchSplits(o.code, BEFORE + other, t, w);
      assert |t + v| == |t + w|;
      BranchEnds(5 * n + 15, t, v, w);
    } else {
      CloseUnending(|t + w|);
    }
  }

  lemma CloseUnending(n: nat)
    ensures CloseElse(CloseThen(Unending, n), 0) == Unending
  {
  }

  lemma IfOnly(c: seq<byte>, t: seq<byte>)
    ensures FRONT + IfCode(c, t, []) ==
      FRONT + c + JumpCode(OP_JUMP_IF_FALSE, |t| + 4) + ([OP_POP] + t) + (JumpCode(OP_JUMP, 1) + [OP_POP])
  {
    hide JumpCode;
  }

  /** `var a = 1; var b = 1; if (a) { a = 1; ... while (a) a = 1; }`: with `n` assignments before the loop,
      compilation never ends exactly if 5n + 16 is a multiple of 256, and gives the code of the tree exactly
      if 5n + 26 is one. */
  lemma LoopAfterAssignments(n: nat)
    requires 5 * n + 19 <= UINT16_MAX
    ensures GenScript(Script(n)).Emit?
    ensures PlaceScript(Script(n)).Unending? <==> (5 * n + 16) % 256 == 0
    ensures PlaceScript(Script(n)) == Done(GenScript(Script(n)).code) <==> (5 * n + 26) % 256 == 0
  {
    hide GenStmt, GenDecls, PlaceStmt, PlaceDecls, HasLoop, Branch;
    var d := Decl.Statement(IfThen(A, Branch(n)));
    ScriptParts(n);
    ConditionalChunk(n);
    FrontCode();
    DeclsShape(GLOBALS, d, TOP_LEVEL, []);
    DeclsPlace(GLOBALS, d, TOP_LEVEL, [], Done([]));
    PlainDecls(GLOBALS, TOP_LEVEL, [], []);
    assert [] + FRONT == FRONT;
    var g := GenStmt(d.s, TOP_LEVEL, POOL);
    var o := PlaceStmt(d.s, TOP_LEVEL, POOL, Done(FRONT));
    if o.Done? {
      StmtGrown(d.s, TOP_LEVEL, POOL, Done(FRONT));
      BranchesDiffer([], [], o.code, FRONT + g.code, [OP_NIL, OP_RETURN]);
      assert [] + ([] + o.code) == o.code && [] + ([] + (FRONT + g.code)) == FRONT + g.code;
    }
  }

  lemma ScriptParts(n: nat)
    ensures Script(n) == GLOBALS + [Decl.Statement(IfThen(A, Branch(n)))]
  {
  }

  /** 48 assignments: compilation never ends.  46: only the third turn of the search gets the exit right, with
      the other jump at offset 10.  None: the exit is wrong. */
  lemma ThreeScripts()
    ensures GenScript(Script(48)).Emit? && PlaceScript(Script(48)).Unending?
    ensures GenScript(Script(46)).Emit? && PlaceScript(Script(46)) == Done(GenScript(Script(46)).code)
    ensures GenScript(Script(0)).Emit? && PlaceScript(Script(0)).Done?
    ensures PlaceScript(Script(0)).code != GenScript(Script(0)).code
  {
    hide GenScript, PlaceScript, Script;
    LoopAfterAssignments(48);
    LoopAfterAssignments(46);
    LoopAfterAssignments(0);
  }

  /** The chunk of the last of them: the exit jump, at offset 16, still has the distance of an open jump. */
  const OPEN_EXIT: seq<byte> :=
    FRONT + LOAD + [OP_JUMP_IF_FALSE, 19, 0, OP_POP] + LOAD + [OP_JUMP_IF_FALSE, 255, 255, OP_POP] + STORE
    + [OP_LOOP, 14, 0, OP_POP] + [OP_JUMP, 1, 0, OP_POP] + [OP_NIL, OP_RETURN]

  const EXIT_AT := 16

  lemma ExitLeftOpen()
    ensures GenScript(Script(0)).Emit? && GenScript(Script(0)).pool == POOL
    ensures PlaceScript(Script(0)) == Done(OPEN_EXIT)
  {
    hide GenStmt, GenDecls, PlaceStmt, PlaceDecls, StmtOutline, Branch;
    var d := Decl.Statement(IfThen(A, Branch(0)));
    ScriptParts(0);
    ConditionalChunk(0);
    OpenConditional();
    FrontCode();
    DeclsShape(GLOBALS, d, TOP_LEVEL, []);
    DeclsPlace(GLOBALS, d, TOP_LEVEL, [], Done([]));
    PlainDecls(GLOBALS, TOP_LEVEL, [], []);
    assert [] + FRONT == FRONT;
  }

  lemma {:induction false} OpenConditional()
    ensures GenStmt(IfThen(A, Branch(0)), TOP_LEVEL, POOL).Emit?
    ensures GenStmt(IfThen(A, Branch(0)), TOP_LEVEL, POOL).pool == POOL
    ensures PlaceStmt(IfThen(A, Branch(0)), TOP_LEVEL, POOL, Done(FRONT)) == Done(OPEN_EXIT[..33])
  {
    hide GenStmt, GenExpr, GenDecls, PlaceStmt, PlaceDecls, Branch, CloseThen, CloseElse, WhileCode, Aimed, JumpCode;
    BranchChunk(0);
    Loads(TOP_LEVEL);
    IfThenShape(A, Branch(0), TOP_LEVEL, POOL);
    IfThenPlace(A, Branch(0), TOP_LEVEL, POOL, Done(FRONT));
    NoAssignments();
    OpenTail();
    var t := LOAD + OpenJump(OP_JUMP_IF_FALSE) + OPEN_EXIT[19..29];
    var x := BEFORE + Aimed(OP_JUMP_IF_FALSE, 15);
    assert x + Prefix(0) + LOAD + OpenJump(OP_JUMP_IF_FALSE) + OPEN_EXIT[19..29] == x + ([OP_POP] + t);
    BranchCloses(BEFORE, 15, t);
  }

  lemma OpenTail()
    ensures WhileCode(LOAD, STORE)[|LOAD| + 3..] == OPEN_EXIT[19..29]
    ensures var t := LOAD + OpenJump(OP_JUMP_IF_FALSE) + OPEN_EXIT[19..29];
      && |t| == 15
      && BEFORE + JumpCode(OP_JUMP_IF_FALSE, |t| + 4) + ([OP_POP] + t) + (JumpCode(OP_JUMP, 1) + [OP_POP])
         == OPEN_EXIT[..33]
  {
  }

  lemma NoAssignments()
    ensures GenDecls(Times(0), TOP_LEVEL.(level := 1), POOL).DeclEmit? && Prefix(0) == [OP_POP]
    ensures |Prefix(0)[1..] + WhileCode(LOAD, STORE)| == 15
  {
  }

  const READ: Stmt := Stmt.Expression(A)

  function Reads(n: nat): seq<Decl> {
    seq(n, _ => Decl.Statement(READ))
  }

  lemma {:induction false} ReadsAfter(ds: seq<Decl>, k: nat, n: nat, c: Context, pool: seq<Value>)
    requires Sized(ds, c, pool, k)
    ensures Sized(ds + Reads(n), c, pool, k + 3 * n)
    decreases n
  {
    hide GenDecls, GenExpr;
    if n == 0 {
      assert ds + Reads(0) == ds;
    } else {
      ReadsAfter(ds, k, n - 1, c, pool);
      assert ds + Reads(n) == ds + Reads(n - 1) + [Decl.Statement(READ)];
      DeclsShape(ds + Reads(n - 1), Decl.Statement(READ), c, pool);
      Loads(c.Past(k + 3 * (n - 1)));
    }
  }

  const FILL: seq<Decl> := GLOBALS + Times(48) + Reads(2)
  const LARGE: Stmt := Block(Times(13105) + Reads(3))

  /** `var a = 1; var b = 1;`, 48 times `a = 1;`, `a; a;` and `while (a) { ... }` with 13105 times `a = 1;`
      and three times `a;`: the loop is reported as too large, but its search never ends. */
  lemma {:induction false} LargeLoopHangs()
    ensures GenDecls(FILL, TOP_LEVEL, []).DeclEmit? && |GenDecls(FILL, TOP_LEVEL, []).code| == 254
    ensures GenExpr(A, TOP_LEVEL.locals, POOL).Emit?
    ensures GenStmt(LARGE, LoopContext(TOP_LEVEL, |GenExpr(A, TOP_LEVEL.locals, POOL).code|),
      GenExpr(A, TOP_LEVEL.locals, POOL).pool).Emit?
    ensures GenStmt(WhileLoop(A, LARGE), TOP_LEVEL, POOL).Fail?
    ensures PlaceLoop(A, LARGE, TOP_LEVEL, POOL, PlaceDecls(FILL, TOP_LEVEL, [], Done([]))).Unending?
  {
    hide GenDecls, GenStmt, GenExpr, PlaceDecls, PlaceLoop, HasLoop, NoPlaceholder, Quiet;
    FrontCode();
    TimesAfter(GLOBALS, 8, 48, TOP_LEVEL, []);
    ReadsAfter(GLOBALS + Times(48), 248, 2, TOP_LEVEL, []);
    Loads(TOP_LEVEL);
    LargeCode();
    WhileShape(A, LARGE, TOP_LEVEL, POOL);
    FillPlain();
    var g := GenDecls(FILL, TOP_LEVEL, []);
    PlainDecls(FILL, TOP_LEVEL, [], []);
    NoneBefore(g.code);
    DeclsQuiet(FILL, TOP_LEVEL, []);
    QuietCloses(g.code);
    FromQuiet(g.code);
    LoopTooLarge(A, LARGE, TOP_LEVEL, POOL, g.code);
  }

  lemma NoneBefore(code: seq<byte>)
    ensures [] + code == code
  {
  }

  lemma FromQuiet(code: seq<byte>)
    requires Quiet(code)
    ensures NoPlaceholder(code)
  {
  }

  lemma FillPlain()
    ensures LoopFree(FILL) && !HasLoop(LARGE)
  {
    assert LoopFree(Times(13105) + Reads(3));
    FreeOutline(Times(13105) + Reads(3));
  }

  lemma LargeCode()
    ensures var g := GenStmt(LARGE, LoopContext(TOP_LEVEL, 2), POOL);
      g.Emit? && |g.code| == 65534
  {
    hide GenDecls, GenStmt;
    var inner := LoopContext(TOP_LEVEL, 2).(level := 2);
    TimesCode(13105, inner);
    ReadsAfter(Times(13105), 65525, 3, inner, POOL);
    BlockShape(Times(13105) + Reads(3), LoopContext(TOP_LEVEL, 2), POOL);
    assert Above(inner.locals, 1) == 0;
  }

  // ----- a loop around a loop -----

  const INNER: Stmt := WhileLoop(A, SET)
  const OUTER: Stmt := WhileLoop(A, INNER)

  /** `var a = 1; while (a) while (a) a = 1;` */
  const TWICE: seq<Decl> := [VarDecl("a", Some(ONE)), Decl.Statement(OUTER)]

  const FIRST: seq<byte> := [OP_CONSTANT, 1, OP_DEFINE_GLOBAL, 0]

  /** The outer exit, at offset 6, leads to offset 24, where the jump back to the outer condition begins. */
  const NEVER_LEFT: seq<byte> :=
    FIRST + LOAD + [OP_JUMP_IF_FALSE, 15, 0, OP_POP] + LOAD + [OP_JUMP_IF_FALSE, 3, 0, OP_POP] + STORE
    + [OP_LOOP, 14, 0, OP_POP] + [OP_LOOP, 24, 0, OP_POP] + [OP_NIL, OP_RETURN]

  lemma FirstCode()
    ensures GenDecls(TWICE[..1], TOP_LEVEL, []) == DeclEmit(FIRST, LESS, TOP_LEVEL.locals)
    ensures PlaceDecls(TWICE[..1], TOP_LEVEL, [], Done([])) == Done(FIRST)
  {
    hide GenDecl, PlaceDecls;
    var a := VarDecl("a", Some(ONE));
    assert GenDecls([], TOP_LEVEL, []) == DeclEmit([], [], TOP_LEVEL.locals);
    DeclsShape([], a, TOP_LEVEL, []);
    assert [] + [a] == TWICE[..1] && [] + FIRST == FIRST;
    FrontDecl();
    PlainDecls(TWICE[..1], TOP_LEVEL, [], []);
  }

  lemma {:induction false} InnerPlaced()
    ensures var inside := LoopContext(TOP_LEVEL, |LOAD|);
      && GenStmt(INNER, inside, LESS) == Emit(WhileCode(LOAD, STORE), LESS)
      && PlaceStmt(INNER, inside, LESS, Guard(Done(FIRST), LOAD)) == Done(NEVER_LEFT[..25])
  {
    hide GenStmt, GenExpr, PlaceStmt, NoPlaceholder, Quiet, StmtOutline, WhileCode, Aimed;
    var inside, x := LoopContext(TOP_LEVEL, |LOAD|), FIRST + LOAD;
    LoadsFrom(inside, LESS);
    LoadsFrom(LoopContext(inside, |LOAD|), LESS);
    WhileShape(A, SET, inside, LESS);
    SetIsPlain();
    OneByteQuiet(OP_POP);
    NoneOpen(x);
    LoopInBranch(A, SET, inside, LESS, x, [OP_POP]);
    InnerBytes();
    assert FIRST + (LOAD + OpenJump(OP_JUMP_IF_FALSE) + [OP_POP]) == x + OpenJump(OP_JUMP_IF_FALSE) + [OP_POP];
  }

  lemma InnerBytes()
    ensures |WhileCode(LOAD, STORE)| == 15
    ensures OneResult(Exits, FIRST + LOAD + Aimed(OP_JUMP_IF_FALSE, 15) + [OP_POP] + LOAD,
      WhileCode(LOAD, STORE)[|LOAD| + 3..], 6) == Done(NEVER_LEFT[..25])
  {
    OpenTail();
    assert OPEN_EXIT[19..29] == NEVER_LEFT[15..25];
  }

  lemma NoneOpen(code: seq<byte>)
    requires forall i :: 0 <= i < |code| ==> code[i] != 255
    ensures NoPlaceholder(code)
  {
  }

  lemma JumpsBack()
    ensures NEVER_LEFT[..25] + JumpCode(OP_LOOP, 24) + [OP_POP] == NEVER_LEFT[..29]
  {
  }

  lemma {:induction false} OuterPlaced()
    ensures GenStmt(OUTER, TOP_LEVEL, LESS) == Emit(WhileCode(LOAD, WhileCode(LOAD, STORE)), LESS)
    ensures PlaceStmt(OUTER, TOP_LEVEL, LESS, Done(FIRST)) == Done(NEVER_LEFT[..29])
  {
    hide GenStmt, GenExpr, PlaceStmt, NoPlaceholder, Search, WhileCode, JumpCode;
    LoadsFrom(TOP_LEVEL, LESS);
    InnerPlaced();
    InnerBytes();
    WhileShape(A, INNER, TOP_LEVEL, LESS);
    WhilePlace(A, INNER, TOP_LEVEL, LESS, Done(FIRST));
    var code := NEVER_LEFT[..29];
    JumpsBack();
    NoneOpen(code);
    QuietCloses(code);
    ClosedIsOver(Exits, code, 0);
    ClosedIsOver(Breaks, code, 0);
  }

  /** The script compiles, and its chunk is not the code of its tree. */
  lemma NestedLoops()
    ensures GenScript(TWICE).Emit? && PlaceScript(TWICE) == Done(NEVER_LEFT) && NEVER_LEFT != GenScript(TWICE).code
  {
    hide GenStmt, GenDecls, PlaceStmt, PlaceDecls, WhileCode;
    var d := Decl.Statement(OUTER);
    FirstCode();
    OuterPlaced();
    assert TWICE == TWICE[..1] + [d];
    DeclsShape(TWICE[..1], d, TOP_LEVEL, []);
    DeclsPlace(TWICE[..1], d, TOP_LEVEL, [], Done([]));
    OuterMeant();
  }

  /** The distance that is meant is 19. */
  lemma OuterMeant()
    ensures (FIRST + WhileCode(LOAD, WhileCode(LOAD, STORE)))[7] == 19
  {
  }
}
