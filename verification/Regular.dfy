/** For which scripts the chunk is the code of the tree.  A loop that stands in no loop and in no first
    branch of a conditional gets its own exit; a loop around a loop never does. */
module Regular {
  import opened Values
  import opened Syntax
  import opened Bytecode
  import opened Codegen
  import opened ExitSearch
  import opened Laying
  import opened LoopScan
  import opened Nesting
  import opened Patching
  import opened Pieces
  import opened Placing

  predicate HasLoop(s: Stmt) {
    StmtOutline(s).HasLoop()
  }

  predicate LoopFree(ds: seq<Decl>) {
    forall i :: 0 <= i < |ds| && ds[i].Statement? ==> !HasLoop(ds[i].s)
  }

  lemma {:induction false} FreeOutline(ds: seq<Decl>)
    requires LoopFree(ds)
    ensures !Outlined(ds).HasLoop()
    decreases |ds|
  {
    if ds != [] { FreeOutline(ds[..|ds| - 1]); }
  }

  // ----- single statements -----

  /** A statement without loops adds exactly its code to any chunk. */
  lemma PlainStmt(s: Stmt, c: Context, pool: seq<Value>, r: seq<byte>)
    requires GenStmt(s, c, pool).Emit? && !HasLoop(s)
    ensures PlaceStmt(s, c, pool, Done(r)) == Done(r + GenStmt(s, c, pool).code)
  {
    hide GenStmt, PlaceStmt, Lay, ShapeStmt, StmtOutline;
    StmtShaped(s, c, pool);
    PlainLaid(ShapeStmt(s, c, pool), r);
  }

  lemma PlainDecls(ds: seq<Decl>, c: Context, pool: seq<Value>, r: seq<byte>)
    requires GenDecls(ds, c, pool).DeclEmit? && LoopFree(ds)
    ensures PlaceDecls(ds, c, pool, Done(r)) == Done(r + GenDecls(ds, c, pool).code)
  {
    hide GenDecls, PlaceDecls, Lay, ShapeDecls, Outlined, HasLoop;
    FreeOutline(ds);
    DeclsShaped(ds, c, pool);
    PlainLaid(ShapeDecls(ds, c, pool), r);
  }

  /** The condition and the rest of a loop hold no placeholder. */
  lemma {:induction false} TailQuiet(e: Expr, b: Stmt, c: Context, pool: seq<Value>)
    requires GenStmt(WhileLoop(e, b), c, pool).Emit?
    ensures var g := GenExpr(e, c.locals, pool);
      && g.Emit?
      && var h := GenStmt(b, LoopContext(c, |g.code|), g.pool);
        h.Emit? && Quiet(g.code) && Quiet(LoopTail(g.code, h.code))
  {
    hide Quiet, NoPlaceholder, GenExpr, GenStmt;
    WhileShape(e, b, c, pool);
    var g := GenExpr(e, c.locals, pool);
    var h := GenStmt(b, LoopContext(c, |g.code|), g.pool);
    ExprQuiet(e, c.locals, pool);
    StmtQuiet(b, LoopContext(c, |g.code|), g.pool);
    OneByteQuiet(OP_POP);
    QuietLoop(|g.code| + |h.code| + 7);
    QuietAppend([OP_POP], h.code);
    QuietAppend([OP_POP] + h.code, JumpCode(OP_LOOP, |g.code| + |h.code| + 7));
    QuietAppend([OP_POP] + h.code + JumpCode(OP_LOOP, |g.code| + |h.code| + 7), [OP_POP]);
  }

  /** The chunk at the end of a loop without loops in it, before the searches. */
  lemma {:induction false} LoopSearched(e: Expr, b: Stmt, c: Context, pool: seq<Value>, r: seq<byte>)
    requires GenStmt(WhileLoop(e, b), c, pool).Emit? && !HasLoop(b)
    ensures var g := GenExpr(e, c.locals, pool);
      && g.Emit?
      && var h := GenStmt(b, LoopContext(c, |g.code|), g.pool);
        h.Emit? && |g.code| + |h.code| + 7 <= UINT16_MAX &&
        PlaceStmt(WhileLoop(e, b), c, pool, Done(r)) ==
          Searches((r + g.code) + OpenJump(OP_JUMP_IF_FALSE) + LoopTail(g.code, h.code))
  {
    hide GenExpr, GenStmt, StmtOutline, LoopTail, Searches, OpenJump, PlaceStmt, Lay, CodeOf, Fits, WhileCode;
    WhileShape(e, b, c, pool);
    StmtShaped(WhileLoop(e, b), c, pool);
    var g := GenExpr(e, c.locals, pool);
    var inside := LoopContext(c, |g.code|);
    StmtShaped(b, inside, g.pool);
    LoopEmitted(g.code, ShapeStmt(b, inside, g.pool), r);
  }

  /** The code of a loop holds no placeholder, however long the loop is. */
  lemma {:induction false} LoopCodeQuiet(e: Expr, b: Stmt, c: Context, pool: seq<Value>, r: seq<byte>)
    requires GenStmt(WhileLoop(e, b), c, pool).Emit? && NoPlaceholder(r)
    ensures NoPlaceholder(r + GenStmt(WhileLoop(e, b), c, pool).code)
  {
    hide GenExpr, GenStmt, NoPlaceholder, Quiet, LoopTail, WhileCode;
    WhileShape(e, b, c, pool);
    TailQuiet(e, b, c, pool);
    var g := GenExpr(e, c.locals, pool);
    var x := GenStmt(b, LoopContext(c, |g.code|), g.pool).code;
    QuietJump(OP_JUMP_IF_FALSE, |x| + 4);
    QuietAppend(g.code, JumpCode(OP_JUMP_IF_FALSE, |x| + 4));
    QuietAppend(g.code + JumpCode(OP_JUMP_IF_FALSE, |x| + 4), LoopTail(g.code, x));
    TailCode([], g.code, x);
    assert [] + g.code == g.code && [] + WhileCode(g.code, x) == WhileCode(g.code, x);
    assert Aimed(OP_JUMP_IF_FALSE, |x| + 4) == JumpCode(OP_JUMP_IF_FALSE, |x| + 4);
    QuietConcat(r, GenStmt(WhileLoop(e, b), c, pool).code);
  }

  /** A loop behind finished code gets its own code if and only if there is no loop in its body, in a branch or
      anywhere else. */
  lemma {:induction false} LoopAroundLoop(e: Expr, b: Stmt, c: Context, pool: seq<Value>, r: seq<byte>)
    requires GenStmt(WhileLoop(e, b), c, pool).Emit? && NoPlaceholder(r)
    ensures PlaceStmt(WhileLoop(e, b), c, pool, Done(r)) == Done(r + GenStmt(WhileLoop(e, b), c, pool).code)
      <==> !HasLoop(b)
  {
    hide GenExpr, GenStmt, StmtOutline, Lay, NoPlaceholder, Quiet, WhileCode, PlaceStmt, CodeOf, Fits;
    WhileShape(e, b, c, pool);
    StmtShaped(WhileLoop(e, b), c, pool);
    LoopCodeQuiet(e, b, c, pool, r);
    var g := GenExpr(e, c.locals, pool);
    var inside := LoopContext(c, |g.code|);
    StmtShaped(b, inside, g.pool);
    LoopAlone(g.code, ShapeStmt(b, inside, g.pool), r);
  }

  /** And if there is one, a false condition leads back into the loop, to a place before its jump back. */
  lemma {:induction false} NeverLeft(e: Expr, b: Stmt, c: Context, pool: seq<Value>, r: seq<byte>)
    requires GenStmt(WhileLoop(e, b), c, pool).Emit? && NoPlaceholder(r) && HasLoop(b)
    requires PlaceStmt(WhileLoop(e, b), c, pool, Done(r)).Done?
    ensures var g := GenExpr(e, c.locals, pool);
      && g.Emit?
      && var h := GenStmt(b, LoopContext(c, |g.code|), g.pool);
      && h.Emit?
      && var code, exit := PlaceStmt(WhileLoop(e, b), c, pool, Done(r)).code, |r| + |g.code|;
        Finished(code, exit) && exit + 3 + ReadU16(code, exit + 1) < exit + 4 + |h.code|
  {
    hide GenExpr, GenStmt, StmtOutline, Lay, NoPlaceholder, Quiet, WhileCode, PlaceStmt, CodeOf, Fits, Finished,
      Closed;
    WhileShape(e, b, c, pool);
    StmtShaped(WhileLoop(e, b), c, pool);
    TailQuiet(e, b, c, pool);
    var g := GenExpr(e, c.locals, pool);
    var inside := LoopContext(c, |g.code|);
    StmtShaped(b, inside, g.pool);
    QuietConcat(r, g.code);
    QuietCloses(r + g.code);
    ExitLeadsBack(g.code, ShapeStmt(b, inside, g.pool), r);
  }

  // ----- scripts -----

  /** The pieces of a script, but for its implicit return. */
  function ScriptShape(ds: seq<Decl>): Piece {
    ShapeDecls(ds, TOP_LEVEL, [])
  }

  /** Wherever the compilation of a script with no loop in a first branch ends, the chunk is the code of its tree if
      and only if no loop is in a loop; and without those it ends if no loop is in a second branch of a
      second branch. */
  lemma ScriptPlaced(ds: seq<Decl>)
    requires GenScript(ds).Emit? && Clear(ScriptShape(ds), [])
    ensures PlaceScript(ds).Done? ==> (PlaceScript(ds).code == GenScript(ds).code <==> !Outlined(ds).Nested())
    ensures !Outlined(ds).Nested() && Shallow(ScriptShape(ds), false) ==> PlaceScript(ds).Done?
  {
    hide GenDecls, PlaceDecls, ShapeDecls, Outlined, Lay, Near, Clear, Shallow, CodeOf, Fits;
    var p, g := ScriptShape(ds), GenDecls(ds, TOP_LEVEL, []);
    DeclsShaped(ds, TOP_LEVEL, []);
    var o := Lay(p, Done([]));
    if o.Done? {
      NoneNested(p);
      SameFront(o.code, g.code, [OP_NIL, OP_RETURN]);
    }
    if !Nested(p) {
      NearSelf([], []);
      ClearLaid(p, [], [], {});
    }
  }

  lemma SameFront(x: seq<byte>, y: seq<byte>, z: seq<byte>)
    ensures x + z == y + z <==> x == y
  {
    if x + z == y + z {
      assert |x| == |y|;
      assert x == (x + z)[..|x|] && y == (y + z)[..|y|];
    }
  }

  /** Scripts of less than 65535 bytes with no loop in a first branch: wherever compilation ends, the chunk is
      the code of the tree if and only if no loop is in a loop. */
  lemma NestedScript(ds: seq<Decl>)
    requires GenScript(ds).Emit? && |GenScript(ds).code| < UINT16_MAX && Outlined(ds).FirstsPlain()
    ensures PlaceScript(ds).Done? ==> (PlaceScript(ds).code == GenScript(ds).code <==> !Outlined(ds).Nested())
    ensures !Outlined(ds).Nested() && Outlined(ds).SecondsShallow(false) ==> PlaceScript(ds).Done?
  {
    hide GenDecls, PlaceScript, ShapeDecls, Outlined, Clear, Shallow, NoPlaceholder, Quiet, CodeOf, Fits;
    DeclsShaped(ds, TOP_LEVEL, []);
    DeclsQuiet(ds, TOP_LEVEL, []);
    var p := ScriptShape(ds);
    QuietCloses(CodeOf(p));
    assert [] + CodeOf(p) == CodeOf(p);
    PlainIsClear(p, []);
    ScriptPlaced(ds);
    if Outlined(ds).SecondsShallow(false) { SecondsFit(p, false); }
  }

  /** For a tame script of less than 65535 bytes compilation ends with the code of its tree. */
  lemma TameScript(ds: seq<Decl>)
    requires GenScript(ds).Emit? && Outlined(ds).Tame() && |GenScript(ds).code| < UINT16_MAX
    ensures PlaceScript(ds) == Done(GenScript(ds).code)
  {
    hide GenScript, PlaceScript, Outlined;
    NestedScript(ds);
  }
}
