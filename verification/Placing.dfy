/** What the chunk holds after the compiler has passed a tree: the same steps in the same order as
    the compiler takes them, with jumps first open and then patched, and with the searches at the
    end of each loop.  `Regular` proves when this is the code of `Codegen`. */
module Placing {
  import opened Values
  import opened Syntax
  import opened Bytecode
  import opened Codegen
  import opened ExitSearch
  import opened Pieces

  /** The chunk after a statement that has code; trees without code leave none. */
  function PlaceStmt(s: Stmt, c: Context, pool: seq<Value>, at: Outcome): Outcome
    decreases s, 1
  {
    match s
    case Expression(_) => AddCode(at, GenStmt(s, c, pool))
    case PrintStmt(_) => AddCode(at, GenStmt(s, c, pool))
    case ContinueStmt => AddCode(at, GenStmt(s, c, pool))
    case Block(ds) =>
      var inner := c.(level := c.level + 1);
      var g := GenDecls(ds, inner, pool);
      if g.DeclFail? then Unending else Add(PlaceDecls(ds, inner, pool, at), Pops(Above(g.locals, c.level)))
    case IfThen(e, t) => CloseElse(PlaceThen(e, t, c, pool, at), 0)
    case IfElse(e, t, f) => PlaceElse(e, t, f, c, pool, at)
    case WhileLoop(e, b) => PlaceLoop(e, b, c, pool, at)
  }

  function AddCode(at: Outcome, g: Code): Outcome {
    if g.Fail? then Unending else Add(at, g.code)
  }

  /** The condition and the first branch of a conditional, up to the start of the second. */
  function PlaceThen(e: Expr, t: Stmt, c: Context, pool: seq<Value>, at: Outcome): Outcome
    decreases t, 3
  {
    var g := GenExpr(e, c.locals, pool);
    if g.Fail? then Unending else
      var past := c.Past(|g.code| + 4);
      var h := GenStmt(t, past, g.pool);
      if h.Fail? then Unending else CloseThen(PlaceStmt(t, past, g.pool, Guard(at, g.code)), |h.code|)
  }

  function PlaceElse(e: Expr, t: Stmt, f: Stmt, c: Context, pool: seq<Value>, at: Outcome): Outcome
    decreases if t < f then f else t, 4
  {
    var g := GenExpr(e, c.locals, pool);
    if g.Fail? then Unending else
      var h := GenStmt(t, c.Past(|g.code| + 4), g.pool);
      if h.Fail? then Unending else
        var past := c.Past(|g.code| + 4 + |h.code| + 4);
        var k := GenStmt(f, past, h.pool);
        if k.Fail? then Unending
        else CloseElse(PlaceStmt(f, past, h.pool, PlaceThen(e, t, c, pool, at)), |k.code|)
  }

  function PlaceLoop(e: Expr, b: Stmt, c: Context, pool: seq<Value>, at: Outcome): Outcome
    decreases b, 3
  {
    var g := GenExpr(e, c.locals, pool);
    if g.Fail? then Unending else
      var inside := LoopContext(c, |g.code|);
      var h := GenStmt(b, inside, g.pool);
      if h.Fail? then Unending
      else CloseLoop(PlaceStmt(b, inside, g.pool, Guard(at, g.code)), |g.code| + |h.code| + 7)
  }

  function PlaceDecl(d: Decl, c: Context, pool: seq<Value>, at: Outcome): Outcome
    decreases d, 2
  {
    match d
    case Statement(s) => PlaceStmt(s, c, pool, at)
    case VarDecl(_, _) =>
      var g := GenDecl(d, c, pool);
      if g.DeclFail? then Unending else Add(at, g.code)
  }

  function PlaceDecls(ds: seq<Decl>, c: Context, pool: seq<Value>, at: Outcome): Outcome
    decreases ds, 0
  {
    if ds == [] then at else
      var g := GenDecls(ds[..|ds| - 1], c, pool);
      if g.DeclFail? then Unending
      else PlaceDecl(ds[|ds| - 1], c.Past(|g.code|).(locals := g.locals), g.pool,
        PlaceDecls(ds[..|ds| - 1], c, pool, at))
  }

  /** The chunk of a whole script. */
  function PlaceScript(ds: seq<Decl>): Outcome {
    Add(PlaceDecls(ds, TOP_LEVEL, [], Done([])), [OP_NIL, OP_RETURN])
  }

  // ----- the chunk of compound statements, one level at a time -----

  lemma {:induction false} IfThenPlace(e: Expr, t: Stmt, c: Context, pool: seq<Value>, at: Outcome)
    ensures PlaceStmt(IfThen(e, t), c, pool, at) == CloseElse(PlaceThen(e, t, c, pool, at), 0)
  {
  }

  lemma {:induction false} IfElsePlace(e: Expr, t: Stmt, f: Stmt, c: Context, pool: seq<Value>, at: Outcome)
    ensures PlaceStmt(IfElse(e, t, f), c, pool, at) == PlaceElse(e, t, f, c, pool, at)
  {
  }

  lemma {:induction false} WhilePlace(e: Expr, b: Stmt, c: Context, pool: seq<Value>, at: Outcome)
    ensures PlaceStmt(WhileLoop(e, b), c, pool, at) == PlaceLoop(e, b, c, pool, at)
  {
  }

  lemma {:induction false} BlockPlace(ds: seq<Decl>, c: Context, pool: seq<Value>, at: Outcome)
    requires GenStmt(Block(ds), c, pool).Emit?
    ensures var inner := c.(level := c.level + 1);
      && GenDecls(ds, inner, pool).DeclEmit?
      && PlaceStmt(Block(ds), c, pool, at) ==
           Add(PlaceDecls(ds, inner, pool, at), Pops(Above(GenDecls(ds, inner, pool).locals, c.level)))
  {
    hide GenStmt, GenDecls, PlaceDecls, Above, Pops, Add;
    BlockShape(ds, c, pool);
  }

  lemma DeclsPlace(ds: seq<Decl>, d: Decl, c: Context, pool: seq<Value>, at: Outcome)
    requires GenDecls(ds + [d], c, pool).DeclEmit?
    ensures var g := GenDecls(ds, c, pool);
      && g.DeclEmit?
      && var past := c.Past(|g.code|).(locals := g.locals);
        GenDecl(d, past, g.pool).DeclEmit?
        && PlaceDecls(ds + [d], c, pool, at) == PlaceDecl(d, past, g.pool, PlaceDecls(ds, c, pool, at))
  {
    hide GenDecl, PlaceDecl;
    DeclsShape(ds, d, c, pool);
    assert (ds + [d])[..|ds|] == ds;
  }

  // ----- the outline of a tree, and its pieces -----

  function StmtOutline(s: Stmt): Outline
    decreases s, 1
  {
    match s
    case Block(ds) => Sequence(Outlined(ds), Straight)
    case IfThen(_, t) => Branches(StmtOutline(t), Straight)
    case IfElse(_, t, f) => Branches(StmtOutline(t), StmtOutline(f))
    case WhileLoop(_, b) => Repeat(StmtOutline(b))
    case _ => Straight
  }

  function DeclOutline(d: Decl): Outline
    decreases d, 2
  {
    match d
    case Statement(s) => StmtOutline(s)
    case VarDecl(_, _) => Straight
  }

  function Outlined(ds: seq<Decl>): Outline
    decreases ds, 0
  {
    if ds == [] then Straight else Sequence(Outlined(ds[..|ds| - 1]), DeclOutline(ds[|ds| - 1]))
  }

  function ShapeStmt(s: Stmt, c: Context, pool: seq<Value>): Piece
    decreases s, 1
  {
    match s
    case Block(ds) =>
      var inner := c.(level := c.level + 1);
      var g := GenDecls(ds, inner, pool);
      if g.DeclFail? then Flat([]) else Both(ShapeDecls(ds, inner, pool), Flat(Pops(Above(g.locals, c.level))))
    case IfThen(e, t) =>
      var g := GenExpr(e, c.locals, pool);
      if g.Fail? then Flat([]) else Cond(g.code, ShapeStmt(t, c.Past(|g.code| + 4), g.pool), Flat([]))
    case IfElse(e, t, f) =>
      var g := GenExpr(e, c.locals, pool);
      if g.Fail? then Flat([]) else
        var h := GenStmt(t, c.Past(|g.code| + 4), g.pool);
        if h.Fail? then Flat([]) else
          Cond(g.code, ShapeStmt(t, c.Past(|g.code| + 4), g.pool),
            ShapeStmt(f, c.Past(|g.code| + 4 + |h.code| + 4), h.pool))
    case WhileLoop(e, b) =>
      var g := GenExpr(e, c.locals, pool);
      if g.Fail? then Flat([]) else Loop(g.code, ShapeStmt(b, LoopContext(c, |g.code|), g.pool))
    case _ => FlatCode(GenStmt(s, c, pool))
  }

  function FlatCode(g: Code): Piece {
    Flat(if g.Fail? then [] else g.code)
  }

  function ShapeDecl(d: Decl, c: Context, pool: seq<Value>): Piece
    decreases d, 2
  {
    match d
    case Statement(s) => ShapeStmt(s, c, pool)
    case VarDecl(_, _) =>
      var g := GenDecl(d, c, pool);
      Flat(if g.DeclFail? then [] else g.code)
  }

  function ShapeDecls(ds: seq<Decl>, c: Context, pool: seq<Value>): Piece
    decreases ds, 0
  {
    if ds == [] then Flat([]) else
      var g := GenDecls(ds[..|ds| - 1], c, pool);
      if g.DeclFail? then Flat([])
      else Both(ShapeDecls(ds[..|ds| - 1], c, pool),
        ShapeDecl(ds[|ds| - 1], c.Past(|g.code|).(locals := g.locals), g.pool))
  }

  lemma {:induction false} IfElsePieces(e: Expr, t: Stmt, f: Stmt, c: Context, pool: seq<Value>)
    requires var g := GenExpr(e, c.locals, pool); g.Emit? && GenStmt(t, c.Past(|g.code| + 4), g.pool).Emit?
    ensures var g := GenExpr(e, c.locals, pool);
      var h := GenStmt(t, c.Past(|g.code| + 4), g.pool);
      ShapeStmt(IfElse(e, t, f), c, pool) ==
        Cond(g.code, ShapeStmt(t, c.Past(|g.code| + 4), g.pool),
          ShapeStmt(f, c.Past(|g.code| + 4 + |h.code| + 4), h.pool))
  {
    hide GenExpr, GenStmt;
  }

  /** A tree with code consists of pieces: its code and its outline are theirs, and the chunk after it is theirs. */
  lemma {:induction false} StmtShaped(s: Stmt, c: Context, pool: seq<Value>)
    requires GenStmt(s, c, pool).Emit?
    ensures Fitting(ShapeStmt(s, c, pool), GenStmt(s, c, pool).code, StmtOutline(s))
    ensures forall at :: PlaceStmt(s, c, pool, at) == Lay(ShapeStmt(s, c, pool), at)
    decreases s, 1
  {
    hide GenExpr, GenStmt, GenDecls, Above, Pops, IfCode, WhileCode, CloseThen, CloseElse, CloseLoop, Guard, Add,
      Fitting, Lay;
    match s
    case Expression(_) => FlatFitting(GenStmt(s, c, pool).code);
    case PrintStmt(_) => FlatFitting(GenStmt(s, c, pool).code);
    case ContinueStmt => FlatFitting(GenStmt(s, c, pool).code);
    case Block(ds) =>
      var inner := c.(level := c.level + 1);
      BlockShape(ds, c, pool);
      DeclsShaped(ds, inner, pool);
      var g := GenDecls(ds, inner, pool);
      var pops := Pops(Above(g.locals, c.level));
      FlatFitting(pops);
      BothFitting(ShapeDecls(ds, inner, pool), g.code, Outlined(ds), Flat(pops), pops, Straight);
    case IfThen(e, t) =>
      IfThenShape(e, t, c, pool);
      ThenShaped(e, t, c, pool);
      var g := GenExpr(e, c.locals, pool);
      var past := c.Past(|g.code| + 4);
      FlatFitting([]);
      CondFitting(g.code, ShapeStmt(t, past, g.pool), GenStmt(t, past, g.pool).code, StmtOutline(t), Flat([]), [],
        Straight);
      forall at
        ensures PlaceStmt(s, c, pool, at) == Lay(ShapeStmt(s, c, pool), at)
      {
        NothingLaid(PlaceThen(e, t, c, pool, at));
      }
    case IfElse(e, t, f) =>
      IfElseShape(e, t, f, c, pool);
      ThenShaped(e, t, c, pool);
      var g := GenExpr(e, c.locals, pool);
      var h := GenStmt(t, c.Past(|g.code| + 4), g.pool);
      var past := c.Past(|g.code| + 4 + |h.code| + 4);
      StmtShaped(f, past, h.pool);
      CondFitting(g.code, ShapeStmt(t, c.Past(|g.code| + 4), g.pool), h.code, StmtOutline(t),
        ShapeStmt(f, past, h.pool), GenStmt(f, past, h.pool).code, StmtOutline(f));
    case WhileLoop(e, b) =>
      WhileShape(e, b, c, pool);
      var g := GenExpr(e, c.locals, pool);
      var inside := LoopContext(c, |g.code|);
      StmtShaped(b, inside, g.pool);
      LoopFitting(g.code, ShapeStmt(b, inside, g.pool), GenStmt(b, inside, g.pool).code, StmtOutline(b));
  }

  lemma NothingLaid(at: Outcome)
    ensures Add(at, []) == at
  {
    if at.Done? { assert at.code + [] == at.code; }
  }

  /** The condition and the first branch of a conditional. */
  lemma {:induction false} ThenShaped(e: Expr, t: Stmt, c: Context, pool: seq<Value>)
    requires var g := GenExpr(e, c.locals, pool); g.Emit? && GenStmt(t, c.Past(|g.code| + 4), g.pool).Emit?
    ensures var g := GenExpr(e, c.locals, pool);
      var h := GenStmt(t, c.Past(|g.code| + 4), g.pool);
      var p := ShapeStmt(t, c.Past(|g.code| + 4), g.pool);
      && Fitting(p, h.code, StmtOutline(t))
      && forall at :: PlaceThen(e, t, c, pool, at) == CloseThen(Lay(p, Guard(at, g.code)), |h.code|)
    decreases t, 3
  {
    hide GenExpr, GenStmt, CloseThen, Guard, Fitting, Lay;
    StmtShaped(t, c.Past(|GenExpr(e, c.locals, pool).code| + 4), GenExpr(e, c.locals, pool).pool);
  }

  lemma {:induction false} DeclShaped(d: Decl, c: Context, pool: seq<Value>)
    requires GenDecl(d, c, pool).DeclEmit?
    ensures Fitting(ShapeDecl(d, c, pool), GenDecl(d, c, pool).code, DeclOutline(d))
    ensures forall at :: PlaceDecl(d, c, pool, at) == Lay(ShapeDecl(d, c, pool), at)
    decreases d, 2
  {
    hide GenStmt, GenExpr, Add, Fitting, Lay;
    if d.Statement? {
      StmtShaped(d.s, c, pool);
    } else {
      FlatFitting(GenDecl(d, c, pool).code);
    }
  }

  lemma {:induction false} DeclsShaped(ds: seq<Decl>, c: Context, pool: seq<Value>)
    requires GenDecls(ds, c, pool).DeclEmit?
    ensures Fitting(ShapeDecls(ds, c, pool), GenDecls(ds, c, pool).code, Outlined(ds))
    ensures forall at :: PlaceDecls(ds, c, pool, at) == Lay(ShapeDecls(ds, c, pool), at)
    decreases ds, 0
  {
    hide GenDecl, PlaceDecl, ShapeDecl, DeclOutline, Add, Fitting, Lay;
    if ds == [] {
      FlatFitting([]);
      forall at
        ensures PlaceDecls(ds, c, pool, at) == Lay(ShapeDecls(ds, c, pool), at)
      {
        NothingLaid(at);
      }
    } else {
      var g := GenDecls(ds[..|ds| - 1], c, pool);
      DeclsShaped(ds[..|ds| - 1], c, pool);
      var past := c.Past(|g.code|).(locals := g.locals);
      DeclShaped(ds[|ds| - 1], past, g.pool);
      BothFitting(ShapeDecls(ds[..|ds| - 1], c, pool), g.code, Outlined(ds[..|ds| - 1]),
        ShapeDecl(ds[|ds| - 1], past, g.pool), GenDecl(ds[|ds| - 1], past, g.pool).code, DeclOutline(ds[|ds| - 1]));
    }
  }

  /** The chunk grows by as many bytes as the tree's code has. */
  lemma StmtGrown(s: Stmt, c: Context, pool: seq<Value>, at: Outcome)
    requires GenStmt(s, c, pool).Emit?
    ensures var r := PlaceStmt(s, c, pool, at);
      r.Done? ==> at.Done? && |r.code| == |at.code| + |GenStmt(s, c, pool).code|
  {
    hide GenStmt, PlaceStmt, ShapeStmt, Lay;
    StmtShaped(s, c, pool);
    LayGrown(ShapeStmt(s, c, pool), at);
  }
}
