/** What the single-pass compiler has to produce from a position in the token list: the grammar and
    the code generator put together. */
module Emissions {
  import opened Values
  import opened Syntax
  import opened Bytecode
  import opened Codegen
  import opened Grammar
  import opened ExitSearch
  import opened Pieces
  import opened Placing
  import Scoping
  import Statements

  datatype Emission = Rejected | Emitted(code: seq<byte>, pool: seq<Value>, pos: nat)

  function Emitting(c: Code, pos: nat): Emission {
    if c.Fail? then Rejected else Emitted(c.code, c.pool, pos)
  }

  ghost function ExprEmission(p: Parsed<Expr>, locals: seq<Local>, pool: seq<Value>): Emission {
    if p.Bad? then Rejected else Emitting(GenExpr(p.value, locals, pool), p.pos)
  }

  ghost function PrecEmission(ts: seq<Token>, i: nat, prec: nat, locals: seq<Local>, pool: seq<Value>): Emission {
    ExprEmission(ParsePrec(ts, i, prec), locals, pool)
  }

  ghost function InfixEmission(ts: seq<Token>, i: nat, prec: nat, left: Expr, locals: seq<Local>,
      pool: seq<Value>): Emission
    requires i <= |ts|
  {
    ExprEmission(ParseInfix(ts, i, prec, left), locals, pool)
  }

  function Append(e: Emission, tail: seq<byte>): Emission {
    if e.Rejected? then Rejected else Emitted(e.code + tail, e.pool, e.pos)
  }

  /** What an infix token emits after the code of its left operand, given its right operand. */
  function InfixTail(t: Token, e: Emission): Emission
    requires t.Operator? || t == And || t == Or
  {
    if t.Operator? then Append(e, BinaryCode(t.op))
    else if e.Rejected? || |e.code| + 1 > UINT16_MAX then Rejected
    else
      var jump := if t == And then OP_JUMP_IF_FALSE else OP_JUMP_IF_TRUE;
      Emitted([jump] + U16(|e.code| + 1) + [OP_POP] + e.code, e.pool, e.pos)
  }

  ghost function ArgsEmission(p: Parsed<seq<Expr>>, locals: seq<Local>, pool: seq<Value>): Emission {
    if p.Bad? || |p.value| > UINT8_MAX then Rejected else Emitting(GenArgs(p.value, locals, pool), p.pos)
  }

  // ----- one turn of the Pratt loop -----

  /** An operand that has no code leaves the whole expression without code. */
  lemma {:induction false} InfixFails(ts: seq<Token>, i: nat, prec: nat, left: Expr, locals: seq<Local>,
      pool: seq<Value>)
    requires i <= |ts| && GenExpr(left, locals, pool).Fail?
    ensures InfixEmission(ts, i, prec, left, locals, pool).Rejected?
    decreases |ts| - i
  {
    hide ParsePrec, ParseArgs;
    var t := At(ts, i);
    if RulePrec(t) == PREC_NONE || prec > RulePrec(t) {
    } else if t == LeftParen {
      var a := ParseArgs(ts, i + 1);
      if a.Good? { InfixFails(ts, a.pos, prec, Call(left, a.value), locals, pool); }
    } else {
      var r := ParsePrec(ts, i + 1, RightPrec(t));
      if r.Good? {
        CombineFails(t, left, r.value, locals, pool);
        InfixFails(ts, r.pos, prec, Combine(t, left, r.value), locals, pool);
      }
    }
  }

  lemma {:induction false} CombineFails(t: Token, a: Expr, b: Expr, locals: seq<Local>, pool: seq<Value>)
    requires GenExpr(a, locals, pool).Fail?
    ensures GenExpr(Combine(t, a, b), locals, pool).Fail?
  {
    if t.Operator? {
      assert GenExpr(Binary(t.op, a, b), locals, pool).Fail?;
    } else if t == And {
      assert GenExpr(Conj(a, b), locals, pool).Fail?;
    } else {
      assert GenExpr(Disj(a, b), locals, pool).Fail?;
    }
  }

  lemma {:induction false} CombineCode(t: Token, a: Expr, b: Expr, locals: seq<Local>, pool: seq<Value>, pos: nat)
    requires t.Operator? || t == And || t == Or
    requires GenExpr(a, locals, pool).Emit?
    ensures var g := GenExpr(a, locals, pool);
      var tail := InfixTail(t, Emitting(GenExpr(b, locals, g.pool), pos));
      GenExpr(Combine(t, a, b), locals, pool) ==
        if tail.Rejected? then Fail else Code.Emit(g.code + tail.code, tail.pool)
  {
    hide GenExpr, BinaryCode;
    var g := GenExpr(a, locals, pool);
    var h := GenExpr(b, locals, g.pool);
    ShortShape(a, b, locals, pool);
    if t.Operator? {
      BinaryShape(t.op, a, b, locals, pool);
      if h.Emit? { Regroup(g.code, h.code, BinaryCode(t.op)); }
    } else if t == And {
      if h.Emit? { Regroup(g.code, [OP_JUMP_IF_FALSE] + U16(|h.code| + 1) + [OP_POP], h.code); }
    } else {
      if h.Emit? { Regroup(g.code, [OP_JUMP_IF_TRUE] + U16(|h.code| + 1) + [OP_POP], h.code); }
    }
  }

  lemma Regroup(a: seq<byte>, b: seq<byte>, c: seq<byte>)
    ensures a + b + c == a + (b + c)
  {
  }

  lemma {:induction false} InfixTurn(ts: seq<Token>, i: nat, prec: nat, left: Expr, locals: seq<Local>,
      pool: seq<Value>)
    requires i < |ts| && GenExpr(left, locals, pool).Emit?
    requires var t := At(ts, i); (t.Operator? || t == And || t == Or) && prec <= RulePrec(t)
    ensures var t := At(ts, i);
      var tail := InfixTail(t, PrecEmission(ts, i + 1, RightPrec(t), locals, GenExpr(left, locals, pool).pool));
      if tail.Rejected? then InfixEmission(ts, i, prec, left, locals, pool).Rejected?
      else
        ParsePrec(ts, i + 1, RightPrec(t)).Good? &&
        var left' := Combine(t, left, ParsePrec(ts, i + 1, RightPrec(t)).value);
        && tail.pos <= |ts|
        && GenExpr(left', locals, pool) == Code.Emit(GenExpr(left, locals, pool).code + tail.code, tail.pool)
        && InfixEmission(ts, i, prec, left, locals, pool) == InfixEmission(ts, tail.pos, prec, left', locals, pool)
  {
    hide GenExpr, ParsePrec;
    var t := At(ts, i);
    var r := ParsePrec(ts, i + 1, RightPrec(t));
    if r.Good? {
      CombineCode(t, left, r.value, locals, pool, r.pos);
      if GenExpr(Combine(t, left, r.value), locals, pool).Fail? {
        InfixFails(ts, r.pos, prec, Combine(t, left, r.value), locals, pool);
      }
    }
  }

  lemma CallTurn(ts: seq<Token>, i: nat, prec: nat, left: Expr, locals: seq<Local>, pool: seq<Value>)
    requires i < |ts| && GenExpr(left, locals, pool).Emit?
    requires At(ts, i) == LeftParen && prec <= PREC_CALL
    ensures var p := ParseArgs(ts, i + 1);
      var e := ArgsEmission(p, locals, GenExpr(left, locals, pool).pool);
      if e.Rejected? then InfixEmission(ts, i, prec, left, locals, pool).Rejected?
      else
        p.Good? &&
        var left' := Call(left, p.value);
        && e.pos <= |ts|
        && GenExpr(left', locals, pool) == Code.Emit(GenExpr(left, locals, pool).code + e.code + [OP_CALL,
          |p.value|], e.pool)
        && InfixEmission(ts, i, prec, left, locals, pool) == InfixEmission(ts, e.pos, prec, left', locals, pool)
  {
    hide ParsePrec, ParseArgs;
    var p := ParseArgs(ts, i + 1);
    if p.Good? && GenExpr(Call(left, p.value), locals, pool).Fail? {
      InfixFails(ts, p.pos, prec, Call(left, p.value), locals, pool);
    }
  }

  /** The Pratt loop starts with the prefix expression as left operand. */
  lemma PrecStart(ts: seq<Token>, i: nat, prec: nat, locals: seq<Local>, pool: seq<Value>)
    ensures var p := ParsePrefix(ts, i, prec);
      var e := ExprEmission(p, locals, pool);
      if e.Rejected? then PrecEmission(ts, i, prec, locals, pool).Rejected?
      else e.pos <= |ts| && PrecEmission(ts, i, prec, locals, pool) == InfixEmission(ts, e.pos, prec, p.value,
        locals, pool)
  {
    hide GenExpr, ParsePrefix, ParseInfix;
    var p := ParsePrefix(ts, i, prec);
    if p.Good? && GenExpr(p.value, locals, pool).Fail? {
      InfixFails(ts, p.pos, prec, p.value, locals, pool);
    }
  }

  lemma NoPrefix(ts: seq<Token>, i: nat, prec: nat, locals: seq<Local>, pool: seq<Value>)
    requires !HasPrefix(At(ts, i))
    ensures PrecEmission(ts, i, prec, locals, pool).Rejected?
  {
    assert ParsePrefix(ts, i, prec).Bad?;
  }

  lemma InfixEnd(ts: seq<Token>, i: nat, prec: nat, left: Expr, locals: seq<Local>, pool: seq<Value>)
    requires i <= |ts| && prec > RulePrec(At(ts, i))
    ensures InfixEmission(ts, i, prec, left, locals, pool) ==
      if prec <= PREC_ASSIGNMENT && At(ts, i) == Equal then Rejected
      else Emitting(GenExpr(left, locals, pool), i)
  {
  }

  // ----- argument lists -----

  lemma {:induction false} ArgListExtends(ts: seq<Token>, i: nat, acc: seq<Expr>)
    ensures var p := ParseArgList(ts, i, acc); p.Good? ==> acc <= p.value
    decreases |ts| - i
  {
    hide ParsePrec;
    var e := ParsePrec(ts, i, PREC_ASSIGNMENT);
    if e.Good? && At(ts, e.pos) == Comma { ArgListExtends(ts, e.pos + 1, acc + [e.value]); }
  }

  lemma {:induction false} ArgsPrefixFails(args: seq<Expr>, k: nat, locals: seq<Local>, pool: seq<Value>)
    requires k <= |args| && GenArgs(args[..k], locals, pool).Fail?
    ensures GenArgs(args, locals, pool).Fail?
    decreases |args|
  {
    hide GenExpr;
    if k == |args| {
      assert args[..k] == args;
    } else {
      assert args[..|args| - 1][..k] == args[..k];
      ArgsPrefixFails(args[..|args| - 1], k, locals, pool);
    }
  }

  /** Arguments that have no code, or are too many, spoil the list. */
  lemma ArgListFails(ts: seq<Token>, i: nat, acc: seq<Expr>, locals: seq<Local>, pool: seq<Value>)
    requires GenArgs(acc, locals, pool).Fail? || |acc| > UINT8_MAX
    ensures ArgsEmission(ParseArgList(ts, i, acc), locals, pool).Rejected?
  {
    hide ParseArgList, GenArgs;
    ArgListExtends(ts, i, acc);
    var p := ParseArgList(ts, i, acc);
    if p.Good? && GenArgs(acc, locals, pool).Fail? {
      assert p.value[..|acc|] == acc;
      ArgsPrefixFails(p.value, |acc|, locals, pool);
    }
  }

  /** How a list goes on after one of its arguments. */
  function MoreArgs(ts: seq<Token>, i: nat, acc: seq<Expr>): Parsed<seq<Expr>> {
    if At(ts, i) == Comma then ParseArgList(ts, i + 1, acc)
    else if At(ts, i) == RightParen then Good(acc, i + 1)
    else Bad
  }

  /** One argument of a list: the code of the arguments so far grows by its code. */
  lemma ArgTurn(ts: seq<Token>, i: nat, acc: seq<Expr>, locals: seq<Local>, pool: seq<Value>)
    requires GenArgs(acc, locals, pool).Emit?
    ensures var g := GenArgs(acc, locals, pool);
      var p := ParsePrec(ts, i, PREC_ASSIGNMENT);
      var e := PrecEmission(ts, i, PREC_ASSIGNMENT, locals, g.pool);
      if e.Rejected? then ArgsEmission(ParseArgList(ts, i, acc), locals, pool).Rejected?
      else
        p.Good? &&
        var acc' := acc + [p.value];
        && GenArgs(acc', locals, pool) == Code.Emit(g.code + e.code, e.pool)
        && ParseArgList(ts, i, acc) == MoreArgs(ts, e.pos, acc')
  {
    hide ParsePrec, GenExpr;
    var p := ParsePrec(ts, i, PREC_ASSIGNMENT);
    if p.Good? {
      var acc' := acc + [p.value];
      assert acc'[..|acc'| - 1] == acc;
      if GenArgs(acc', locals, pool).Fail? {
        if At(ts, p.pos) == Comma { ArgListFails(ts, p.pos + 1, acc', locals, pool); }
      }
    }
  }

  lemma TooManyArguments(ts: seq<Token>, i: nat, acc: seq<Expr>, locals: seq<Local>, pool: seq<Value>)
    requires |acc| > UINT8_MAX
    ensures ArgsEmission(MoreArgs(ts, i, acc), locals, pool).Rejected?
  {
    if At(ts, i) == Comma { ArgListFails(ts, i + 1, acc, locals, pool); }
  }

  lemma ArgsEnd(acc: seq<Expr>, pos: nat, locals: seq<Local>, pool: seq<Value>)
    requires |acc| <= UINT8_MAX
    ensures ArgsEmission(Good(acc, pos), locals, pool) == Emitting(GenArgs(acc, locals, pool), pos)
    ensures ArgsEmission(Bad, locals, pool).Rejected?
  {
  }

  lemma ArgsStart(ts: seq<Token>, i: nat, locals: seq<Local>, pool: seq<Value>)
    ensures GenArgs([], locals, pool) == Code.Emit([], pool)
    ensures ParseArgs(ts, i) == if At(ts, i) == RightParen then Good([], i + 1) else ParseArgList(ts, i, [])
  {
  }

  // ----- prefix expressions -----

  /** A variable, read or assigned. */
  ghost function VariableEmission(ts: seq<Token>, i: nat, x: Ident, assigning: bool, locals: seq<Local>,
      pool: seq<Value>): Emission {
    if assigning then
      var a := Access(OP_SET_LOCAL, OP_SET_GLOBAL, x, locals, pool);
      if a.Fail? then Rejected
      else Append(PrecEmission(ts, i + 2, PREC_ASSIGNMENT, locals, a.pool), a.code)
    else Emitting(Access(OP_GET_LOCAL, OP_GET_GLOBAL, x, locals, pool), i + 1)
  }

  lemma VariablePrefix(ts: seq<Token>, i: nat, x: Ident, prec: nat, locals: seq<Local>, pool: seq<Value>)
    requires At(ts, i) == Identifier(x)
    ensures ExprEmission(ParsePrefix(ts, i, prec), locals, pool) ==
      VariableEmission(ts, i, x, prec <= PREC_ASSIGNMENT && At(ts, i + 1) == Equal, locals, pool)
  {
    hide ParsePrec, Access;
  }

  lemma UnaryPrefix(ts: seq<Token>, i: nat, prec: nat, locals: seq<Local>, pool: seq<Value>)
    requires At(ts, i) == Bang || At(ts, i) == Operator(Arithmetic(Minus))
    ensures ExprEmission(ParsePrefix(ts, i, prec), locals, pool) ==
      Append(PrecEmission(ts, i + 1, PREC_UNARY, locals, pool), [if At(ts, i) == Bang then OP_NOT else OP_NEGATE])
  {
    hide ParsePrec;
  }

  lemma GroupPrefix(ts: seq<Token>, i: nat, prec: nat, locals: seq<Local>, pool: seq<Value>)
    requires At(ts, i) == LeftParen
    ensures var e := PrecEmission(ts, i + 1, PREC_ASSIGNMENT, locals, pool);
      ExprEmission(ParsePrefix(ts, i, prec), locals, pool) ==
        if e.Rejected? || At(ts, e.pos) != RightParen then Rejected else Emitted(e.code, e.pool, e.pos + 1)
  {
    hide ParsePrec, GenExpr;
  }

  lemma OtherPrefix(ts: seq<Token>, i: nat, prec: nat, locals: seq<Local>, pool: seq<Value>)
    ensures var e := ExprEmission(ParsePrefix(ts, i, prec), locals, pool);
      match At(ts, i)
      case NumberLit(n) => e == Emitting(WithConstant(OP_CONSTANT, Number(Ranked(n)), pool), i + 1)
      case StringLit(s) => e == Emitting(WithConstant(OP_CONSTANT, Str(s), pool), i + 1)
      case True => e == Emitted([OP_TRUE], pool, i + 1)
      case False => e == Emitted([OP_FALSE], pool, i + 1)
      case Nil => e == Emitted([OP_NIL], pool, i + 1)
      case Identifier(_) => true
      case LeftParen => true
      case Bang => true
      case Operator(op) => op != Arithmetic(Minus) ==> e.Rejected?
      case _ => e.Rejected?
  {
    hide ParsePrec, WithConstant;
  }

  // ----- statements and declarations -----

  /** What a statement comes to at a place in the chunk: nothing, or a number of bytes, the constants,
      the next token and the chunk. */
  datatype Placed = NotPlaced | Placed(size: nat, pool: seq<Value>, pos: nat, chunk: Outcome)

  function Appended(e: Emission, at: Outcome): Placed {
    if e.Rejected? then NotPlaced else Placed(|e.code|, e.pool, e.pos, Add(at, e.code))
  }

  ghost function StmtPlaced(p: Parsed<Stmt>, c: Context, pool: seq<Value>, at: Outcome): Placed {
    if p.Bad? then NotPlaced else
      var g := GenStmt(p.value, c, pool);
      if g.Fail? then NotPlaced else Placed(|g.code|, g.pool, p.pos, PlaceStmt(p.value, c, pool, at))
  }

  datatype Declared = NotDeclared | Declared(placed: Placed, locals: seq<Local>)

  /** Declarations also say which slots they leave. */
  ghost function DeclPlaced(p: Parsed<Decl>, c: Context, pool: seq<Value>, at: Outcome): Declared {
    if p.Bad? then NotDeclared else
      var g := GenDecl(p.value, c, pool);
      if g.DeclFail? then NotDeclared
      else Declared(Placed(|g.code|, g.pool, p.pos, PlaceDecl(p.value, c, pool, at)), g.locals)
  }

  ghost function DeclsPlaced(p: Parsed<seq<Decl>>, c: Context, pool: seq<Value>, at: Outcome): Declared {
    if p.Bad? then NotDeclared else
      var g := GenDecls(p.value, c, pool);
      if g.DeclFail? then NotDeclared
      else Declared(Placed(|g.code|, g.pool, p.pos, PlaceDecls(p.value, c, pool, at)), g.locals)
  }

  lemma ContinueCode(ts: seq<Token>, i: nat, c: Context, pool: seq<Value>, at: Outcome)
    requires At(ts, i) == Continue
    ensures StmtPlaced(ParseStmt(ts, i), c, pool, at) ==
      if At(ts, i + 1) != Semicolon || c.loop.NoLoop? then NotPlaced
      else
        var n := Above(c.locals, c.loop.level);
        var back := c.loop.distance + n + 3;
        if back > UINT16_MAX then NotPlaced
        else Appended(Emitted(Pops(n) + JumpCode(OP_LOOP, back), pool, i + 2), at)
  {
    hide Above, Pops, JumpCode;
  }

  lemma SimpleCode(ts: seq<Token>, i: nat, c: Context, pool: seq<Value>, at: Outcome)
    ensures At(ts, i) == Print ==>
      StmtPlaced(ParseStmt(ts, i), c, pool, at) ==
      Appended(Append(ExprEmission(ParseExprThen(ts, i + 1, Semicolon), c.locals, pool), [OP_PRINT]), at)
    ensures (match At(ts, i) case Print => false case If => false case While => false case Continue => false
             case LeftBrace => false case _ => true) ==>
      StmtPlaced(ParseStmt(ts, i), c, pool, at) ==
      Appended(Append(ExprEmission(ParseExprThen(ts, i, Semicolon), c.locals, pool), [OP_POP]), at)
  {
    hide ParseExprThen, GenExpr;
  }

  /** The condition and the first branch of a conditional. */
  ghost function ThenPlaced(ts: seq<Token>, i: nat, c: Context, pool: seq<Value>, at: Outcome): (r: Placed) {
    var e := ExprEmission(ParseCondition(ts, i), c.locals, pool);
    if e.Rejected? then NotPlaced else
      var t := StmtPlaced(ParseStmt(ts, e.pos), c.Past(|e.code| + 4), e.pool, Guard(at, e.code));
      if t.NotPlaced? || t.size + 4 > UINT16_MAX then NotPlaced
      else Placed(|e.code| + 4 + t.size + 4, t.pool, t.pos, CloseThen(t.chunk, t.size))
  }

  /** A whole conditional, given its first branch. */
  ghost function ElsePlaced(ts: seq<Token>, t: Placed, c: Context): Placed {
    if t.NotPlaced? then NotPlaced
    else if At(ts, t.pos) != Else then t.(chunk := CloseElse(t.chunk, 0))
    else
      var f := StmtPlaced(ParseStmt(ts, t.pos + 1), c.Past(t.size), t.pool, t.chunk);
      if f.NotPlaced? || f.size + 1 > UINT16_MAX then NotPlaced
      else Placed(t.size + f.size, f.pool, f.pos, CloseElse(f.chunk, f.size))
  }

  lemma ThenParses(ts: seq<Token>, i: nat, c: Context, pool: seq<Value>, at: Outcome)
    requires ParseCondition(ts, i).Good? && ParseStmt(ts, ParseCondition(ts, i).pos).Good?
    ensures var p := ParseCondition(ts, i);
      var t := ParseStmt(ts, p.pos);
      var g := GenExpr(p.value, c.locals, pool);
      ThenPlaced(ts, i, c, pool, at) ==
        if g.Fail? then NotPlaced
        else
          var h := GenStmt(t.value, c.Past(|g.code| + 4), g.pool);
          if h.Fail? || |h.code| + 4 > UINT16_MAX then NotPlaced
          else Placed(|g.code| + 4 + |h.code| + 4, h.pool, t.pos, PlaceThen(p.value, t.value, c, pool, at))
  {
    hide ParseCondition, ParseStmt, GenExpr, GenStmt, CloseThen, Guard, PlaceStmt;
  }

  lemma {:induction false} IfParses(ts: seq<Token>, i: nat, c: Context, pool: seq<Value>, at: Outcome)
    requires At(ts, i) == If
    ensures StmtPlaced(ParseStmt(ts, i), c, pool, at) == ElsePlaced(ts, ThenPlaced(ts, i + 1, c, pool, at), c)
  {
    hide ParseCondition, ParseStmt, GenExpr, GenStmt, IfCode, CloseElse, ThenPlaced, PlaceStmt, PlaceThen;
    IfParse(ts, i);
    var p := ParseCondition(ts, i + 1);
    if p.Good? && ParseStmt(ts, p.pos).Good? {
      var t := ParseStmt(ts, p.pos);
      ThenParses(ts, i + 1, c, pool, at);
      IfThenShape(p.value, t.value, c, pool);
      if GenStmt(IfThen(p.value, t.value), c, pool).Emit? { IfThenPlace(p.value, t.value, c, pool, at); }
      if At(ts, t.pos) == Else && ParseStmt(ts, t.pos + 1).Good? {
        var f := ParseStmt(ts, t.pos + 1).value;
        IfElseShape(p.value, t.value, f, c, pool);
        if GenStmt(IfElse(p.value, t.value, f), c, pool).Emit? { IfElsePlace(p.value, t.value, f, c, pool, at); }
      }
    } else {
      NoThen(ts, i + 1, c, pool, at);
    }
  }

  lemma NoThen(ts: seq<Token>, i: nat, c: Context, pool: seq<Value>, at: Outcome)
    requires ParseCondition(ts, i).Good? ==> ParseStmt(ts, ParseCondition(ts, i).pos).Bad?
    ensures ThenPlaced(ts, i, c, pool, at).NotPlaced?
  {
    hide ParseCondition, ParseStmt;
  }

  lemma IfParse(ts: seq<Token>, i: nat)
    requires At(ts, i) == If
    ensures ParseStmt(ts, i) ==
      var p := ParseCondition(ts, i + 1);
      if p.Bad? then Bad
      else
        var t := ParseStmt(ts, p.pos);
        if t.Bad? then Bad
        else if At(ts, t.pos) != Else then Good(IfThen(p.value, t.value), t.pos)
        else
          var f := ParseStmt(ts, t.pos + 1);
          if f.Bad? then Bad else Good(IfElse(p.value, t.value, f.value), f.pos)
  {
    hide ParseCondition;
  }

  /** A loop, from its condition on, whether or not its jump back fits. */
  ghost function LoopEnd(ts: seq<Token>, i: nat, c: Context, pool: seq<Value>, at: Outcome): Placed {
    var e := ExprEmission(ParseCondition(ts, i), c.locals, pool);
    if e.Rejected? then NotPlaced else
      var b := StmtPlaced(ParseStmt(ts, e.pos), LoopContext(c, |e.code|), e.pool, Guard(at, e.code));
      if b.NotPlaced? then NotPlaced
      else Placed(|e.code| + b.size + 8, b.pool, b.pos, CloseLoop(b.chunk, |e.code| + b.size + 7))
  }

  ghost function LoopPlaced(ts: seq<Token>, i: nat, c: Context, pool: seq<Value>, at: Outcome): Placed {
    var l := LoopEnd(ts, i, c, pool, at);
    if l.Placed? && l.size > UINT16_MAX + 1 then NotPlaced else l
  }

  lemma {:induction false} WhileParses(ts: seq<Token>, i: nat, c: Context, pool: seq<Value>, at: Outcome)
    requires At(ts, i) == While
    ensures StmtPlaced(ParseStmt(ts, i), c, pool, at) == LoopPlaced(ts, i + 1, c, pool, at)
  {
    hide ParseCondition, ParseStmt, GenExpr, GenStmt, WhileCode, CloseLoop, Guard, PlaceStmt;
    WhileParse(ts, i);
    var p := ParseCondition(ts, i + 1);
    if p.Good? && ParseStmt(ts, p.pos).Good? {
      var b := ParseStmt(ts, p.pos).value;
      WhileShape(p.value, b, c, pool);
      if GenStmt(WhileLoop(p.value, b), c, pool).Emit? { WhilePlace(p.value, b, c, pool, at); }
    }
  }

  lemma WhileParse(ts: seq<Token>, i: nat)
    requires At(ts, i) == While
    ensures ParseStmt(ts, i) ==
      var p := ParseCondition(ts, i + 1);
      if p.Bad? then Bad
      else
        var b := ParseStmt(ts, p.pos);
        if b.Bad? then Bad else Good(WhileLoop(p.value, b.value), b.pos)
  {
    hide ParseCondition;
  }

  /** The initializer of a variable and the semicolon after it. */
  ghost function InitEmission(ts: seq<Token>, i: nat, locals: seq<Local>, pool: seq<Value>): Emission {
    if At(ts, i) == Equal then ExprEmission(ParseExprThen(ts, i + 1, Semicolon), locals, pool)
    else if At(ts, i) == Semicolon then Emitted([OP_NIL], pool, i + 1)
    else Rejected
  }

  ghost function VarPlaced(ts: seq<Token>, i: nat, c: Context, pool: seq<Value>, at: Outcome): Declared {
    if !At(ts, i + 1).Identifier? then NotDeclared
    else
      var x := At(ts, i + 1).name;
      if c.level == 0 then
        var def := WithConstant(OP_DEFINE_GLOBAL, Str(x), pool);
        if def.Fail? then NotDeclared else
          var e := InitEmission(ts, i + 2, c.locals, def.pool);
          if e.Rejected? then NotDeclared else Declared(Appended(Append(e, def.code), at), c.locals)
      else if AlreadyDeclared(c.locals, x, c.level) || |c.locals| > UINT8_MAX then NotDeclared
      else
        var e := InitEmission(ts, i + 2, c.locals + [Local(x, -1)], pool);
        if e.Rejected? then NotDeclared else Declared(Appended(e, at), c.locals + [Local(x, c.level)])
  }

  lemma VarParses(ts: seq<Token>, i: nat, c: Context, pool: seq<Value>, at: Outcome)
    requires At(ts, i) == Var
    ensures DeclPlaced(ParseDecl(ts, i), c, pool, at) == VarPlaced(ts, i, c, pool, at)
  {
    hide ParseExprThen, GenExpr, WithConstant, AlreadyDeclared;
  }

  lemma DeclParses(ts: seq<Token>, i: nat, c: Context, pool: seq<Value>, at: Outcome)
    requires At(ts, i) != Var
    ensures DeclPlaced(ParseDecl(ts, i), c, pool, at) ==
      var e := StmtPlaced(ParseStmt(ts, i), c, pool, at);
      if e.NotPlaced? then NotDeclared else Declared(e, c.locals)
  {
    hide ParseStmt, GenStmt, PlaceStmt;
  }

  lemma BlockParses(ts: seq<Token>, i: nat, c: Context, pool: seq<Value>, at: Outcome)
    requires At(ts, i) == LeftBrace
    ensures var d := DeclsPlaced(ParseDecls(ts, i + 1, RightBrace, []), c.(level := c.level + 1), pool, at);
      StmtPlaced(ParseStmt(ts, i), c, pool, at) ==
        if d.NotDeclared? || d.placed.NotPlaced? then NotPlaced
        else
          var n := Above(d.locals, c.level);
          Placed(d.placed.size + n, d.placed.pool, d.placed.pos + 1, Add(d.placed.chunk, Pops(n)))
  {
    hide ParseDecls, GenDecls, Above, Pops, PlaceDecls, Add;
    var p := ParseDecls(ts, i + 1, RightBrace, []);
    if p.Good? {
      BlockShape(p.value, c, pool);
      if GenStmt(Block(p.value), c, pool).Emit? { BlockPlace(p.value, c, pool, at); }
    }
  }

  // ----- declaration lists -----

  lemma {:induction false} DeclsExtend(ts: seq<Token>, i: nat, close: Token, acc: seq<Decl>)
    ensures var p := ParseDecls(ts, i, close, acc); p.Good? ==> acc <= p.value
    decreases |ts| - i
  {
    hide ParseDecl;
    var d := ParseDecl(ts, i);
    if At(ts, i) != close && At(ts, i) != Eof && d.Good? { DeclsExtend(ts, d.pos, close, acc + [d.value]); }
  }

  lemma {:induction false} DeclsPrefixFails(ds: seq<Decl>, k: nat, c: Context, pool: seq<Value>)
    requires k <= |ds| && GenDecls(ds[..k], c, pool).DeclFail?
    ensures GenDecls(ds, c, pool).DeclFail?
    decreases |ds|
  {
    hide GenDecl;
    if k == |ds| {
      assert ds[..k] == ds;
    } else {
      assert ds[..|ds| - 1][..k] == ds[..k];
      DeclsPrefixFails(ds[..|ds| - 1], k, c, pool);
    }
  }

  lemma DeclsStart(c: Context, pool: seq<Value>, at: Outcome)
    ensures GenDecls([], c, pool) == DeclEmit([], pool, c.locals) && PlaceDecls([], c, pool, at) == at
  {
  }

  /** One declaration of a list. */
  lemma DeclTurn(ts: seq<Token>, i: nat, close: Token, acc: seq<Decl>, c: Context, pool: seq<Value>, at: Outcome)
    requires GenDecls(acc, c, pool).DeclEmit?
    requires At(ts, i) != close && At(ts, i) != Eof
    ensures var g := GenDecls(acc, c, pool);
      var p := ParseDecl(ts, i);
      var d := DeclPlaced(p, c.Past(|g.code|).(locals := g.locals), g.pool, PlaceDecls(acc, c, pool, at));
      if d.NotDeclared? then DeclsPlaced(ParseDecls(ts, i, close, acc), c, pool, at).NotDeclared?
      else
        p.Good? && d.placed.Placed? &&
        var acc' := acc + [p.value];
        var g' := GenDecls(acc', c, pool);
        && g'.DeclEmit? && |g'.code| == |g.code| + d.placed.size && g'.pool == d.placed.pool && g'.locals == d.locals
        && PlaceDecls(acc', c, pool, at) == d.placed.chunk
        && ParseDecls(ts, i, close, acc) == ParseDecls(ts, d.placed.pos, close, acc')
  {
    hide ParseDecl, GenDecl, GenDecls, PlaceDecl, PlaceDecls;
    var p := ParseDecl(ts, i);
    if p.Good? {
      var acc' := acc + [p.value];
      DeclsShape(acc, p.value, c, pool);
      if GenDecls(acc', c, pool).DeclFail? {
        DeclsFail(ts, p.pos, close, acc', c, pool, at);
      } else {
        DeclsPlace(acc, p.value, c, pool, at);
      }
    }
  }

  /** Declarations without code spoil the list. */
  lemma DeclsFail(ts: seq<Token>, i: nat, close: Token, acc: seq<Decl>, c: Context, pool: seq<Value>, at: Outcome)
    requires GenDecls(acc, c, pool).DeclFail?
    ensures DeclsPlaced(ParseDecls(ts, i, close, acc), c, pool, at).NotDeclared?
  {
    hide GenDecls, ParseDecls;
    DeclsExtend(ts, i, close, acc);
    var q := ParseDecls(ts, i, close, acc);
    if q.Good? {
      assert q.value[..|acc|] == acc;
      DeclsPrefixFails(q.value, |acc|, c, pool);
    }
  }

  /** A finished list. */
  lemma DeclsEnd(ts: seq<Token>, i: nat, close: Token, acc: seq<Decl>, c: Context, pool: seq<Value>, at: Outcome)
    requires At(ts, i) == close || At(ts, i) == Eof
    ensures DeclsPlaced(ParseDecls(ts, i, close, acc), c, pool, at) ==
      if At(ts, i) == close then DeclsPlaced(Good(acc, i), c, pool, at) else NotDeclared
  {
    hide GenDecls, PlaceDecls;
  }

  lemma DeclSlotsKept(p: Parsed<Decl>, c: Context, pool: seq<Value>, at: Outcome)
    requires DeclPlaced(p, c, pool, at).Declared? && Scoping.Settled(c.locals, c.level)
    ensures Statements.Extends(DeclPlaced(p, c, pool, at).locals, c.locals, c.level)
  {
    hide GenDecl, PlaceDecl;
    Statements.DeclSlots(p.value, c, pool);
  }

  lemma DeclsSlotsKept(p: Parsed<seq<Decl>>, c: Context, pool: seq<Value>, at: Outcome)
    requires DeclsPlaced(p, c, pool, at).Declared? && Scoping.Settled(c.locals, c.level)
    ensures Statements.Extends(DeclsPlaced(p, c, pool, at).locals, c.locals, c.level)
  {
    hide GenDecls, PlaceDecls;
    Statements.DeclsSlots(p.value, c, pool);
  }

  /** The slots left when a block's scope is left are those it was entered with. */
  lemma BlockSlots(p: Parsed<seq<Decl>>, c: Context, pool: seq<Value>, at: Outcome)
    requires DeclsPlaced(p, c.(level := c.level + 1), pool, at).Declared? && Scoping.Settled(c.locals, c.level)
    ensures var locals := DeclsPlaced(p, c.(level := c.level + 1), pool, at).locals;
      locals[..|locals| - Above(locals, c.level)] == c.locals
  {
    hide DeclsPlaced, Above;
    Deeper(c.locals, c.level);
    DeclsSlotsKept(p, c.(level := c.level + 1), pool, at);
    Statements.OuterExtends(DeclsPlaced(p, c.(level := c.level + 1), pool, at).locals, c.locals, c.level + 1,
      c.level);
    Scoping.OuterSelf(c.locals, c.level);
  }

  lemma Deeper(locals: seq<Local>, level: nat)
    requires Scoping.Settled(locals, level)
    ensures Scoping.Settled(locals, level + 1)
  {
  }
}
