/** The single-pass compiler: the parser's token cursor, the chunk it appends to, and the
    compile-time slots, all updated in place. */
module SinglePass {
  import opened Values
  import opened Syntax
  import opened Bytecode
  import opened Codegen
  import opened Grammar
  import opened ExitSearch
  import opened Pieces
  import opened Placing
  import opened Emissions
  import opened Patching
  import Scoping
  import Statements

  datatype LoopBlock = NoBlock | Active(top: nat, level: nat)

  /** A compiler that has emitted `n` bytes, with these slots, scope level and loop, is where `c` says. */
  ghost predicate Situated(n: nat, locals: seq<Local>, level: nat, loop: LoopBlock, c: Context) {
    && locals == c.locals && level == c.level
    && Scoping.Settled(locals, level) && Sorted(locals)
    && (loop.NoBlock? <==> c.loop.NoLoop?)
    && (loop.Active? ==> loop.top + c.loop.distance == n && loop.level == c.loop.level < level)
  }

  ghost predicate Sorted(locals: seq<Local>) {
    forall i, j :: 0 <= i < j < |locals| ==> locals[i].level <= locals[j].level
  }

  /** A condition and the jump on it, appended piece by piece. */
  lemma Guarded(code: seq<byte>, e: seq<byte>)
    ensures code + e + [OP_JUMP_IF_FALSE, 255, 255] + [OP_POP] ==
      code + (e + OpenJump(OP_JUMP_IF_FALSE) + [OP_POP])
  {
  }

  lemma EnterBranch(n: nat, more: nat, locals: seq<Local>, level: nat, loop: LoopBlock, c: Context)
    requires Situated(n, locals, level, loop, c)
    ensures Situated(n + more, locals, level, loop, c.Past(more))
  {
  }

  lemma EnterLoop(n: nat, condition: nat, locals: seq<Local>, level: nat, loop: LoopBlock, c: Context)
    requires Situated(n, locals, level, loop, c)
    ensures Situated(n + condition + 4, locals, level + 1, Active(n, level), LoopContext(c, condition))
  {
  }

  lemma EnterBlock(n: nat, locals: seq<Local>, level: nat, loop: LoopBlock, c: Context)
    requires Situated(n, locals, level, loop, c)
    ensures Situated(n, locals, level + 1, loop, c.(level := c.level + 1))
  {
  }

  lemma StartList(n: nat, locals: seq<Local>, level: nat, loop: LoopBlock, c: Context)
    requires Situated(n, locals, level, loop, c)
    ensures c.Past(0).(locals := locals) == c
  {
  }

  /** From one declaration of a list to the next. */
  lemma NextContext(n: nat, part: nat, more: nat, locals: seq<Local>, locals': seq<Local>, level: nat,
      loop: LoopBlock, c: Context)
    requires Situated(n, locals, level, loop, c.Past(part).(locals := locals))
    requires Statements.Extends(locals', locals, level)
    ensures Situated(n + more, locals', level, loop, c.Past(part + more).(locals := locals'))
  {
  }

  lemma DeclaredFrom(locals: seq<Local>, x: string, level: nat, i: nat)
    requires Scoping.Settled(locals, level) && Sorted(locals) && i <= |locals|
    requires forall k :: i <= k < |locals| ==> locals[k].level == level
    requires i > 0 ==> locals[i - 1].level < level
    ensures AlreadyDeclared(locals, x, level) <==> exists k :: i <= k < |locals| && locals[k].name == x
  {
    if AlreadyDeclared(locals, x, level) {
      var k :| 0 <= k < |locals| && locals[k] == Local(x, level);
      assert k >= i;
    }
    if k :| i <= k < |locals| && locals[k].name == x {
      assert locals[k] == Local(x, level);
    }
  }

  lemma SituatedLoop(n: nat, locals: seq<Local>, level: nat, loop: LoopBlock, c: Context)
    requires Situated(n, locals, level, loop, c)
    ensures locals == c.locals && level == c.level && (loop.NoBlock? <==> c.loop.NoLoop?)
    ensures loop.Active? ==> loop.top + c.loop.distance == n && loop.level == c.loop.level
    ensures Scoping.Settled(locals, level) && Sorted(locals)
  {
  }

  class Compiler {
    const tokens: seq<Token>
    var pos: nat
    var previous: Token
    var hadError: bool
    var panic: bool
    /** A search has been met that never ends.  The original is still in it; what the methods do after
        that has no counterpart. */
    var hung: bool
    var code: seq<byte>
    var constants: seq<Value>
    var locals: seq<Local>
    var level: nat
    var loop: LoopBlock

    ghost predicate Valid()
      reads this
    {
      && pos <= |tokens|
      && (panic ==> hadError)
      && 0 < |locals| <= UINT8_MAX + 1
      && locals[0] == Local("this", 0)
      && (loop.Active? ==> loop.top <= |code|)
    }

    /** The compiler is where `e` says, unless it has failed, which it has exactly if it had
        before or `e` is a rejection. */
    ghost predicate Reached(failed: bool, before: seq<byte>, e: Emission)
      reads this
    {
      && (hadError <==> failed || e.Rejected?)
      && (!hadError ==> pos == e.pos && code == before + e.code && constants == e.pool)
    }

    /** The chunk, unless the compiler hangs. */
    ghost function Chunk(): Outcome
      reads this`hung, this`code
    {
      if hung then Unending else Done(code)
    }

    /** The same for a statement: its bytes, its tokens, and the chunk after it. */
    ghost predicate ReachedStmt(failed: bool, size: nat, e: Placed)
      reads this
    {
      && (hadError <==> failed || e.NotPlaced?)
      && (!hadError ==> pos == e.pos && |code| == size + e.size && constants == e.pool && Chunk() == e.chunk)
    }

    constructor (ts: seq<Token>)
      ensures Valid() && !hadError && !hung && tokens == ts && pos == 0 && code == [] && constants == []
      ensures locals == TOP_LEVEL.locals && level == 0 && loop == NoBlock && !panic
    {
      tokens, pos, previous := ts, 0, Eof;
      hadError, panic, hung := false, false, false;
      code, constants := [], [];
      locals, level, loop := [Local("this", 0)], 0, NoBlock;
    }

    // ----- tokens -----

    method Error()
      requires panic ==> hadError
      modifies this`hadError, this`panic
      ensures hadError && panic
    {
      if panic { return; }
      panic, hadError := true, true;
    }

    method Advance()
      requires pos <= |tokens|
      modifies this`pos, this`previous
      ensures previous == At(tokens, old(pos))
      ensures pos == if old(pos) < |tokens| then old(pos) + 1 else old(pos)
    {
      previous := At(tokens, pos);
      if pos < |tokens| { pos := pos + 1; }
    }

    predicate Check(t: Token)
      reads this`pos
    {
      At(tokens, pos) == t
    }

    method Match(t: Token) returns (matched: bool)
      requires pos <= |tokens| && t != Eof
      modifies this`pos, this`previous
      ensures matched == (At(tokens, old(pos)) == t)
      ensures matched ==> pos == old(pos) + 1 <= |tokens| && previous == t
      ensures !matched ==> pos == old(pos) && previous == old(previous)
    {
      matched := Check(t);
      if matched { Advance(); }
    }

    method Consume(t: Token)
      requires Valid() && t != Eof
      modifies this`pos, this`previous, this`hadError, this`panic
      ensures Valid()
      ensures At(tokens, old(pos)) == t ==>
        pos == old(pos) + 1 <= |tokens| && previous == t && hadError == old(hadError) && panic == old(panic)
      ensures At(tokens, old(pos)) != t ==> pos == old(pos) && previous == old(previous) && hadError
    {
      if Check(t) { Advance(); } else { Error(); }
    }

    // ----- the chunk -----

    method Emit(bytes: seq<byte>)
      modifies this`code
      ensures code == old(code) + bytes
    {
      code := code + bytes;
    }

    method EmitJump(op: byte) returns (operand: nat)
      modifies this`code
      ensures code == old(code) + [op, 255, 255] && operand == |old(code)| + 1
    {
      Emit([op] + U16(UINT16_MAX));
      operand := |code| - 2;
    }

    method PatchJump(operand: nat)
      requires Valid() && operand + 2 <= |code|
      modifies this`code, this`hadError, this`panic
      ensures Valid()
      ensures |code| == |old(code)|
      ensures var size := |old(code)| - operand - 2;
        && hadError == (old(hadError) || size > UINT16_MAX)
        && code == Patch(old(code), operand, size)
    {
      var size := |code| - operand - 2;
      if size > UINT16_MAX { Error(); }
      code := Patch(code, operand, size);
    }

    method EmitLoop(start: nat)
      requires Valid() && start <= |code|
      modifies this`code, this`hadError, this`panic
      ensures Valid()
      ensures var back := |old(code)| - start + 3;
        && hadError == (old(hadError) || back > UINT16_MAX)
        && code == if back > UINT16_MAX then old(code) else old(code) + JumpCode(OP_LOOP, back)
    {
      var back := |code| - start + 3;
      if back > UINT16_MAX {
        Error();
        return;
      }
      Emit([OP_LOOP] + U16(back));
    }

    /** The pool index of a constant, adding it if no equal one is there. */
    method MakeConstant(v: Value) returns (index: byte)
      requires Valid()
      modifies this`constants, this`hadError, this`panic
      ensures Valid()
      ensures constants == AddConstant(old(constants), v)
      ensures var i := IndexOf(old(constants), v, 0);
        hadError == (old(hadError) || i > UINT8_MAX) && (i <= UINT8_MAX ==> index == i)
    {
      var i := 0;
      while i < |constants| && !ValueEqual(constants[i], v)
        invariant i <= |constants| && IndexOf(constants, v, 0) == IndexOf(constants, v, i)
      {
        i := i + 1;
      }
      if i == |constants| { constants := constants + [v]; }
      if i > UINT8_MAX {
        Error();
        return 0;
      }
      index := i;
    }

    method EmitConstant(op: byte, v: Value, ghost end: nat)
      requires Valid() && pos == end
      modifies this`code, this`constants, this`hadError, this`panic
      ensures Valid() && |code| >= |old(code)|
      ensures Reached(old(hadError), old(code), Emitting(WithConstant(op, v, old(constants)), end))
    {
      var i := MakeConstant(v);
      Emit([op, i]);
    }

    /** The newest slot with this name; reading one inside its own initializer is an error. */
    method ResolveLocal(x: string) returns (slot: int)
      requires Valid()
      modifies this`hadError, this`panic
      ensures Valid()
      ensures slot == Resolve(locals, x)
      ensures hadError == (old(hadError) || (slot >= 0 && locals[slot].level == -1))
    {
      slot := |locals| - 1;
      while slot >= 0
        invariant -1 <= slot < |locals| && Resolve(locals, x) <= slot
        invariant Valid() && hadError == old(hadError)
        invariant forall k :: slot < k < |locals| ==> locals[k].name != x
      {
        if locals[slot].name == x {
          if locals[slot].level == -1 { Error(); }
          return;
        }
        slot := slot - 1;
      }
    }

    // ----- expressions -----

    /** The Pratt parser: a prefix token, then infix tokens that bind at least as tightly. */
    method ParsePrecedence(prec: nat)
      requires Valid() && prec >= PREC_ASSIGNMENT
      modifies this`pos, this`previous, this`hadError, this`panic, this`code, this`constants
      ensures Valid() && old(pos) <= pos && |old(code)| <= |code|
      ensures old(pos) < |tokens| ==> old(pos) < pos
      ensures Reached(old(hadError), old(code), PrecEmission(tokens, old(pos), prec, locals, old(constants)))
      decreases |tokens| - pos, 2
    {
      hide GenExpr, GenArgs, ParsePrec, ParsePrefix, ParseInfix, ParseArgs, PrecEmission, InfixEmission,
        ArgsEmission, InfixTail;
      ghost var i, code0, pool0 := pos, code, constants;
      Advance();
      if !HasPrefix(previous) {
        NoPrefix(tokens, i, prec, locals, pool0);
        Error();
        return;
      }
      Prefix(i, prec);
      PrecStart(tokens, i, prec, locals, pool0);
      ghost var left: Expr := Variable("x");
      if !hadError { left := ParsePrefix(tokens, i, prec).value; }
      while prec <= RulePrec(At(tokens, pos))
        invariant Valid() && i < pos && |code0| <= |code|
        invariant hadError ==> old(hadError) || PrecEmission(tokens, i, prec, locals, pool0).Rejected?
        invariant old(hadError) ==> hadError
        invariant !hadError ==> InLoop(i, prec, left, code0, pool0)
        decreases |tokens| - pos
      {
        left := InfixToken(i, prec, left, code0, pool0);
      }
      if !hadError { InfixEnd(tokens, pos, prec, left, locals, pool0); }
      if prec <= PREC_ASSIGNMENT {
        var bad := Match(Equal);
        if bad { Error(); }
      }
    }

    /** The state at the head of the Pratt loop while nothing has gone wrong. */
    ghost predicate InLoop(i: nat, prec: nat, left: Expr, code0: seq<byte>, pool0: seq<Value>)
      requires pos <= |tokens|
      reads this
    {
      && PrecEmission(tokens, i, prec, locals, pool0) == InfixEmission(tokens, pos, prec, left, locals, pool0)
      && code0 <= code
      && GenExpr(left, locals, pool0) == Code.Emit(code[|code0|..], constants)
    }

    /** One turn of the Pratt loop: an infix token and its right operand. */
    method InfixToken(ghost i: nat, ghost prec: nat, ghost left: Expr, ghost code0: seq<byte>, ghost pool0: seq<Value>)
      returns (ghost left': Expr)
      requires Valid() && i < pos && prec >= PREC_ASSIGNMENT && prec <= RulePrec(At(tokens, pos))
      requires !hadError ==> InLoop(i, prec, left, code0, pool0)
      modifies this`pos, this`previous, this`hadError, this`panic, this`code, this`constants
      ensures Valid() && old(pos) < pos && |old(code)| <= |code|
      ensures old(hadError) ==> hadError
      ensures hadError ==> old(hadError) || PrecEmission(tokens, i, prec, locals, pool0).Rejected?
      ensures !hadError ==> InLoop(i, prec, left', code0, pool0)
      decreases |tokens| - pos, 6
    {
      hide GenExpr, ParsePrec, ParseInfix, ParseArgs, PrecEmission, InfixEmission, ArgsEmission, InfixTail;
      ghost var at := pos;
      Advance();
      var t := previous;
      if !hadError {
        if t == LeftParen { CallTurn(tokens, at, prec, left, locals, pool0); }
        else { InfixTurn(tokens, at, prec, left, locals, pool0); }
      }
      Infix(t);
      left' := left;
      if !hadError {
        left' := if t == LeftParen then Call(left, ParseArgs(tokens, at + 1).value)
                 else Combine(t, left, ParsePrec(tokens, at + 1, RightPrec(t)).value);
      }
    }

    /** What the prefix rule of the previous token, at position `i`, compiles. */
    method Prefix(ghost i: nat, prec: nat)
      requires Valid() && prec >= PREC_ASSIGNMENT
      requires i < |tokens| && pos == i + 1 && previous == tokens[i] && HasPrefix(previous)
      modifies this`pos, this`previous, this`hadError, this`panic, this`code, this`constants
      ensures Valid() && old(pos) <= pos && |old(code)| <= |code|
      ensures Reached(old(hadError), old(code), ExprEmission(ParsePrefix(tokens, i, prec), locals, old(constants)))
      decreases |tokens| - i, 1
    {
      hide GenExpr, ParsePrec, ParsePrefix, PrecEmission, ExprEmission, WithConstant;
      OtherPrefix(tokens, i, prec, locals, constants);
      match previous {
        case NumberLit(n) => EmitConstant(OP_CONSTANT, Number(Ranked(n)), pos);
        case StringLit(x) => EmitConstant(OP_CONSTANT, Str(x), pos);
        case True => Emit([OP_TRUE]);
        case False => Emit([OP_FALSE]);
        case Nil => Emit([OP_NIL]);
        case Identifier(x) => NamedVariable(i, x, prec <= PREC_ASSIGNMENT, prec);
        case LeftParen =>
          GroupPrefix(tokens, i, prec, locals, constants);
          ParsePrecedence(PREC_ASSIGNMENT);
          Consume(RightParen);
        case Bang =>
          UnaryPrefix(tokens, i, prec, locals, constants);
          ParsePrecedence(PREC_UNARY);
          Emit([OP_NOT]);
        case Operator(_) =>
          UnaryPrefix(tokens, i, prec, locals, constants);
          ParsePrecedence(PREC_UNARY);
          Emit([OP_NEGATE]);
      }
    }

    method NamedVariable(ghost i: nat, x: Ident, assignOk: bool, ghost prec: nat)
      requires Valid() && prec >= PREC_ASSIGNMENT && assignOk == (prec <= PREC_ASSIGNMENT)
      requires i < |tokens| && pos == i + 1 && tokens[i] == Identifier(x)
      modifies this`pos, this`previous, this`hadError, this`panic, this`code, this`constants
      ensures Valid() && old(pos) <= pos && |old(code)| <= |code|
      ensures Reached(old(hadError), old(code), ExprEmission(ParsePrefix(tokens, i, prec), locals, old(constants)))
      decreases |tokens| - i, 0
    {
      hide GenExpr, ParsePrec, ParsePrefix, PrecEmission, ExprEmission, Resolve, IndexOf, AddConstant;
      VariablePrefix(tokens, i, x, prec, locals, constants);
      var slot := ResolveLocal(x);
      var get, put, arg: byte := OP_GET_LOCAL, OP_SET_LOCAL, 0;
      if slot != -1 {
        arg := slot;
      } else {
        get, put := OP_GET_GLOBAL, OP_SET_GLOBAL;
        arg := MakeConstant(Str(x));
      }
      if assignOk {
        var assign := Match(Equal);
        if assign {
          ParsePrecedence(PREC_ASSIGNMENT);
          Emit([put, arg]);
          return;
        }
      }
      Emit([get, arg]);
    }

    /** What the infix rule of the previous token compiles after the left operand. */
    method Infix(t: Token)
      requires Valid() && RulePrec(t) > PREC_NONE
      modifies this`pos, this`previous, this`hadError, this`panic, this`code, this`constants
      ensures Valid() && old(pos) <= pos && |old(code)| <= |code|
      ensures t == LeftParen ==>
        var p := ParseArgs(tokens, old(pos));
        var e := ArgsEmission(p, locals, old(constants));
        Reached(old(hadError), old(code), if e.Rejected? then Rejected else Append(e, [OP_CALL, |p.value|]))
      ensures t != LeftParen ==>
        Reached(old(hadError), old(code), InfixTail(t, PrecEmission(tokens, old(pos), RightPrec(t), locals,
          old(constants))))
      decreases |tokens| - pos, 5
    {
      hide GenExpr, GenArgs, ParsePrec, ParseArgs, PrecEmission, ArgsEmission, BinaryCode;
      match t {
        case LeftParen =>
          var argc := ArgumentList();
          Emit([OP_CALL, argc]);
        case Operator(op) =>
          ParsePrecedence(OperatorPrec(op) + 1);
          Emit(BinaryCode(op));
        case And => ShortCircuitOperator(OP_JUMP_IF_FALSE, PREC_AND);
        case Or => ShortCircuitOperator(OP_JUMP_IF_TRUE, PREC_OR);
      }
    }

    method ShortCircuitOperator(jump: byte, prec: nat)
      requires Valid()
      requires (jump == OP_JUMP_IF_FALSE && prec == PREC_AND) || (jump == OP_JUMP_IF_TRUE && prec == PREC_OR)
      modifies this`pos, this`previous, this`hadError, this`panic, this`code, this`constants
      ensures Valid() && old(pos) <= pos && |old(code)| <= |code|
      ensures var t := if jump == OP_JUMP_IF_FALSE then And else Or;
        Reached(old(hadError), old(code), InfixTail(t, PrecEmission(tokens, old(pos), prec, locals, old(constants))))
      decreases |tokens| - pos, 4
    {
      hide GenExpr, ParsePrec, PrecEmission, Patch, U16;
      ghost var before := code;
      var operand := EmitJump(jump);
      Emit([OP_POP]);
      ghost var start := code;
      ParsePrecedence(prec);
      if !hadError {
        ghost var e := code[|start|..];
        assert code == start + e;
        if |e| + 1 <= UINT16_MAX { ShortPatched(before, jump, e); }
      }
      PatchJump(operand);
    }

    /** The state of an argument list while nothing has gone wrong. */
    ghost predicate InArguments(i: nat, acc: seq<Expr>, more: bool, code0: seq<byte>, pool0: seq<Value>)
      reads this
    {
      && ParseArgs(tokens, i) ==
           (if more then ParseArgList(tokens, pos, acc)
            else if At(tokens, pos) == RightParen then Good(acc, pos + 1)
            else Bad)
      && code0 <= code
      && GenArgs(acc, locals, pool0) == Code.Emit(code[|code0|..], constants)
    }

    method ArgumentList() returns (argc: byte)
      requires Valid()
      modifies this`pos, this`previous, this`hadError, this`panic, this`code, this`constants
      ensures Valid() && old(pos) <= pos && |old(code)| <= |code|
      ensures var p := ParseArgs(tokens, old(pos));
        Reached(old(hadError), old(code), ArgsEmission(p, locals, old(constants)))
        && (!hadError ==> argc == |p.value|)
      decreases |tokens| - pos, 4
    {
      hide GenExpr, GenArgs, ParsePrec, ParseArgs, ParseArgList, ArgsEmission, PrecEmission;
      ghost var i, code0, pool0 := pos, code, constants;
      ArgsStart(tokens, i, locals, pool0);
      argc := 0;
      if !Check(RightParen) {
        ghost var acc: seq<Expr> := [];
        var more := true;
        while more
          invariant Valid() && i <= pos && |code0| <= |code|
          invariant old(hadError) ==> hadError
          invariant hadError ==> old(hadError) || ArgsEmission(ParseArgs(tokens, i), locals, pool0).Rejected?
          invariant !hadError ==> |acc| == argc && InArguments(i, acc, more, code0, pool0)
          decreases |tokens| - pos, more
        {
          argc, more, acc := Argument(argc, i, acc, code0, pool0);
        }
        if !hadError { ArgsEnd(acc, pos + 1, locals, pool0); }
      } else {
        ArgsEnd([], pos + 1, locals, pool0);
      }
      Consume(RightParen);
    }

    /** One argument and the comma after it, if any. */
    method Argument(argc: byte, ghost i: nat, ghost acc: seq<Expr>, ghost code0: seq<byte>, ghost pool0: seq<Value>)
      returns (argc': byte, more: bool, ghost acc': seq<Expr>)
      requires Valid() && i <= pos && |code0| <= |code|
      requires !hadError ==> |acc| == argc && InArguments(i, acc, true, code0, pool0)
      modifies this`pos, this`previous, this`hadError, this`panic, this`code, this`constants
      ensures Valid() && old(pos) <= pos && |old(code)| <= |code|
      ensures more ==> old(pos) < pos
      ensures old(hadError) ==> hadError
      ensures hadError ==> old(hadError) || ArgsEmission(ParseArgs(tokens, i), locals, pool0).Rejected?
      ensures !hadError ==> |acc'| == argc' && InArguments(i, acc', more, code0, pool0)
      decreases |tokens| - pos, 3
    {
      hide GenExpr, GenArgs, ParsePrec, ParseArgs, ParseArgList, ArgsEmission, PrecEmission;
      if !hadError { ArgTurn(tokens, pos, acc, locals, pool0); }
      ghost var at := pos;
      acc' := acc;
      ParsePrecedence(PREC_ASSIGNMENT);
      if !hadError { acc' := acc + [ParsePrec(tokens, at, PREC_ASSIGNMENT).value]; }
      if argc == UINT8_MAX {
        if !hadError { TooManyArguments(tokens, pos, acc', locals, pool0); }
        Error();
      }
      argc' := (argc + 1) % 256;
      more := Match(Comma);
    }

    // ----- statements -----

    ghost predicate InContext(c: Context)
      reads this
    {
      Situated(|code|, locals, level, loop, c)
    }

    method Condition()
      requires Valid()
      modifies this`pos, this`previous, this`hadError, this`panic, this`code, this`constants
      ensures Valid() && old(pos) <= pos && |old(code)| <= |code|
      ensures Reached(old(hadError), old(code), ExprEmission(ParseCondition(tokens, old(pos)), locals, old(constants)))
    {
      hide GenExpr, ParsePrec;
      Consume(LeftParen);
      ParsePrecedence(PREC_ASSIGNMENT);
      Consume(RightParen);
    }

    method ExpressionThen(t: Token)
      requires Valid() && t != Eof
      modifies this`pos, this`previous, this`hadError, this`panic, this`code, this`constants
      ensures Valid() && old(pos) <= pos && |old(code)| <= |code|
      ensures old(pos) < |tokens| ==> old(pos) < pos
      ensures Reached(old(hadError), old(code), ExprEmission(ParseExprThen(tokens, old(pos), t), locals,
        old(constants)))
    {
      hide GenExpr, ParsePrec;
      ParsePrecedence(PREC_ASSIGNMENT);
      Consume(t);
    }

    /** Leave the current scope: one pop for each of its locals. */
    method ScopeExit()
      requires Valid() && level > 0
      modifies this`level, this`code, this`locals
      ensures Valid() && level == old(level) - 1
      ensures locals == old(locals)[..|old(locals)| - Above(old(locals), level)]
      ensures code == old(code) + Pops(Above(old(locals), level))
    {
      level := level - 1;
      EndLocals();
    }

    method EndLocals()
      requires Valid()
      modifies this`code, this`locals
      ensures Valid()
      ensures locals == old(locals)[..|old(locals)| - Above(old(locals), level)]
      ensures code == old(code) + Pops(Above(old(locals), level))
    {
      hide Pops, Above, Popped;
      ghost var all, n := locals, 0;
      PopsNext(0);
      NonePopped(all, level);
      while |locals| > 0 && locals[|locals| - 1].level > level
        invariant Popped(all, level, n, locals) && code == old(code) + Pops(n)
        decreases |locals|
      {
        PopsNext(n);
        OnePopped(all, level, n, locals);
        Emit([OP_POP]);
        locals := locals[..|locals| - 1];
        n := n + 1;
      }
      AllPopped(all, level, n, locals);
    }

    /** `continue`: pop the locals of the loop body and jump to the top of the loop. */
    method ContinueStatement(ghost c: Context)
      requires Valid() && 0 < pos && At(tokens, pos - 1) == Continue
      requires !hadError ==> InContext(c)
      modifies this`pos, this`previous, this`hadError, this`panic, this`code
      ensures Valid() && old(pos) <= pos && |old(code)| <= |code|
      ensures ReachedStmt(old(hadError), old(|code|), StmtPlaced(ParseStmt(tokens, old(pos) - 1), c, old(constants),
        old(Chunk())))
      ensures !hadError ==> locals == c.locals
    {
      hide Pops, Above, Situated, StmtPlaced, PlaceStmt, ParseStmt, GenStmt, JumpCode, Scoping.Settled, Sorted;
      if !hadError { SituatedLoop(|code|, locals, level, loop, c); }
      ContinueCode(tokens, pos - 1, c, constants, Chunk());
      Consume(Semicolon);
      if loop.NoBlock? {
        Error();
        return;
      }
      BackToTop();
    }

    /** Pops for the locals of the loop, and the jump to its top. */
    method BackToTop()
      requires Valid() && loop.Active?
      modifies this`code, this`hadError, this`panic
      ensures Valid() && |old(code)| <= |code|
      ensures var n := Above(locals, loop.level);
        var back := |old(code)| + n - loop.top + 3;
        && hadError == (old(hadError) || back > UINT16_MAX)
        && (back <= UINT16_MAX ==> code == old(code) + (Pops(n) + JumpCode(OP_LOOP, back)))
    {
      hide Pops, Above, JumpCode;
      DiscardLocals();
      EmitLoop(loop.top);
    }

    /** The pops `continue` emits for the locals of the loop; the slots themselves stay. */
    method DiscardLocals()
      requires Valid() && loop.Active?
      modifies this`code
      ensures Valid() && code == old(code) + Pops(Above(locals, loop.level))
    {
      hide Pops, Above;
      PopsNext(0);
      var i := |locals|;
      assert locals[..i] == locals;
      AboveNext(locals, loop.level);
      while i > 0 && locals[i - 1].level > loop.level
        invariant 0 <= i <= |locals| && Valid()
        invariant Above(locals, loop.level) == |locals| - i + Above(locals[..i], loop.level)
        invariant i == 0 || locals[i - 1].level <= loop.level ==> Above(locals[..i], loop.level) == 0
        invariant code == old(code) + Pops(|locals| - i)
      {
        PopsNext(|locals| - i);
        assert locals[..i][..i - 1] == locals[..i - 1];
        AboveNext(locals[..i], loop.level);
        Emit([OP_POP]);
        i := i - 1;
        AboveNext(locals[..i], loop.level);
      }
    }

    /** The condition and first branch of an `if`, up to the start of the second one. */
    method ThenBranch(ghost c: Context) returns (elseJump: nat)
      requires Valid()
      requires !hadError ==> InContext(c)
      modifies this
      ensures Valid() && level == old(level) && loop == old(loop) && old(pos) <= pos && |old(code)| <= |code|
      ensures ReachedStmt(old(hadError), old(|code|), ThenPlaced(tokens, old(pos), c, old(constants), old(Chunk())))
      ensures !hadError ==> locals == c.locals
      ensures elseJump + 3 == |code| && 4 <= |code|
      decreases |tokens| - pos, 2
    {
      hide GenExpr, GenStmt, ParseStmt, ParseCondition, StmtPlaced, ExprEmission, Situated, Pieces.CloseThen;
      ghost var code0, size := code, |code|;
      if !hadError { SituatedLoop(|code|, locals, level, loop, c); }
      ghost var e := ExprEmission(ParseCondition(tokens, pos), locals, constants);
      Condition();
      var thenJump := EmitJump(OP_JUMP_IF_FALSE);
      Emit([OP_POP]);
      ghost var n, chunk := if e.Emitted? then |e.code| else 0, Chunk();
      if !hadError { EnterBranch(size, n + 4, locals, level, loop, c); }
      if !hadError { Guarded(code0, e.code); }
      ghost var t := if e.Emitted? then StmtPlaced(ParseStmt(tokens, e.pos), c.Past(n + 4), e.pool, chunk)
        else NotPlaced;
      Statement(c.Past(n + 4));
      elseJump := CloseThen(thenJump, if t.Placed? then t.size else 0);
    }

    /** The jump over the second branch; the conditional jump leads past it. */
    method CloseThen(thenJump: nat, ghost n: nat) returns (elseJump: nat)
      requires Valid() && thenJump + 2 <= |code|
      requires !hadError ==> thenJump + n + 3 == |code| && n + 4 <= |code|
      modifies this`code, this`hadError, this`panic
      ensures Valid() && |code| == |old(code)| + 4 && elseJump + 3 == |code|
      ensures old(hadError) ==> hadError
      ensures !old(hadError) ==> (hadError <==> n + 4 > UINT16_MAX)
      ensures !hadError ==> Chunk() == Pieces.CloseThen(old(Chunk()), n)
    {
      elseJump := EmitJump(OP_JUMP);
      PatchJump(thenJump);
      Emit([OP_POP]);
    }

    /** The second branch of an `if`, when there is one. */
    method ElseBranch(ghost c: Context)
      requires Valid()
      requires !hadError && At(tokens, pos) == Else ==> InContext(c)
      modifies this
      ensures Valid() && level == old(level) && loop == old(loop) && old(pos) <= pos && |old(code)| <= |code|
      ensures ReachedStmt(old(hadError), old(|code|),
        if At(tokens, old(pos)) == Else
        then StmtPlaced(ParseStmt(tokens, old(pos) + 1), c, old(constants), old(Chunk()))
        else Placed(0, old(constants), old(pos), old(Chunk())))
      ensures !hadError ==> locals == if At(tokens, old(pos)) == Else then c.locals else old(locals)
      decreases |tokens| - pos, 2
    {
      hide GenStmt, ParseStmt, StmtPlaced, Situated;
      var more := Match(Else);
      if more { Statement(c); }
    }

    method IfStatement(ghost c: Context)
      requires Valid() && 0 < pos && At(tokens, pos - 1) == If
      requires !hadError ==> InContext(c)
      modifies this
      ensures Valid() && level == old(level) && loop == old(loop) && old(pos) <= pos && |old(code)| <= |code|
      ensures ReachedStmt(old(hadError), old(|code|),
        ElsePlaced(tokens, ThenPlaced(tokens, old(pos), c, old(constants), old(Chunk())), c))
      ensures !hadError ==> locals == c.locals
      decreases |tokens| - pos, 3
    {
      hide ThenPlaced, StmtPlaced, Situated, Patch, Scoping.Settled, Sorted;
      ghost var size, t := |code|, ThenPlaced(tokens, pos, c, constants, Chunk());
      if !hadError { SituatedLoop(|code|, locals, level, loop, c); }
      var elseJump := ThenBranch(c);
      if !hadError { EnterBranch(size, t.size, locals, level, loop, c); }
      ElseBranch(c.Past(if t.Placed? then t.size else 0));
      PatchJump(elseJump);
    }

    // ----- loops -----

    /** The first occurrence of a placeholder with this opcode from `from` on, or -1. */
    method FindPlaceholder(from: nat, op: byte) returns (p: int)
      ensures p == FirstOpen(code, from, op)
    {
      p := from;
      while p + 3 <= |code|
        invariant from <= p && FirstOpen(code, from, op) == FirstOpen(code, p, op)
      {
        if IsPlaceholder(code, p, op) { return; }
        p := p + 1;
      }
      p := -1;
    }

    /** One of the two searches at the end of a loop, with its eight-bit position.  A turn that changes
        neither code nor position will be repeated for ever. */
    method SearchJumps(kind: Kind, bottom: nat)
      requires bottom + 1 == |code|
      modifies this`code, this`hung
      ensures |code| == |old(code)|
      ensures var r := Search(kind, old(code), 0);
        hung == (old(hung) || r.Unending?) && (r.Done? ==> code == r.code)
    {
      hide FirstOpen, IsPlaceholder;
      var i := 0;
      while i < |code| - 3
        invariant |code| == |old(code)| && hung == old(hung) && 0 <= i
        invariant Search(kind, code, i) == Search(kind, old(code), 0)
        decreases Weight(code, kind.Op(), 0), if i == Standing(code, kind) then 0 else 1
      {
        var p := FindPlaceholder(i, kind.Op());
        if p == -1 { break; }
        var distance := bottom - p - i - kind.Slack();
        var code0, i0 := code, i;
        code := Aim(code, p, distance);
        i := (i + p) % 256;
        TurnProgress(kind, code0, i0);
        if code == code0 && i == i0 {
          hung := true;
          break;
        }
      }
    }

    /** Condition and body of a loop whose top is here, and its end. */
    method LoopBody(ghost c: Context, ghost outer: LoopBlock)
      requires Valid() && level > 0 && loop == Active(|code|, level - 1)
      requires !hadError ==> Situated(|code|, locals, level - 1, outer, c)
      modifies this
      ensures Valid() && level == old(level) && loop == old(loop) && old(pos) <= pos && |old(code)| <= |code|
      ensures ReachedStmt(old(hadError), old(|code|), LoopPlaced(tokens, old(pos), c, old(constants), old(Chunk())))
      ensures !hadError ==> locals == c.locals
      ensures var l := LoopEnd(tokens, old(pos), c, old(constants), old(Chunk()));
        !old(hadError) && l.Placed? ==> Chunk() == l.chunk
      decreases |tokens| - pos, 2
    {
      hide GenExpr, GenStmt, ParseStmt, ParseCondition, StmtPlaced, ExprEmission, Situated, Pieces.CloseLoop;
      var top := |code|;
      ghost var code0 := code;
      if !hadError { SituatedLoop(|code|, locals, level - 1, outer, c); }
      ghost var e := ExprEmission(ParseCondition(tokens, pos), locals, constants);
      Condition();
      var _ := EmitJump(OP_JUMP_IF_FALSE);
      Emit([OP_POP]);
      ghost var n := if e.Emitted? then |e.code| else 0;
      if !hadError { EnterLoop(top, n, locals, level - 1, outer, c); }
      if !hadError { Guarded(code0, e.code); }
      Statement(LoopContext(c, n));
      CloseLoop(top);
    }

    /** The jump back to the top of a loop, the pop its exit leads to, and the searches.  They are made
        after an error too. */
    method CloseLoop(top: nat)
      requires Valid() && top <= |code|
      modifies this`code, this`hadError, this`panic, this`hung
      ensures Valid() && |old(code)| <= |code|
      ensures var back := |old(code)| - top + 3;
        && hadError == (old(hadError) || back > UINT16_MAX)
        && (!hadError ==> |code| == |old(code)| + 4)
        && Chunk() == Pieces.CloseLoop(old(Chunk()), back)
    {
      hide Search;
      assert code + [] == code;
      EmitLoop(top);
      var bottom := |code|;
      Emit([OP_POP]);
      SearchJumps(Exits, bottom);
      SearchJumps(Breaks, bottom);
    }

    method WhileStatement(ghost c: Context)
      requires Valid() && 0 < pos && At(tokens, pos - 1) == While
      requires !hadError ==> InContext(c)
      modifies this
      ensures Valid() && level == old(level) && loop == old(loop) && old(pos) <= pos && |old(code)| <= |code|
      ensures ReachedStmt(old(hadError), old(|code|), LoopPlaced(tokens, old(pos), c, old(constants), old(Chunk())))
      ensures !hadError ==> locals == c.locals
      decreases |tokens| - pos, 3
    {
      hide LoopPlaced, Situated, Above, Pops;
      if !hadError { SituatedLoop(|code|, locals, level, loop, c); }
      var saved := loop;
      loop := Active(|code|, level);
      level := level + 1;
      LoopBody(c, saved);
      loop := saved;
      if !hadError {
        Scoping.OuterSelf(locals, level - 1);
        PopsNext(0);
      }
      ScopeExit();
    }

    // ----- declarations -----

    /** The identifier a declaration needs; after an error any name will do. */
    method ConsumeIdentifier() returns (x: Ident)
      requires Valid()
      modifies this`pos, this`previous, this`hadError, this`panic
      ensures Valid()
      ensures At(tokens, old(pos)).Identifier? ==>
        pos == old(pos) + 1 && x == At(tokens, old(pos)).name && hadError == old(hadError)
      ensures !At(tokens, old(pos)).Identifier? ==> pos == old(pos) && hadError
    {
      if At(tokens, pos).Identifier? { Advance(); } else { Error(); }
      x := if previous.Identifier? then previous.name else "_";
    }

    /** Declare a local, unless the scope is the top level. */
    method DeclareVariable(x: Ident)
      requires Valid()
      modifies this`locals, this`hadError, this`panic
      ensures Valid() && (old(hadError) ==> hadError)
      ensures Scoping.Settled(old(locals), level) && Sorted(old(locals)) ==>
        hadError == (old(hadError) || (level > 0 && (AlreadyDeclared(old(locals), x,
          level) || |old(locals)| > UINT8_MAX)))
      ensures locals == if level == 0 || |old(locals)| > UINT8_MAX then old(locals) else old(locals) + [Local(x, -1)]
    {
      if level == 0 { return; }
      var i := |locals|;
      while i > 0
        invariant 0 <= i <= |locals| && Valid() && locals == old(locals) && (old(hadError) ==> hadError)
        invariant Scoping.Settled(locals, level) && Sorted(locals) ==>
          (forall k :: i <= k < |locals| ==> locals[k].level == level) &&
          hadError == (old(hadError) || exists k :: i <= k < |locals| && locals[k].name == x)
      {
        if locals[i - 1].level != -1 && locals[i - 1].level < level { break; }
        if locals[i - 1].name == x { Error(); }
        i := i - 1;
      }
      if Scoping.Settled(locals, level) && Sorted(locals) { DeclaredFrom(locals, x, level, i); }
      if |locals| > UINT8_MAX {
        Error();
        return;
      }
      locals := locals + [Local(x, -1)];
    }

    method Initializer()
      requires Valid()
      modifies this`pos, this`previous, this`hadError, this`panic, this`code, this`constants
      ensures Valid() && old(pos) <= pos && |old(code)| <= |code|
      ensures Reached(old(hadError), old(code), InitEmission(tokens, old(pos), locals, old(constants)))
    {
      hide GenExpr, ParseExprThen;
      var given := Match(Equal);
      if given {
        ExpressionThen(Semicolon);
      } else {
        Emit([OP_NIL]);
        Consume(Semicolon);
      }
    }

    method VarDeclaration(ghost c: Context)
      requires Valid() && 0 < pos && At(tokens, pos - 1) == Var
      requires !hadError ==> InContext(c)
      modifies this
      ensures Valid() && level == old(level) && loop == old(loop) && old(pos) <= pos && |old(code)| <= |code|
      ensures ReachedDecl(old(hadError), old(|code|), VarPlaced(tokens, old(pos) - 1, c, old(constants), old(Chunk())))
    {
      hide InitEmission, Situated, Scoping.Settled, Sorted, AlreadyDeclared, WithConstant;
      if !hadError { SituatedLoop(|code|, locals, level, loop, c); }
      var x := ConsumeIdentifier();
      if level == 0 {
        GlobalVariable(x);
      } else {
        DeclareVariable(x);
        Initializer();
        locals := locals[|locals| - 1 := locals[|locals| - 1].(level := level)];
      }
    }

    /** A global: its name is a constant, and its definition takes the value off the stack. */
    method GlobalVariable(x: Ident)
      requires Valid() && level == 0
      modifies this`pos, this`previous, this`hadError, this`panic, this`code, this`constants
      ensures Valid() && old(pos) <= pos && |old(code)| <= |code|
      ensures var def := WithConstant(OP_DEFINE_GLOBAL, Str(x), old(constants));
        Reached(old(hadError), old(code),
          if def.Fail? then Rejected else Append(InitEmission(tokens, old(pos), locals, def.pool), def.code))
    {
      hide InitEmission;
      var i := MakeConstant(Str(x));
      Initializer();
      Emit([OP_DEFINE_GLOBAL, i]);
    }

    ghost predicate ReachedDecl(failed: bool, size: nat, d: Declared)
      reads this
    {
      && (hadError <==> failed || d.NotDeclared? || d.placed.NotPlaced?)
      && (!hadError ==> pos == d.placed.pos && |code| == size + d.placed.size && constants == d.placed.pool
                        && Chunk() == d.placed.chunk && locals == d.locals)
    }

    /** A statement seems to begin after a semicolon, and at some keywords. */
    static predicate Resumes(previous: Token, current: Token) {
      previous == Semicolon || current == Var || current == If || current == While || current == Print
    }

    /** After an error, skip to where a statement seems to begin. */
    method Synchronize()
      requires Valid()
      modifies this`panic, this`pos, this`previous
      ensures Valid() && !panic && old(pos) <= pos
      ensures previous == if pos == old(pos) then old(previous) else At(tokens, pos - 1)
      ensures At(tokens, pos) == Eof || Resumes(previous, At(tokens, pos))
      ensures old(pos) < pos ==> !Resumes(old(previous), At(tokens, old(pos)))
      ensures forall j :: old(pos) < j < pos ==> !Resumes(At(tokens, j - 1), At(tokens, j))
    {
      panic := false;
      while At(tokens, pos) != Eof
        invariant Valid() && !panic && old(pos) <= pos
        invariant previous == if pos == old(pos) then old(previous) else At(tokens, pos - 1)
        invariant old(pos) < pos ==> !Resumes(old(previous), At(tokens, old(pos)))
        invariant forall j :: old(pos) < j < pos ==> !Resumes(At(tokens, j - 1), At(tokens, j))
        decreases |tokens| - pos
      {
        if previous == Semicolon { return; }
        match At(tokens, pos) {
          case Var | If | While | Print => return;
          case _ =>
        }
        Advance();
      }
    }

    method Declaration(ghost c: Context)
      requires Valid()
      requires !hadError ==> InContext(c)
      modifies this
      ensures Valid() && level == old(level) && loop == old(loop) && old(pos) <= pos && |old(code)| <= |code|
      ensures old(pos) < |tokens| ==> old(pos) < pos
      ensures ReachedDecl(old(hadError), old(|code|), DeclPlaced(ParseDecl(tokens, old(pos)), c, old(constants),
        old(Chunk())))
      decreases |tokens| - pos, 2
    {
      hide GenDecl, GenStmt, ParseDecl, ParseStmt, VarPlaced, StmtPlaced, PlaceStmt, DeclPlaced, Situated;
      var isVar := Match(Var);
      if isVar {
        VarParses(tokens, pos - 1, c, constants, Chunk());
        VarDeclaration(c);
      } else {
        DeclParses(tokens, pos, c, constants, Chunk());
        Statement(c);
      }
      if panic { Synchronize(); }
    }

    /** The state of a declaration list while nothing has gone wrong. */
    ghost predicate InList(i: nat, close: Token, acc: seq<Decl>, size: nat, pool: seq<Value>, c: Context, at: Outcome)
      reads this
    {
      && ParseDecls(tokens, i, close, []) == ParseDecls(tokens, pos, close, acc)
      && var g := GenDecls(acc, c, pool);
      && g.DeclEmit? && |code| == size + |g.code| && constants == g.pool && locals == g.locals
      && Chunk() == PlaceDecls(acc, c, pool, at)
      && InContext(c.Past(|g.code|).(locals := locals))
    }

    /** Declarations up to a closing token or the end of the source. */
    method Declarations(close: Token, ghost c: Context)
      requires Valid() && (close == RightBrace || close == Eof)
      requires !hadError ==> InContext(c)
      modifies this
      ensures Valid() && level == old(level) && loop == old(loop) && old(pos) <= pos && |old(code)| <= |code|
      ensures old(hadError) ==> hadError
      ensures var d := DeclsPlaced(ParseDecls(tokens, old(pos), close, []), c, old(constants), old(Chunk()));
        && (hadError ==> old(hadError) || d.NotDeclared?)
        && (!hadError && At(tokens, pos) != close ==> d.NotDeclared?)
        && (!hadError && At(tokens, pos) == close ==>
              d == Declared(Placed(|code| - old(|code|), constants, pos, Chunk()), locals))
      ensures Check(close) || Check(Eof)
      decreases |tokens| - pos, 4
    {
      hide GenDecl, GenDecls, ParseDecl, ParseDecls, Situated, DeclPlaced, PlaceDecls;
      ghost var i, size, pool0, at := pos, |code|, constants, Chunk();
      ghost var acc: seq<Decl> := [];
      if !hadError {
        SituatedLoop(|code|, locals, level, loop, c);
        DeclsStart(c, constants, at);
        StartList(|code|, locals, level, loop, c);
      }
      while !Check(close) && !Check(Eof)
        invariant Valid() && level == old(level) && loop == old(loop) && i <= pos && size <= |code|
        invariant old(hadError) ==> hadError
        invariant hadError ==>
          old(hadError) || DeclsPlaced(ParseDecls(tokens, i, close, []), c, pool0, at).NotDeclared?
        invariant !hadError ==> InList(i, close, acc, size, pool0, c, at)
        decreases |tokens| - pos
      {
        acc := OneDeclaration(i, close, acc, size, pool0, c, at);
      }
      if !hadError { DeclsEnd(tokens, pos, close, acc, c, pool0, at); }
    }

    method OneDeclaration(ghost i: nat, ghost close: Token, ghost acc: seq<Decl>, ghost size: nat,
        ghost pool0: seq<Value>, ghost c: Context, ghost at: Outcome)
      returns (ghost acc': seq<Decl>)
      requires Valid() && At(tokens, pos) != close && At(tokens, pos) != Eof
      requires !hadError ==> InList(i, close, acc, size, pool0, c, at)
      modifies this
      ensures Valid() && level == old(level) && loop == old(loop) && old(pos) < pos && |old(code)| <= |code|
      ensures old(hadError) ==> hadError
      ensures hadError ==>
        old(hadError) || DeclsPlaced(ParseDecls(tokens, i, close, []), c, pool0, at).NotDeclared?
      ensures !hadError ==> InList(i, close, acc', size, pool0, c, at)
      decreases |tokens| - pos, 3
    {
      hide GenDecl, GenDecls, ParseDecl, ParseDecls, Situated, DeclPlaced, DeclsPlaced, PlaceDecls;
      acc' := acc;
      ghost var part := |code| - size;
      ghost var c' := if hadError then c else c.Past(part).(locals := locals);
      ghost var from, n, locals1, pool1, chunk := pos, |code|, locals, constants, Chunk();
      if !hadError { DeclTurn(tokens, pos, close, acc, c, pool0, at); }
      Declaration(c');
      if !hadError {
        acc' := acc + [ParseDecl(tokens, from).value];
        SituatedLoop(n, locals1, level, loop, c');
        DeclSlotsKept(ParseDecl(tokens, from), c', pool1, chunk);
        NextContext(n, part, |code| - n, locals1, locals, level, loop, c);
      }
    }

    /** A block, once its scope is entered. */
    method BlockStatement(ghost c: Context)
      requires Valid() && 0 < pos && At(tokens, pos - 1) == LeftBrace
      requires !hadError ==> InContext(c)
      modifies this
      ensures Valid() && level == old(level) && loop == old(loop) && old(pos) <= pos && |old(code)| <= |code|
      ensures ReachedStmt(old(hadError), old(|code|), StmtPlaced(ParseStmt(tokens, old(pos) - 1), c, old(constants),
        old(Chunk())))
      ensures !hadError ==> locals == c.locals
      decreases |tokens| - pos, 5
    {
      hide GenDecls, GenStmt, ParseDecls, ParseStmt, StmtPlaced, PlaceStmt, DeclsPlaced, Situated, Above, Pops,
        Scoping.Settled, Statements.Extends, Sorted;
      BlockParses(tokens, pos - 1, c, constants, Chunk());
      ghost var inner := c.(level := c.level + 1);
      ghost var p, pool0, at := ParseDecls(tokens, pos, RightBrace, []), constants, Chunk();
      if !hadError {
        SituatedLoop(|code|, locals, level, loop, c);
        EnterBlock(|code|, locals, level, loop, c);
      }
      level := level + 1;
      Declarations(RightBrace, inner);
      if !hadError && Check(RightBrace) { BlockSlots(p, c, pool0, at); }
      Consume(RightBrace);
      ScopeExit();
    }

    method Statement(ghost c: Context)
      requires Valid()
      requires !hadError ==> InContext(c)
      modifies this
      ensures Valid() && level == old(level) && loop == old(loop) && old(pos) <= pos && |old(code)| <= |code|
      ensures old(pos) < |tokens| ==> old(pos) < pos
      ensures ReachedStmt(old(hadError), old(|code|), StmtPlaced(ParseStmt(tokens, old(pos)), c, old(constants),
        old(Chunk())))
      ensures !hadError ==> locals == c.locals
      decreases |tokens| - pos, 1
    {
      hide GenStmt, ParseStmt, StmtPlaced, PlaceStmt, Situated, ThenPlaced, ElsePlaced, LoopPlaced, ReachedStmt;
      match At(tokens, pos) {
        case Print => PrintStatement(c);
        case If =>
          IfParses(tokens, pos, c, constants, Chunk());
          Advance();
          IfStatement(c);
        case While =>
          WhileParses(tokens, pos, c, constants, Chunk());
          Advance();
          WhileStatement(c);
        case Continue =>
          Advance();
          ContinueStatement(c);
        case LeftBrace =>
          Advance();
          BlockStatement(c);
        case _ => ExpressionStatement(c);
      }
    }

    method PrintStatement(ghost c: Context)
      requires Valid() && At(tokens, pos) == Print
      requires !hadError ==> InContext(c)
      modifies this`pos, this`previous, this`hadError, this`panic, this`code, this`constants
      ensures Valid() && old(pos) < pos && |old(code)| <= |code|
      ensures ReachedStmt(old(hadError), old(|code|), StmtPlaced(ParseStmt(tokens, old(pos)), c, old(constants),
        old(Chunk())))
      ensures !hadError ==> locals == c.locals
    {
      hide GenStmt, GenExpr, ParseStmt, ParseExprThen, StmtPlaced, PlaceStmt, ExprEmission, Situated;
      if !hadError { SituatedLoop(|code|, locals, level, loop, c); }
      SimpleCode(tokens, pos, c, constants, Chunk());
      Advance();
      ExpressionThen(Semicolon);
      Emit([OP_PRINT]);
    }

    method ExpressionStatement(ghost c: Context)
      requires Valid()
      requires match At(tokens, pos) case Print => false case If => false case While => false case Continue => false
               case LeftBrace => false case _ => true
      requires !hadError ==> InContext(c)
      modifies this`pos, this`previous, this`hadError, this`panic, this`code, this`constants
      ensures Valid() && old(pos) <= pos && |old(code)| <= |code|
      ensures old(pos) < |tokens| ==> old(pos) < pos
      ensures ReachedStmt(old(hadError), old(|code|), StmtPlaced(ParseStmt(tokens, old(pos)), c, old(constants),
        old(Chunk())))
      ensures !hadError ==> locals == c.locals
    {
      hide GenStmt, GenExpr, ParseStmt, ParseExprThen, StmtPlaced, PlaceStmt, ExprEmission, Situated;
      if !hadError { SituatedLoop(|code|, locals, level, loop, c); }
      SimpleCode(tokens, pos, c, constants, Chunk());
      ExpressionThen(Semicolon);
      Emit([OP_POP]);
    }

    /** The whole source: declarations to its end, then the implicit return. */
    method CompileScript()
      requires Valid() && !hadError && !hung && pos == 0 && code == [] && constants == []
      requires locals == TOP_LEVEL.locals && level == 0 && loop == NoBlock
      modifies this
      ensures var p := ParseScript(tokens);
        hadError <==> p.Bad? || GenScript(p.value).Fail?
      ensures !hadError ==>
        var ds := ParseScript(tokens).value;
        constants == GenScript(ds).pool && Chunk() == PlaceScript(ds)
    {
      hide GenDecls, ParseDecls, Situated, PlaceDecls;
      StartScript();
      Declarations(Eof, TOP_LEVEL);
      Emit([OP_NIL, OP_RETURN]);
    }
  }

  lemma StartScript()
    ensures Situated(0, TOP_LEVEL.locals, 0, NoBlock, TOP_LEVEL)
  {
  }

  /** `compile`: no function on an error, otherwise the function's code and constants.  `hung` says that
      the original never returns. */
  method Compile(tokens: seq<Token>) returns (hung: bool, failed: bool, code: seq<byte>, constants: seq<Value>)
    ensures var p := ParseScript(tokens);
      failed <==> p.Bad? || GenScript(p.value).Fail?
    ensures !failed ==>
      var ds := ParseScript(tokens).value;
      constants == GenScript(ds).pool && (if hung then Unending else Done(code)) == PlaceScript(ds)
  {
    var compiler := new Compiler(tokens);
    compiler.CompileScript();
    hung, failed, code, constants := compiler.hung, compiler.hadError, compiler.code, compiler.constants;
  }
}
