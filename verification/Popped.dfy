/** A `continue` that leaves a captured local: it pops the local plainly, and the run is not legal. */
module Popped {
  import opened Values
  import opened Bytecode
  import opened Functions
  import opened Legality
  import CellMachine
  import ClosureCode
  import Codegen
  import Discipline
  import Instructions
  import Laying
  import Lexical
  import Pieces
  import SoundCode
  import StackTypes
  import Syntax

  const READ: seq<Item> := [Stat(Do(Syntax.Variable("x")))]

  const X: Item := Var("x", None)
  const F: Item := Fun("f", [], READ)
  const NEXT: Item := Stat(Statement.Continue)

  /** `while (true) { var x; func f() { x; } continue; }` */
  const LOOP: Statement := While(Syntax.Literal(Bool(true)), Statement.Block([X, F, NEXT]))
  const ITEMS: seq<Item> := [Stat(LOOP)]

  const THIS := Lexical.Local("this", 0, false)

  function Around(captured: bool): (r: seq<Lexical.Local>)
    ensures |r| == 3
  {
    [THIS, Lexical.Local("x", 2, captured), Lexical.Local("f", 2, false)]
  }

  const INSIDE: Chain := [Lexical.Level(Around(false), [])]
  const AFTER: Chain := [Lexical.Level(Around(true), [])]
  const BODY_LEVEL := Lexical.Level([Lexical.Local("", 0, false)], [])
  const READS := Lexical.Level([Lexical.Local("", 0, false)], [Lexical.Entry(true, 1)])

  const READ_CODE: seq<byte> := [OP_GET_UPVALUE, 0, OP_POP]
  const FUNCTION: Function := Function(0, 1, READ_CODE + [OP_NIL, OP_RETURN], [])

  lemma Entered()
    ensures Enter([], INSIDE) == [BODY_LEVEL] + INSIDE
  {
    assert Parameters([]) == BODY_LEVEL.locals;
  }

  /** The function captures slot 1. */
  lemma Resolved()
    ensures Lexical.ResolveUp([BODY_LEVEL] + INSIDE, "x") == Lexical.Resolution([READS] + AFTER, 0, false, false)
    ensures Lexical.Newest(BODY_LEVEL.locals, "x") == -1
  {
    var chain: Chain := [BODY_LEVEL] + INSIDE;
    var locals := chain[1].locals;
    assert locals[..2][1].name == "x";
    assert Lexical.Newest(locals[..2], "x") == 1;
    assert Lexical.Newest(locals, "x") == 1;
    var e := Lexical.Entry(true, 1);
    assert Lexical.IndexOf([], e) == 0;
    assert Lexical.AddEntry([], e) == ([] + [e], 0, false);
    assert Lexical.MarkCaptured(chain[1], 1) == Lexical.Level(Around(true), []);
    assert chain[2..] == [] && [] + [e] == [e];
    assert [chain[0].(upvalues := [e]), Lexical.MarkCaptured(chain[1], 1)] + chain[2..] == [READS] + AFTER;
    assert Lexical.Newest([BODY_LEVEL.locals[0]], "x") == Lexical.Newest([], "x");
  }

  lemma AccessCode()
    ensures Access(GET, "x", [], [BODY_LEVEL] + INSIDE) == Made([OP_GET_UPVALUE, 0], [], [READS] + AFTER)
  {
    hide Lexical.ResolveUp, Lexical.Newest;
    Resolved();
  }

  lemma ReadCode()
    ensures MakeItems(READ, BODY, [], [BODY_LEVEL] + INSIDE) == Made(READ_CODE, [], [READS] + AFTER)
  {
    hide Access, MakeItems;
    var chain: Chain := [BODY_LEVEL] + INSIDE;
    AccessCode();
    assert MakeItem(READ[0], BODY, [], chain) == Made([OP_GET_UPVALUE, 0] + [OP_POP], [], [READS] + AFTER);
    OneItem(READ[0], BODY, [], chain);
  }

  lemma {:induction false} OneItem(d: Item, c: Spot, pool: seq<Constant>, chain: Chain)
    ensures MakeItems([d], c, pool, chain) == MakeItem(d, c, pool, chain)
  {
    hide MakeItem;
    assert [d][..0] == [];
    assert MakeItems([], c, pool, chain) == Made([], pool, chain);
    assert c.Past(0) == c;
    var m := MakeItem(d, c, pool, chain);
    if m.Made? { assert [] + m.code == m.code; }
  }

  /** Without loops the chunk is the code. */
  lemma {:induction false} PlainChunk(ds: seq<Item>, c: Spot, chain: Chain)
    requires MakeItems(ds, c, [], chain).Made? && !ItemsOutline(ds).HasLoop()
    ensures LayItems(ds, c, chain) == MakeItems(ds, c, [], chain)
  {
    hide MakeItems, ShapeItems, ItemsOutline, Pieces.Lay, Pieces.CodeOf, Pieces.Fits;
    ItemsShaped(ds, c, [], chain);
    Laying.PlainLaid(ShapeItems(ds, c, [], chain), []);
    var code := MakeItems(ds, c, [], chain).code;
    assert [] + code == code;
  }

  lemma ReadChunk()
    ensures LayItems(READ, BODY, Enter([], INSIDE)) == Made(READ_CODE, [], [READS] + AFTER)
  {
    hide MakeItems, LayItems;
    Entered();
    ReadCode();
    ReadStraight();
    PlainChunk(READ, BODY, [BODY_LEVEL] + INSIDE);
  }

  lemma ReadStraight()
    ensures !ItemsOutline(READ).HasLoop() && ItemsOutline(READ).Tame() && ItemsTame(READ)
  {
    assert READ[..0] == [];
    assert ItemsOutline([]) == Pieces.Straight && ItemOutline(READ[0]) == Pieces.Straight;
  }

  lemma {:induction false} FunctionCode()
    ensures MakeFunction([], READ, [], INSIDE) == Made([OP_CLOSURE, 0, 1, 1], [Compiled(FUNCTION)], AFTER)
  {
    hide LayItems;
    ReadChunk();
    var inner := Made(READ_CODE, [], [READS] + AFTER);
    assert inner.chain[1..] == AFTER;
    assert Ended(0, inner) == FUNCTION;
    assert FirstSame([], Compiled(FUNCTION), 0) == 0;
    OneOperand();
    assert [OP_CLOSURE, 0] + [1, 1] == [OP_CLOSURE, 0, 1, 1];
    assert [] + [Compiled(FUNCTION)] == [Compiled(FUNCTION)];
  }

  lemma OneOperand()
    ensures ClosureCode.InRange([Lexical.Entry(true, 1)])
    ensures ClosureCode.Operands([Lexical.Entry(true, 1)]) == [1, 1]
  {
    var e := [Lexical.Entry(true, 1)];
    assert e[..0] == [] && ClosureCode.Operands([]) == [];
  }

  // ----- the script -----

  const IN_BLOCK := Spot(2, Codegen.InLoop(5, 0))

  lemma {:induction false} VarCode()
    ensures MakeItem(X, IN_BLOCK, [], SCRIPT) ==
      Made([OP_NIL], [], [Lexical.Level([THIS, Lexical.Local("x", 2, false)], [])])
  {
    var between := AddLocal(SCRIPT, "x", -1);
    assert between[0].locals == [THIS, Lexical.Local("x", -1, false)];
    assert Initialized(between, 2)[0].locals == [THIS, Lexical.Local("x", 2, false)];
    assert Initialized(between, 2) == [Lexical.Level([THIS, Lexical.Local("x", 2, false)], [])];
  }

  lemma {:induction false} FunCode()
    ensures MakeItem(F, IN_BLOCK.Past(1), [], [Lexical.Level([THIS, Lexical.Local("x", 2, false)], [])]) ==
      Made([OP_CLOSURE, 0, 1, 1], [Compiled(FUNCTION)], AFTER)
  {
    hide MakeFunction;
    FunctionCode();
    var chain: Chain := [Lexical.Level([THIS, Lexical.Local("x", 2, false)], [])];
    assert AddLocal(chain, "f", 2)[0].locals == Around(false);
    assert AddLocal(chain, "f", 2) == INSIDE;
  }

  lemma {:induction false} ContinueCode()
    ensures MakeItem(NEXT, IN_BLOCK.Past(5), [Compiled(FUNCTION)], AFTER) ==
      Made([OP_POP, OP_POP, OP_LOOP, 15, 0], [Compiled(FUNCTION)], AFTER)
  {
    TwoDeeper(0);
    assert Codegen.Pops(2) + Codegen.JumpCode(OP_LOOP, 15) == [OP_POP, OP_POP, OP_LOOP, 15, 0];
  }

  lemma TwoDeeper(level: int)
    requires 0 <= level < 2
    ensures Deeper(Around(true), level) == 2 && EndLocals(Around(true), level) == [OP_POP, OP_CLOSE_UPVALUE]
    ensures Around(true)[..1] == [THIS]
  {
    var a := Around(true);
    assert a[..2] == [a[0], a[1]] && a[..2][..1] == [a[0]];
    assert Deeper(a[..2][..1], level) == 0 && EndLocals(a[..2][..1], level) == [];
    assert Deeper(a[..2], level) == 1 && EndLocals(a[..2], level) == [OP_CLOSE_UPVALUE];
  }

  const BLOCK_CODE: seq<byte> := [OP_NIL, OP_CLOSURE, 0, 1, 1, OP_POP, OP_POP, OP_LOOP, 15, 0]

  lemma {:induction false} BlockCode()
    ensures MakeItems([X, F, NEXT], IN_BLOCK, [], SCRIPT) == Made(BLOCK_CODE, [Compiled(FUNCTION)], AFTER)
  {
    hide MakeItem;
    var ds := [X, F, NEXT];
    VarCode();
    FunCode();
    ContinueCode();
    OneItem(X, IN_BLOCK, [], SCRIPT);
    assert ds[..2] == [X, F] && [X, F][..1] == [X];
    assert [OP_NIL] + [OP_CLOSURE, 0, 1, 1] == BLOCK_CODE[..5];
    assert BLOCK_CODE[..5] + [OP_POP, OP_POP, OP_LOOP, 15, 0] == BLOCK_CODE;
    assert MakeItems([X, F], IN_BLOCK, [], SCRIPT) == Made(BLOCK_CODE[..5], [Compiled(FUNCTION)], AFTER);
  }

  const CHUNK: seq<byte> := [OP_TRUE, OP_JUMP_IF_FALSE, 16, 0, OP_POP] + BLOCK_CODE
    + [OP_POP, OP_CLOSE_UPVALUE, OP_LOOP, 20, 0, OP_POP]

  lemma {:induction false} LoopCode()
    ensures MakeItems(ITEMS, TOP, [], SCRIPT) == Made(CHUNK, [Compiled(FUNCTION)], SCRIPT)
  {
    hide MakeItems, EndLocals, Deeper, Codegen.WhileCode;
    OneItem(Stat(LOOP), TOP, [], SCRIPT);
    BlockCode();
    TwoDeeper(1);
    var block := Statement.Block([X, F, NEXT]);
    assert TOP.Inside(1).(level := TOP.Inside(1).level + 1) == IN_BLOCK;
    assert WithLocals(AFTER, [THIS]) == SCRIPT;
    assert MakeStmt(block, TOP.Inside(1), [], SCRIPT) ==
      Made(BLOCK_CODE + [OP_POP, OP_CLOSE_UPVALUE], [Compiled(FUNCTION)], SCRIPT);
    WhileMade(Syntax.Literal(Bool(true)), block, TOP, [], SCRIPT);
    Whole();
  }

  lemma Whole()
    ensures Codegen.WhileCode([OP_TRUE], BLOCK_CODE + [OP_POP, OP_CLOSE_UPVALUE]) == CHUNK
  {
  }

  const SCRIPT_FUNCTION: Function := Function(0, 0, CHUNK + [OP_NIL, OP_RETURN], [Compiled(FUNCTION)])

  /** The script is tame. */
  lemma IsTame()
    ensures Tame(ITEMS)
  {
    var ds := [X, F, NEXT];
    assert ds[..2] == [X, F] && [X, F][..1] == [X] && [X][..0] == [] && ITEMS[..0] == [];
    ReadStraight();
    hide Pieces.Outline.Tame;
    assert ItemsTame([X]) && ItemsTame([X, F]) && ItemsTame(ds);
    assert FunctionsTame(Statement.Block(ds)) && FunctionsTame(LOOP);
    assert ItemsTame(ITEMS);
    LoopOutline();
  }

  lemma LoopOutline()
    ensures ItemsOutline(ITEMS).Tame()
  {
    var ds := [X, F, NEXT];
    assert ds[..2] == [X, F] && [X, F][..1] == [X] && [X][..0] == [] && ITEMS[..0] == [];
    var o := Pieces.Straight;
    assert ItemsOutline([]) == o;
    var one := Pieces.Sequence(o, o);
    assert ItemsOutline([X]) == one && !one.HasLoop();
    var two := Pieces.Sequence(one, o);
    assert ItemsOutline([X, F]) == two && !two.HasLoop();
    var three := Pieces.Sequence(two, o);
    assert ItemsOutline(ds) == three && !three.HasLoop();
    var block := Pieces.Sequence(three, o);
    assert StmtOutline(Statement.Block(ds)) == block && !block.HasLoop();
    var loop := Pieces.Repeat(block);
    assert StmtOutline(LOOP) == loop && loop.Tame();
    assert ItemsOutline(ITEMS) == Pieces.Sequence(o, loop);
  }

  lemma Compiles()
    ensures MakeScript(ITEMS) == Accepted(SCRIPT_FUNCTION) && Compact(SCRIPT_FUNCTION)
  {
    hide MakeItems, MakeScript;
    LoopCode();
    IsTame();
    SoundCode.ScriptChunk(ITEMS);
  }

  /** But a `continue` leaves a captured local. */
  lemma {:induction false} LeavesCaptured()
    ensures !Discipline.AllClose(ITEMS, TOP, [], SCRIPT)
  {
    hide MakeItem, MakeExpr, Discipline.NoneCaptured;
    var ds := [X, F, NEXT];
    assert ds[..2] == [X, F] && ITEMS[..0] == [];
    VarCode();
    FunCode();
    OneItem(X, IN_BLOCK, [], SCRIPT);
    assert [X, F][..1] == [X];
    assert [OP_NIL] + [OP_CLOSURE, 0, 1, 1] == BLOCK_CODE[..5];
    assert MakeItems([X, F], IN_BLOCK, [], SCRIPT) == Made(BLOCK_CODE[..5], [Compiled(FUNCTION)], AFTER);
    CapturedThere();
    assert !Discipline.ItemCloses(NEXT, IN_BLOCK.Past(5), [Compiled(FUNCTION)], AFTER);
    assert !Discipline.AllClose(ds, IN_BLOCK, [], SCRIPT);
    TrueCode();
    assert TOP.Inside(1).(level := TOP.Inside(1).level + 1) == IN_BLOCK;
    assert !Discipline.Closes(Statement.Block(ds), TOP.Inside(1), [], SCRIPT);
    assert !Discipline.Closes(LOOP, TOP, [], SCRIPT);
    assert MakeItems([], TOP, [], SCRIPT) == Made([], [], SCRIPT) && TOP.Past(0) == TOP;
  }

  lemma TrueCode()
    ensures MakeExpr(Syntax.Literal(Bool(true)), [], SCRIPT) == Made([OP_TRUE], [], SCRIPT)
  {
  }

  lemma CapturedThere()
    ensures !Discipline.NoneCaptured(Around(true), IN_BLOCK.Past(5).loop)
  {
    TwoDeeper(0);
    assert Around(true)[1].captured;
  }

  // ----- a run -----

  const SELF := CellMachine.Function.Function(0, [])
  const READER := CellMachine.Function.Function(0, [2])
  const FRAME := CellMachine.Frame.Frame(0, 0)
  const NIL := Basic(Nil)

  const YES := Basic(Bool(true))

  function CellsOf(k: nat): Cells {
    var me := Closure(0);
    if k == 0 then CellMachine.Cells.Cells([me], [0], [FRAME], [SELF])
    else if k <= 2 then CellMachine.Cells.Cells([me, YES], [0, 1], [FRAME], [SELF])
    else if k == 3 then CellMachine.Cells.Cells([me, YES], [0], [FRAME], [SELF])
    else if k == 4 then CellMachine.Cells.Cells([me, YES, NIL], [0, 2], [FRAME], [SELF])
    else CellMachine.Cells.Cells([me, YES, NIL, Closure(1)], if k == 5 then [0, 2, 3] else [0, 2], [FRAME],
      [SELF, READER])
  }

  const IPS: seq<nat> := [0, 1, 4, 5, 6, 10, 11]

  function ProcessAt(k: nat): Process
    requires k < 7
  {
    Process(CellsOf(k), if k < 5 then [SCRIPT_FUNCTION] else [SCRIPT_FUNCTION, FUNCTION], [IPS[k]])
  }

  /** What the instructions do: push `true`, test it, pop it, push `x`, make the closure, pop it, pop `x`. */
  function Doing(k: nat): seq<Op> {
    if k == 0 then [CellMachine.Push(YES)]
    else if k == 3 then [CellMachine.Push(NIL)]
    else if k == 1 then []
    else if k == 4 then [CellMachine.MakeClosure(0, [CellMachine.Capture(true, 1)])]
    else [CellMachine.Pop]
  }

  lemma CellsFormed(k: nat)
    requires k < 7
    ensures CellMachine.WellFormed(CellsOf(k))
  {
  }

  lemma NoneYet()
    ensures CellMachine.Captured([SELF]) == {} && CellMachine.Captured([SELF, READER]) == {2}
  {
    var two := [SELF, READER];
    assert two[1].cells[0] == 2;
  }

  /** Each operation is legal and leads to the next cells, up to the last. */
  lemma DoingRuns(k: nat)
    requires k < 6
    ensures CellMachine.WellFormed(CellsOf(k)) && CellMachine.LegalRun(CellsOf(k), Doing(k))
    ensures CellMachine.Run(CellsOf(k), Doing(k)) == (CellsOf(k + 1), true)
  {
    hide CellMachine.WellFormed, CellMachine.LegalRun, CellMachine.Run, CellMachine.Captured;
    CellsFormed(k);
    NoneYet();
    if k == 1 {
      NothingRuns(CellsOf(1));
    } else {
      DoingLegal(k);
      OneOp(CellsOf(k), Doing(k)[0]);
      DoingLeads(k);
    }
  }

  lemma DoingLegal(k: nat)
    requires k < 6 && k != 1 && CellMachine.WellFormed(CellsOf(k))
    ensures |Doing(k)| == 1 && CellMachine.Legal(CellsOf(k), Doing(k)[0])
    ensures !CellMachine.Fails(CellsOf(k), Doing(k)[0])
  {
    hide CellMachine.WellFormed, CellMachine.Captured;
    NoneYet();
    RunningBelow(CellsOf(k));
  }

  lemma DoingLeads(k: nat)
    requires k < 6 && k != 1 && CellMachine.WellFormed(CellsOf(k)) && |Doing(k)| == 1
    requires CellMachine.Legal(CellsOf(k), Doing(k)[0]) && !CellMachine.Fails(CellsOf(k), Doing(k)[0])
    ensures CellMachine.Step(CellsOf(k), Doing(k)[0]) == CellsOf(k + 1)
  {
    hide CellMachine.WellFormed, CellMachine.Captured;
    if k == 4 {
      var c := CellsOf(4);
      assert CellMachine.CapturedCells(c, [CellMachine.Capture(true, 1)]) == [2];
    }
  }

  /** The last one pops a captured variable. */
  lemma LastIllegal()
    ensures CellMachine.WellFormed(CellsOf(6)) && !CellMachine.LegalRun(CellsOf(6), Doing(6))
  {
    CellsFormed(6);
    NoneYet();
    hide CellMachine.WellFormed, CellMachine.Captured;
    assert Doing(6)[0] == CellMachine.Pop;
  }

  function BytesAt(k: nat): seq<byte> {
    if k == 0 then [OP_TRUE]
    else if k == 3 then [OP_NIL]
    else if k == 1 then [OP_JUMP_IF_FALSE, 16, 0]
    else if k == 4 then [OP_CLOSURE, 0, 1, 1]
    else [OP_POP]
  }

  /** The first bytes of the chunk. */
  const FRONT: seq<byte> := [OP_TRUE, OP_JUMP_IF_FALSE, 16, 0, OP_POP, OP_NIL, OP_CLOSURE, 0, 1, 1, OP_POP, OP_POP]

  lemma FrontBytes()
    ensures |SCRIPT_FUNCTION.code| > |FRONT| && SCRIPT_FUNCTION.code[..|FRONT|] == FRONT
    ensures forall i :: 0 <= i < |FRONT| ==> SCRIPT_FUNCTION.code[i] == FRONT[i]
  {
    assert forall i :: 0 <= i < |FRONT| ==> SCRIPT_FUNCTION.code[..|FRONT|][i] == SCRIPT_FUNCTION.code[i];
  }

  lemma LengthAt(code: seq<byte>, k: nat)
    requires k < 7 && |code| > |FRONT| && forall i :: 0 <= i < |FRONT| ==> code[i] == FRONT[i]
    ensures Instructions.Whole(code, SCRIPT_FUNCTION.pool, IPS[k])
    ensures Instructions.InstrLen(code, SCRIPT_FUNCTION.pool, IPS[k]) == |BytesAt(k)|
    ensures code[IPS[k]..IPS[k] + |BytesAt(k)|] == BytesAt(k)
  {
    var i := IPS[k];
    assert code[i] == FRONT[i];
    if k == 4 { assert code[7] == FRONT[7] && code[8] == FRONT[8] && code[9] == FRONT[9]; }
    if k == 1 { assert code[2] == FRONT[2] && code[3] == FRONT[3]; }
  }

  lemma Fetched(k: nat)
    requires k < 7
    ensures Instructions.Whole(SCRIPT_FUNCTION.code, SCRIPT_FUNCTION.pool, IPS[k])
    ensures StackTypes.Bytes(SCRIPT_FUNCTION.code, SCRIPT_FUNCTION.pool, IPS[k]) == BytesAt(k)
  {
    hide Instructions.InstrLen, Instructions.Whole, BytesAt;
    FrontBytes();
    LengthAt(SCRIPT_FUNCTION.code, k);
  }

  lemma DoesIt(k: nat)
    requires k < 7
    ensures Does(BytesAt(k), SCRIPT_FUNCTION.pool, CellsOf(k), Doing(k))
  {
    if k == 4 {
      assert CapturesOf(BytesAt(k)) == [CellMachine.Capture(true, 1)];
    } else if k == 0 || k == 3 {
      DoesPush(CellsOf(k), if k == 0 then OP_TRUE else OP_NIL, if k == 0 then YES else NIL);
    } else {
      DoesPop(CellsOf(k), BytesAt(k));
      assert k != 1 ==> Doing(k) == PopOps(1);
    }
  }

  lemma DoesPush(c: Cells, op: byte, v: Values.Datum)
    requires op == OP_TRUE || op == OP_NIL
    requires v.Basic?
    ensures Does([op], SCRIPT_FUNCTION.pool, c, [CellMachine.Push(v)])
  {
    assert Known(v, c) && [CellMachine.Push(v)] == PopOps(0) + [CellMachine.Push(v)];
  }

  lemma DoesPop(c: Cells, ins: seq<byte>)
    requires ins == [OP_POP] || ins == [OP_JUMP_IF_FALSE, 16, 0]
    ensures Does(ins, SCRIPT_FUNCTION.pool, c, PopOps(if ins == [OP_POP] then 1 else 0))
  {
  }

  lemma GoesOn(k: nat)
    requires k < 6 && Instructions.Whole(SCRIPT_FUNCTION.code, SCRIPT_FUNCTION.pool, IPS[k])
    ensures SoundCode.Follows(SCRIPT_FUNCTION, IPS[k], IPS[k + 1])
  {
    Fetched(k);
  }

  lemma NextOf(k: nat)
    requires k < 7
    ensures Next(ProcessAt(k), Doing(k))
  {
    hide Does, Instructions.Whole, StackTypes.Bytes;
    Fetched(k);
    DoesIt(k);
  }

  lemma ContinuesOf(k: nat)
    requires k < 6 && Next(ProcessAt(k), Doing(k))
    requires CellMachine.WellFormed(CellsOf(k)) && CellMachine.LegalRun(CellsOf(k), Doing(k))
    ensures Continues(ProcessAt(k), Doing(k), ProcessAt(k + 1))
  {
    hide Does, Instructions.Whole, StackTypes.Bytes, CellMachine.WellFormed, CellMachine.LegalRun, CellMachine.Run,
      SoundCode.Follows;
    Fetched(k);
    DoingRuns(k);
    GoesOn(k);
    assert ProcessAt(k).ips[..0] + [IPS[k + 1]] == [IPS[k + 1]];
  }

  /** The script compiles, is tame, and its last operation in this run is not legal: it pops the captured `x`. */
  lemma PopsCaptured() returns (ps: seq<Process>, runs: seq<seq<Op>>)
    ensures MakeScript(ITEMS) == Accepted(SCRIPT_FUNCTION) && Tame(ITEMS) && Compact(SCRIPT_FUNCTION)
    ensures !Discipline.AllClose(ITEMS, TOP, [], SCRIPT)
    ensures |ps| == 7 && IsRun(SCRIPT_FUNCTION, ps, runs)
    ensures CellMachine.WellFormed(ps[6].cells) && !CellMachine.LegalRun(ps[6].cells, runs[6])
  {
    hide MakeScript, Tame, Compact, Discipline.AllClose, CellMachine.WellFormed, CellMachine.LegalRun, Next, Continues,
      CellsOf, Doing;
    Compiles();
    IsTame();
    LeavesCaptured();
    LastIllegal();
    ps := seq(7, k requires 0 <= k < 7 => ProcessAt(k));
    runs := seq(7, k requires 0 <= k < 7 => Doing(k));
    BeginsHere();
    forall k | 0 <= k < 7
      ensures Next(ps[k], runs[k])
      ensures k < 6 ==> CellMachine.WellFormed(ps[k].cells) && CellMachine.LegalRun(ps[k].cells, runs[k])
      ensures k < 6 ==> Continues(ps[k], runs[k], ps[k + 1])
    {
      NextOf(k);
      if k < 6 {
        DoingRuns(k);
        ContinuesOf(k);
      }
    }
  }

  lemma BeginsHere()
    ensures ProcessAt(0) == Begin(SCRIPT_FUNCTION)
  {
  }
}
