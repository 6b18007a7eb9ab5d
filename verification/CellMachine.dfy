/** The reference semantics of variables: every stack slot is a heap cell of its own, and closures
    hold the cells of the variables they use.  Nothing ever moves. */
module CellMachine {
  import opened Values

  datatype Frame = Frame(closure: nat, base: nat)

  /** Where a new closure finds one of its variables: in a slot of the running function, or among
      that function's own variables. */
  datatype Capture = Capture(isLocal: bool, index: nat)

  datatype Function = Function(arity: nat, cells: seq<nat>)

  datatype Cells = Cells(store: seq<Datum>, locals: seq<nat>, frames: seq<Frame>, closures: seq<Function>)

  datatype Op =
    | Push(v: Datum)
    | Pop
    | GetLocal(slot: nat)
    | SetLocal(slot: nat)
    | GetUpvalue(index: nat)
    | SetUpvalue(index: nat)
    | MakeClosure(arity: nat, captures: seq<Capture>)
    | Call(argc: nat)
    | CloseUpvalue
    | Return

  const FRAMES_MAX := 64

  /** Variables are distinct cells of the store. */
  ghost predicate Distinct(locals: seq<nat>, limit: nat) {
    && (forall i :: 0 <= i < |locals| ==> locals[i] < limit)
    && (forall i, j :: 0 <= i < j < |locals| ==> locals[i] != locals[j])
  }

  ghost predicate ValuesOk(store: seq<Datum>, closures: nat) {
    forall i :: 0 <= i < |store| && store[i].Closure? ==> store[i].id < closures
  }

  /** Frames start at rising slots, the last one below the top of the stack. */
  ghost predicate FramesOk(frames: seq<Frame>, height: nat, closures: nat) {
    && 0 < |frames| <= FRAMES_MAX
    && frames[|frames| - 1].base < height
    && (forall i, j :: 0 <= i < j < |frames| ==> frames[i].base < frames[j].base)
    && (forall i :: 0 <= i < |frames| ==> frames[i].closure < closures)
  }

  ghost predicate FunctionsOk(closures: seq<Function>, limit: nat) {
    forall i, k :: 0 <= i < |closures| && 0 <= k < |closures[i].cells| ==> closures[i].cells[k] < limit
  }

  ghost predicate WellFormed(c: Cells) {
    && Distinct(c.locals, |c.store|)
    && ValuesOk(c.store, |c.closures|)
    && FramesOk(c.frames, |c.locals|, |c.closures|)
    && FunctionsOk(c.closures, |c.store|)
  }

  function Running(c: Cells): Frame
    requires |c.frames| > 0
  {
    c.frames[|c.frames| - 1]
  }

  /** What the variables and temporaries on the stack hold. */
  ghost function Contents(store: seq<Datum>, locals: seq<nat>): (r: seq<Datum>)
    requires Distinct(locals, |store|)
    ensures |r| == |locals| && forall i :: 0 <= i < |locals| ==> r[i] == store[locals[i]]
  {
    seq(|locals|, i requires 0 <= i < |locals| => store[locals[i]])
  }

  ghost function StackValues(c: Cells): seq<Datum>
    requires WellFormed(c)
  {
    Contents(c.store, c.locals)
  }

  ghost function TopValue(c: Cells, n: nat): Datum
    requires WellFormed(c) && n < |c.locals|
  {
    c.store[c.locals[|c.locals| - 1 - n]]
  }

  /** The cells some closure has captured. */
  ghost function Captured(closures: seq<Function>): set<nat> {
    set i, k | 0 <= i < |closures| && 0 <= k < |closures[i].cells| :: closures[i].cells[k]
  }

  /** A closure is on the stack before its variables are captured, so it may capture itself. */
  ghost predicate CaptureInRange(c: Cells, x: Capture)
    requires WellFormed(c)
  {
    if x.isLocal then Running(c).base + x.index <= |c.locals|
    else x.index < |c.closures[Running(c).closure].cells|
  }

  ghost function CapturedCell(c: Cells, x: Capture): (cell: nat)
    requires WellFormed(c) && CaptureInRange(c, x)
    ensures cell <= |c.store|
  {
    if x.isLocal then (c.locals + [|c.store|])[Running(c).base + x.index]
    else c.closures[Running(c).closure].cells[x.index]
  }

  ghost function CapturedCells(c: Cells, xs: seq<Capture>): (r: seq<nat>)
    requires WellFormed(c) && forall k :: 0 <= k < |xs| ==> CaptureInRange(c, xs[k])
    ensures |r| == |xs| && forall k :: 0 <= k < |xs| ==> r[k] == CapturedCell(c, xs[k])
  {
    seq(|xs|, k requires 0 <= k < |xs| => CapturedCell(c, xs[k]))
  }

  /** An instruction the compiler can have emitted here.  A captured slot is not popped plainly but
      closed, and the slot of the running closure itself stays. */
  ghost predicate Legal(c: Cells, op: Op)
    requires WellFormed(c)
  {
    var f := Running(c);
    match op
    case Push(v) => v.Closure? ==> v.id < |c.closures|
    case Pop => |c.locals| > f.base + 1 && c.locals[|c.locals| - 1] !in Captured(c.closures)
    case CloseUpvalue => |c.locals| > f.base + 1
    case GetLocal(s) => f.base + s < |c.locals|
    case SetLocal(s) => f.base + s < |c.locals|
    case GetUpvalue(i) => i < |c.closures[f.closure].cells|
    case SetUpvalue(i) => i < |c.closures[f.closure].cells|
    case MakeClosure(_, xs) => forall k :: 0 <= k < |xs| ==> CaptureInRange(c, xs[k])
    case Call(argc) => f.base + argc + 1 < |c.locals|
    case Return => |c.locals| > f.base + 1 && |c.frames| > 1
  }

  /** The run-time errors: a callee that is no function, a wrong number of arguments, and too many
      active calls. */
  ghost predicate Fails(c: Cells, op: Op)
    requires WellFormed(c) && Legal(c, op)
  {
    op.Call? &&
    var callee := TopValue(c, op.argc);
    !callee.Closure? || c.closures[callee.id].arity != op.argc || |c.frames| == FRAMES_MAX
  }

  /** A new variable is a new cell. */
  function Grow(c: Cells, v: Datum): Cells {
    c.(store := c.store + [v], locals := c.locals + [|c.store|])
  }

  function Store(c: Cells, cell: nat, v: Datum): Cells
    requires cell < |c.store|
  {
    c.(store := c.store[cell := v])
  }

  ghost function Step(c: Cells, op: Op): (r: Cells)
    requires WellFormed(c) && Legal(c, op) && !Fails(c, op)
  {
    var f := Running(c);
    match op
    case Push(v) => Grow(c, v)
    case Pop => c.(locals := c.locals[..|c.locals| - 1])
    case CloseUpvalue => c.(locals := c.locals[..|c.locals| - 1])
    case GetLocal(s) => Grow(c, c.store[c.locals[f.base + s]])
    case SetLocal(s) => Store(c, c.locals[f.base + s], TopValue(c, 0))
    case GetUpvalue(i) => Grow(c, c.store[c.closures[f.closure].cells[i]])
    case SetUpvalue(i) => Store(c, c.closures[f.closure].cells[i], TopValue(c, 0))
    case MakeClosure(arity, xs) =>
      Grow(c, Closure(|c.closures|)).(closures := c.closures + [Function(arity, CapturedCells(c, xs))])
    case Call(argc) => c.(frames := c.frames + [Frame(TopValue(c, argc).id, |c.locals| - argc - 1)])
    case Return =>
      Grow(c.(locals := c.locals[..f.base], frames := c.frames[..|c.frames| - 1]), TopValue(c, 0))
  }

  // ----- every step leads to a well-formed state -----

  lemma GrowWellFormed(c: Cells, v: Datum)
    requires Distinct(c.locals, |c.store|) && ValuesOk(c.store, |c.closures|) && FunctionsOk(c.closures, |c.store|)
    requires v.Closure? ==> v.id < |c.closures|
    ensures var d := Grow(c, v);
      Distinct(d.locals, |d.store|) && ValuesOk(d.store, |d.closures|) && FunctionsOk(d.closures, |d.store|)
    ensures Contents(Grow(c, v).store, Grow(c, v).locals) == Contents(c.store, c.locals) + [v]
  {
  }

  /** Writing a variable's cell changes that slot and no other. */
  lemma StoreWellFormed(c: Cells, cell: nat, v: Datum)
    requires WellFormed(c) && cell < |c.store|
    requires v.Closure? ==> v.id < |c.closures|
    ensures WellFormed(Store(c, cell, v))
    ensures forall s :: 0 <= s < |c.locals| && c.locals[s] == cell ==>
      StackValues(Store(c, cell, v)) == StackValues(c)[s := v]
    ensures cell !in c.locals ==> StackValues(Store(c, cell, v)) == StackValues(c)
  {
    hide FramesOk, FunctionsOk;
  }

  lemma DropWellFormed(c: Cells, n: nat)
    requires WellFormed(c) && Running(c).base < n <= |c.locals|
    ensures WellFormed(c.(locals := c.locals[..n]))
    ensures StackValues(c.(locals := c.locals[..n])) == StackValues(c)[..n]
  {
    hide ValuesOk, FunctionsOk;
  }

  lemma CallWellFormed(c: Cells, argc: nat)
    requires WellFormed(c) && Legal(c, Call(argc)) && !Fails(c, Call(argc))
    ensures WellFormed(Step(c, Call(argc)))
  {
    hide FunctionsOk;
    assert TopValue(c, argc).id < |c.closures|;
  }

  /** Returning drops the callee's variables and leaves the result in their place. */
  lemma ReturnWellFormed(c: Cells)
    requires WellFormed(c) && Legal(c, Return)
    ensures WellFormed(Step(c, Return))
    ensures StackValues(Step(c, Return)) == StackValues(c)[..Running(c).base] + [TopValue(c, 0)]
  {
    hide FunctionsOk;
    var d := c.(locals := c.locals[..Running(c).base], frames := c.frames[..|c.frames| - 1]);
    assert Distinct(d.locals, |d.store|);
    assert FramesOk(d.frames, |d.locals| + 1, |d.closures|);
    assert StackValues(c)[..Running(c).base] == Contents(d.store, d.locals);
    GrowWellFormed(d, TopValue(c, 0));
  }

  lemma ClosureWellFormed(c: Cells, arity: nat, xs: seq<Capture>)
    requires WellFormed(c) && Legal(c, MakeClosure(arity, xs))
    ensures WellFormed(Step(c, MakeClosure(arity, xs)))
    ensures StackValues(Step(c, MakeClosure(arity, xs))) == StackValues(c) + [Closure(|c.closures|)]
  {
    var closures := c.closures + [Function(arity, CapturedCells(c, xs))];
    assert FunctionsOk(closures, |c.store| + 1);
    hide FunctionsOk;
  }

  lemma StepWellFormed(c: Cells, op: Op)
    requires WellFormed(c) && Legal(c, op) && !Fails(c, op)
    ensures WellFormed(Step(c, op))
  {
    var f := Running(c);
    match op
    case Push(v) => GrowWellFormed(c, v);
    case Pop => DropWellFormed(c, |c.locals| - 1);
    case CloseUpvalue => DropWellFormed(c, |c.locals| - 1);
    case GetLocal(s) => GrowWellFormed(c, c.store[c.locals[f.base + s]]);
    case SetLocal(s) => StoreWellFormed(c, c.locals[f.base + s], TopValue(c, 0));
    case GetUpvalue(i) => GrowWellFormed(c, c.store[c.closures[f.closure].cells[i]]);
    case SetUpvalue(i) => StoreWellFormed(c, c.closures[f.closure].cells[i], TopValue(c, 0));
    case MakeClosure(arity, xs) => ClosureWellFormed(c, arity, xs);
    case Call(argc) => CallWellFormed(c, argc);
    case Return => ReturnWellFormed(c);
  }

  // ----- runs -----

  /** Every instruction of a run is legal where it is executed; a run ends at its first error. */
  ghost predicate LegalRun(c: Cells, ops: seq<Op>)
    requires WellFormed(c)
    decreases |ops|
  {
    ops == [] ||
    (Legal(c, ops[0]) && (Fails(c, ops[0]) || (StepWellFormed(c, ops[0]); LegalRun(Step(c, ops[0]), ops[1..]))))
  }

  ghost function Run(c: Cells, ops: seq<Op>): (r: (Cells, bool))
    requires WellFormed(c) && LegalRun(c, ops)
    ensures WellFormed(r.0)
    decreases |ops|
  {
    if ops == [] then (c, true)
    else if Fails(c, ops[0]) then (c, false)
    else StepWellFormed(c, ops[0]); Run(Step(c, ops[0]), ops[1..])
  }

  // ----- where arguments are -----

  /** After a call the callee is in slot 0 of the new frame and the i-th argument in slot i + 1. */
  lemma CalleeSlots(c: Cells, argc: nat, i: nat)
    requires WellFormed(c) && Legal(c, Call(argc)) && !Fails(c, Call(argc)) && i < argc
    ensures WellFormed(Step(c, Call(argc)))
    ensures var d := Step(c, Call(argc));
      && |StackValues(d)| == Running(d).base + 1 + argc
      && StackValues(d)[Running(d).base] == TopValue(c, argc)
      && StackValues(d)[Running(d).base + 1 + i] == TopValue(c, argc - 1 - i)
  {
    CallWellFormed(c, argc);
  }

  // ----- how deep calls may nest -----

  /** A call of a function with the right number of arguments fails exactly if 64 calls are active, the script's own
      included; more than 64 never are. */
  lemma DepthLimit(c: Cells, argc: nat)
    requires WellFormed(c) && Legal(c, Call(argc))
    requires var f := TopValue(c, argc); f.Closure? && c.closures[f.id].arity == argc
    ensures |c.frames| <= 64 && (Fails(c, Call(argc)) <==> |c.frames| == 64)
  {
  }

  /** A function of no arguments that calls itself `k` times over. */
  function Recursion(k: nat): (ops: seq<Op>)
    ensures |ops| == 2 * k
  {
    if k == 0 then [] else [GetLocal(0), Call(0)] + Recursion(k - 1)
  }

  /** It gets as far as 64 active calls, and the next one is refused. */
  lemma {:induction false} RecursionEnds(c: Cells, k: nat)
    requires WellFormed(c)
    requires var f := c.store[c.locals[Running(c).base]]; f.Closure? && c.closures[f.id].arity == 0
    ensures LegalRun(c, Recursion(k))
    ensures Run(c, Recursion(k)).1 <==> |c.frames| + k <= 64
    decreases k
  {
    if k > 0 {
      var ops := Recursion(k);
      assert ops[0] == GetLocal(0) && ops[1..][0] == Call(0) && ops[1..][1..] == Recursion(k - 1);
      StepWellFormed(c, GetLocal(0));
      var d := Step(c, GetLocal(0));
      GetTop(c);
      DepthLimit(d, 0);
      if |c.frames| < 64 {
        StepWellFormed(d, Call(0));
        RecursionEnds(Step(d, Call(0)), k - 1);
      }
    }
  }

  lemma GetTop(c: Cells)
    requires WellFormed(c) && WellFormed(Step(c, GetLocal(0)))
    ensures var d := Step(c, GetLocal(0)); Legal(d, Call(0)) && d.frames == c.frames && d.closures == c.closures
    ensures var d := Step(c, GetLocal(0)); TopValue(d, 0) == c.store[c.locals[Running(c).base]]
  {
  }
}
