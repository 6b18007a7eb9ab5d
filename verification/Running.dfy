/** What it means that the machine computes the value of an expression, and what single instructions do. */
module Running {
  import opened Values
  import opened Bytecode
  import opened Functions
  import opened Meaning
  import opened Agreement
  import opened Engine
  import Codegen
  import Machine
  import Syntax

  // ----- results -----

  /** A new cell on top of the stack holds `v`; no variable has it. */
  ghost predicate Pushed(s: Config, t: Config, n: seq<nat>, v: Datum) {
    && Height(t) == Height(s) + 1 && t.cells.locals[..Height(s)] == s.cells.locals
    && var c := t.cells.locals[Height(s)];
      |s.cells.store| <= c < |t.cells.store| && c !in n && t.cells.store[c] == v
  }

  /** After `k` steps from `s` the machine has executed `len` bytes and pushed the value of `r`, or has stopped with the
      error of `r`, or has run for at least `fuel` steps. */
  ghost predicate Computes(w: World, s: Config, m: seq<nat>, len: nat, r: ExprResult, k: nat, t: Config, n: seq<nat>,
      fuel: nat)
    requires |s.ips| > 0
  {
    match r
    case Done(v, st) =>
      && Steps(w, s, k) == Running(t) && Keeps(s, t, m, n) && Ip(t) == Ip(s) + len && Pushed(s, t, n, v)
      && Mirrors(t, st, n)
    case Fault(st) => Steps(w, s, k) == Status.Error(t) && t.globals == st.globals && t.output == st.output
    case Exhausted => Steps(w, s, k) == Running(t) && k >= fuel
  }

  /** New cells on top of the stack hold `vs`. */
  ghost predicate PushedAll(s: Config, t: Config, n: seq<nat>, vs: seq<Datum>) {
    && Height(t) == Height(s) + |vs| && t.cells.locals[..Height(s)] == s.cells.locals
    && (forall i :: 0 <= i < |vs| ==> NewCell(s, t, n, t.cells.locals[Height(s) + i], vs[i]))
    && forall i, j :: Height(s) <= i < j < Height(t) ==> t.cells.locals[i] < t.cells.locals[j]
  }

  /** A cell made since `s`, which no variable has, holds `v`. */
  ghost predicate NewCell(s: Config, t: Config, n: seq<nat>, c: nat, v: Datum) {
    |s.cells.store| <= c < |t.cells.store| && c !in n && t.cells.store[c] == v
  }

  ghost predicate ComputesAll(w: World, s: Config, m: seq<nat>, len: nat, r: ArgsResult, k: nat, t: Config, n: seq<nat>,
      fuel: nat)
    requires |s.ips| > 0
  {
    match r
    case DoneAll(vs, st) =>
      && Steps(w, s, k) == Running(t) && Keeps(s, t, m, n) && Ip(t) == Ip(s) + len && PushedAll(s, t, n, vs)
      && Mirrors(t, st, n)
    case FaultAll(st) => Steps(w, s, k) == Status.Error(t) && t.globals == st.globals && t.output == st.output
    case ExhaustedAll => Steps(w, s, k) == Running(t) && k >= fuel
  }

  // ----- pictures after simple changes -----

  /** One more cell that is no variable. */
  lemma GrownStore(cells: seq<Datum>, store: seq<Datum>, m: seq<nat>, v: Datum)
    requires StoreMatch(cells, store, m)
    ensures StoreMatch(cells + [v], store, m) && |cells| !in m
  {
  }

  /** `v` takes the place of the topmost values. */
  lemma ReplaceMirrors(s: Config, st: State, m: seq<nat>, ip: nat, i: nat, v: Datum)
    requires Mirrors(s, st, m) && i <= Height(s) && |s.ips| > 0
    ensures var t := Replace(s, ip, i, v);
      && Mirrors(t, st, m) && Keeps(s, t, m, m) && Ip(t) == ip
      && Height(t) == Height(s) - i + 1 && t.cells.locals[..Height(s) - i] == s.cells.locals[..Height(s) - i]
      && t.cells.locals[Height(s) - i] == |s.cells.store| && |s.cells.store| !in m
      && t.cells.store == s.cells.store + [v]
  {
    hide RoutinesMatch, StoreMatch;
    GrownStore(s.cells.store, st.store, m, v);
  }

  lemma PopMirrors(s: Config, st: State, m: seq<nat>, ip: nat, i: nat)
    requires Mirrors(s, st, m) && i <= Height(s) && |s.ips| > 0
    ensures var t := Popped(s, ip, i);
      && Mirrors(t, st, m) && Keeps(s, t, m, m) && Ip(t) == ip && t.cells.locals == s.cells.locals[..Height(s) - i]
  {
    hide RoutinesMatch, StoreMatch;
  }

  lemma AtMirrors(s: Config, st: State, m: seq<nat>, ip: nat)
    requires Mirrors(s, st, m) && |s.ips| > 0
    ensures Mirrors(At(s, ip), st, m) && Keeps(s, At(s, ip), m, m) && Ip(At(s, ip)) == ip
    ensures At(s, ip).cells == s.cells
  {
    hide RoutinesMatch, StoreMatch;
  }

  /** A variable gets a value. */
  lemma SaveMirrors(s: Config, st: State, m: seq<nat>, l: nat, v: Datum, ip: nat)
    requires Mirrors(s, st, m) && l < |m| && |s.ips| > 0
    ensures l < |st.store| && m[l] < |s.cells.store|
    ensures var t := At(s.(cells := Save(s.cells, m[l], v)), ip);
      && Mirrors(t, st.(store := st.store[l := v]), m) && Keeps(s, t, m, m) && Ip(t) == ip
      && t.cells.locals == s.cells.locals && |t.cells.store| == |s.cells.store|
  {
    hide RoutinesMatch;
  }

  /** What is pushed is on top. */
  lemma PushedPeek(s: Config, t: Config, n: seq<nat>, v: Datum)
    requires Pushed(s, t, n, v)
    ensures Peek(t, 0) == v
  {
  }

  /** A value that no variable has survives what comes after it. */
  lemma PeekKept(s: Config, t: Config, m: seq<nat>, n: seq<nat>, i: nat)
    requires Keeps(s, t, m, n) && i < Height(s) <= Height(t) && t.cells.locals[..Height(s)] == s.cells.locals
    requires s.cells.locals[i] !in m && s.cells.locals[i] < |s.cells.store|
    ensures t.cells.locals[i] == s.cells.locals[i]
    ensures t.cells.store[t.cells.locals[i]] == s.cells.store[s.cells.locals[i]] && t.cells.locals[i] !in n
  {
    assert t.cells.locals[i] == t.cells.locals[..Height(s)][i];
    OldCell(s, m, n, s.cells.locals[i]);
  }

  // ----- fetching -----

  lemma ByteAt(code: seq<byte>, at: nat, op: byte)
    requires Holds(code, at, [op])
    ensures at < |code| && code[at] == op
  {
    assert code[at..at + 1][0] == op;
  }

  lemma BytesAt(code: seq<byte>, at: nat, op: byte, a: byte)
    requires Holds(code, at, [op, a])
    ensures at + 2 <= |code| && code[at] == op && code[at + 1] == a
  {
    var part := code[at..at + 2];
    assert part[0] == op && part[1] == a;
  }

  lemma SimpleAt(w: World, s: Config, h: Here, op: byte)
    requires In(h, s) && Holds(h.f.code, Ip(s), [op]) && (Machine.IsSimple(op) || op == OP_CLOSE_UPVALUE)
    ensures Steps(w, s, 1) == StepSimple(w, op, s)
  {
    ByteAt(h.f.code, Ip(s), op);
    OneStep(w, s);
  }

  lemma BinaryAt(w: World, s: Config, h: Here, op: byte)
    requires In(h, s) && Holds(h.f.code, Ip(s), [op]) && Machine.IsBinary(op)
    ensures Steps(w, s, 1) == StepBinary(w, op, s)
  {
    ByteAt(h.f.code, Ip(s), op);
    OneStep(w, s);
  }

  lemma OperandAt(w: World, s: Config, h: Here, op: byte, a: byte)
    requires In(h, s) && Holds(h.f.code, Ip(s), [op, a]) && HasOperand(op)
    ensures Steps(w, s, 1) == StepByte(w, op, a, s)
  {
    hide StepByte;
    BytesAt(h.f.code, Ip(s), op, a);
    NoOther(op);
    OneStep(w, s);
  }

  lemma NoOther(op: byte)
    requires HasOperand(op)
    ensures !Machine.IsBinary(op) && !Machine.IsSimple(op) && op != OP_CLOSE_UPVALUE
  {
  }

  lemma JumpAt(w: World, s: Config, h: Here, op: byte, d: nat)
    requires In(h, s) && Machine.IsJump(op) && d <= UINT16_MAX && Holds(h.f.code, Ip(s), Codegen.JumpCode(op, d))
    ensures Steps(w, s, 1) == StepJump(op, d, s)
  {
    hide StepJump;
    assert Codegen.JumpCode(op, d) + [] == Codegen.JumpCode(op, d);
    HoldsJump(h.f.code, Ip(s), op, d, []);
    OneStep(w, s);
  }

  // ----- operators -----

  lemma OperatorDatum(pr: Primitives, op: Syntax.BinOp, a: Datum, b: Datum)
    ensures var code := Codegen.BinaryCode(op);
      && Machine.IsBinary(code[0]) && (|code| == 1 || (|code| == 2 && code[1] == OP_NOT))
      && var o := Operation(pr, code[0], a, b);
        BinaryDatum(pr, op, a, b) ==
          if |code| == 1 || o.None? then o else Some(Basic(Bool(Falsey(o.value))))
  {
  }

  /** `v` takes the place of the topmost `i` values, in a new cell; nothing else changes. */
  ghost predicate Replaces(s: Config, t: Config, m: seq<nat>, ip: nat, i: nat, v: Datum) {
    && i <= Height(s) && Keeps(s, t, m, m) && Ip(t) == ip
    && Height(t) == Height(s) - i + 1 && t.cells.locals[..Height(s) - i] == s.cells.locals[..Height(s) - i]
    && var c := t.cells.locals[Height(s) - i];
      |s.cells.store| <= c < |t.cells.store| && c !in m && t.cells.store[c] == v
  }

  lemma ReplaceReplaces(s: Config, st: State, m: seq<nat>, ip: nat, i: nat, v: Datum)
    requires Mirrors(s, st, m) && i <= Height(s) && |s.ips| > 0
    ensures Replaces(s, Replace(s, ip, i, v), m, ip, i, v) && Mirrors(Replace(s, ip, i, v), st, m)
  {
    hide Mirrors, Keeps;
    ReplaceMirrors(s, st, m, ip, i, v);
  }

  /** The instructions of an operator on the two topmost values. */
  lemma {:induction false} BinaryRuns(w: World, op: Syntax.BinOp, s: Config, h: Here, st: State, m: seq<nat>)
    returns (k: nat, t: Config)
    requires In(h, s) && Mirrors(s, st, m) && Holds(h.f.code, Ip(s), Codegen.BinaryCode(op)) && Height(s) >= Base(s) + 2
    ensures var r := BinaryDatum(w.pr, op, Peek(s, 1), Peek(s, 0));
      if r.Some? then
        && Steps(w, s, k) == Running(t) && Mirrors(t, st, m)
        && Replaces(s, t, m, Ip(s) + |Codegen.BinaryCode(op)|, 2, r.value)
      else Steps(w, s, k) == Status.Error(s)
  {
    var code := Codegen.BinaryCode(op);
    OperatorDatum(w.pr, op, Peek(s, 1), Peek(s, 0));
    hide Codegen.BinaryCode, BinaryDatum, Operation, Machine.IsBinary, Mirrors, StepSimple;
    FirstOf(h.f.code, Ip(s), code);
    BinaryAt(w, s, h, code[0]);
    k, t := 1, s;
    var o := Operation(w.pr, code[0], Peek(s, 1), Peek(s, 0));
    if o.Some? {
      t := Replace(s, Ip(s) + 1, 2, o.value);
      ReplaceReplaces(s, st, m, Ip(s) + 1, 2, o.value);
      if |code| == 2 {
        NegatedRuns(w, s, h, st, m, t, o.value);
        k, t := 2, Replace(t, Ip(t) + 1, 1, Basic(Bool(Falsey(o.value))));
      }
    }
  }

  lemma NegatedRuns(w: World, s: Config, h: Here, st: State, m: seq<nat>, t: Config, v: Datum)
    requires In(h, s) && Mirrors(t, st, m) && Steps(w, s, 1) == Running(t) && Height(s) >= Base(s) + 2
    requires Replaces(s, t, m, Ip(s) + 1, 2, v) && Holds(h.f.code, Ip(s) + 1, [OP_NOT])
    ensures var u := Replace(t, Ip(t) + 1, 1, Basic(Bool(Falsey(v))));
      && Steps(w, s, 2) == Running(u) && Mirrors(u, st, m)
      && Replaces(s, u, m, Ip(s) + 2, 2, Basic(Bool(Falsey(v))))
  {
    hide Mirrors, KeepsHeap, Steps;
    InKept(h, s, t, m, m);
    SimpleAt(w, t, h, OP_NOT);
    StepsCompose(w, s, 1, 1);
    var u := Replace(t, Ip(t) + 1, 1, Basic(Bool(Falsey(v))));
    ReplaceReplaces(t, st, m, Ip(t) + 1, 1, Basic(Bool(Falsey(v))));
    KeepsOn(s, t, u, m, m, m);
    HeapSize(s, t, m, m);
  }

  lemma HeapSize(s: Config, t: Config, m: seq<nat>, n: seq<nat>)
    requires Keeps(s, t, m, n)
    ensures |s.cells.store| <= |t.cells.store| && m <= n
  {
  }

  lemma FirstOf(code: seq<byte>, at: nat, part: seq<byte>)
    requires Holds(code, at, part) && part != []
    ensures Holds(code, at, [part[0]])
    ensures |part| == 2 ==> Holds(code, at + 1, [part[1]])
  {
    HoldsSplit(code, at, [part[0]], part[1..]) by {
      assert [part[0]] + part[1..] == part;
    }
    assert |part| == 2 ==> part[1..] == [part[1]];
  }
}
