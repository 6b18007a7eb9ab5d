/** How declaring variables, parameters and functions keeps slots, scopes and captured cells in step. */
module Declaring {
  import opened Values
  import opened Bytecode
  import opened Functions
  import opened Meaning
  import opened Agreement
  import opened Engine
  import CellMachine
  import ClosureCode
  import Discipline
  import Growth
  import Instructions
  import Lexical
  import SoundCode
  import Syntax

  // ----- locals -----

  lemma EarlySorted(locals: seq<Lexical.Local>, x: string)
    requires Sorted(locals) && Reserved(locals)
    ensures Sorted(locals + [Lexical.Local(x, -1, false)]) && Reserved(locals + [Lexical.Local(x, -1, false)])
  {
  }

  lemma SlotMore(locals: seq<Lexical.Local>, local: Lexical.Local, own: Env, cells: seq<nat>, m: seq<nat>, i: nat)
    requires i < |locals| && locals[i].level >= 1 && SlotShows(locals, own, cells, m, i)
    ensures SlotShows(locals + [local], own, cells, m, i)
  {
  }

  lemma DeclaredMore(locals: seq<Lexical.Local>, local: Lexical.Local, y: string, level: nat)
    requires Declared(locals, y, level)
    ensures Declared(locals + [local], y, level)
  {
    var i :| 0 <= i < |locals| && locals[i].name == y && locals[i].level == level;
    assert (locals + [local])[i] == locals[i];
  }

  /** A local that is being initialized pictures nothing yet. */
  lemma EarlyMatch(locals: seq<Lexical.Local>, x: string, own: Env, cells: seq<nat>, m: seq<nat>)
    requires OwnMatch(locals, own, cells, m)
    ensures OwnMatch(locals + [Lexical.Local(x, -1, false)], own, cells, m)
  {
    var local := Lexical.Local(x, -1, false);
    EarlySorted(locals, x);
    hide Sorted, Reserved, Declared, SlotShows;
    forall i | 0 <= i < |locals + [local]| && (locals + [local])[i].level >= 1
      ensures SlotShows(locals + [local], own, cells, m, i)
    {
      SlotMore(locals, local, own, cells, m, i);
    }
    forall l, y | 0 <= l < |own| && y in own[l]
      ensures Declared(locals + [local], y, l + 1)
    {
      DeclaredMore(locals, local, y, l + 1);
    }
  }

  lemma DeclareSorted(locals: seq<Lexical.Local>, x: Ident, level: nat)
    requires Sorted(locals) && Reserved(locals) && Discipline.Scoped(locals, level) && !Declared(locals, x, level)
    requires level >= 1
    ensures Sorted(locals + [Lexical.Local(x, level, false)]) && Reserved(locals + [Lexical.Local(x, level, false)])
    ensures Discipline.Scoped(locals + [Lexical.Local(x, level, false)], level)
  {
  }

  /** The slots there are keep their variables. */
  lemma SlotKept(locals: seq<Lexical.Local>, x: Ident, level: nat, own: Env, cells: seq<nat>, m: seq<nat>, c: nat,
      i: nat)
    requires i < |locals| && locals[i].level >= 1 && SlotShows(locals, own, cells, m, i)
    requires |own| == level >= 1 && !Declared(locals, x, level)
    ensures SlotShows(locals + [Lexical.Local(x, level, false)], Bind(own, x, |m|), cells + [c], m + [c], i)
  {
    assert (locals + [Lexical.Local(x, level, false)])[i] == locals[i];
    assert locals[i].level != level || locals[i].name != x;
  }

  lemma SlotNew(locals: seq<Lexical.Local>, x: Ident, level: nat, own: Env, cells: seq<nat>, m: seq<nat>, c: nat)
    requires |cells| == |locals| && |own| == level >= 1
    ensures SlotShows(locals + [Lexical.Local(x, level, false)], Bind(own, x, |m|), cells + [c], m + [c], |locals|)
  {
  }

  lemma DeclaredThen(locals: seq<Lexical.Local>, x: Ident, level: nat, own: Env, l: nat, y: string, place: nat)
    requires |own| == level >= 1 && l < level && y in Bind(own, x, place)[l]
    requires y in own[l] ==> Declared(locals, y, l + 1)
    ensures Declared(locals + [Lexical.Local(x, level, false)], y, l + 1)
  {
    var more := locals + [Lexical.Local(x, level, false)];
    if l == level - 1 && y == x {
      assert more[|locals|].name == y && more[|locals|].level == l + 1;
    } else {
      DeclaredMore(locals, Lexical.Local(x, level, false), y, l + 1);
    }
  }

  /** A new local, in the innermost scope. */
  lemma DeclareMatch(locals: seq<Lexical.Local>, x: Ident, level: nat, own: Env, cells: seq<nat>, m: seq<nat>, c: nat)
    requires OwnMatch(locals, own, cells, m) && |cells| == |locals| && |own| == level >= 1
    requires Discipline.Scoped(locals, level) && !Declared(locals, x, level)
    ensures OwnMatch(locals + [Lexical.Local(x, level, false)], Bind(own, x, |m|), cells + [c], m + [c])
  {
    var more, own' := locals + [Lexical.Local(x, level, false)], Bind(own, x, |m|);
    DeclareSorted(locals, x, level);
    hide Sorted, Reserved, Discipline.Scoped, Declared, SlotShows, Bind;
    forall i | 0 <= i < |more| && more[i].level >= 1
      ensures SlotShows(more, own', cells + [c], m + [c], i)
    {
      if i < |locals| {
        SlotKept(locals, x, level, own, cells, m, c, i);
      } else {
        SlotNew(locals, x, level, own, cells, m, c);
      }
    }
    forall l, y | 0 <= l < |own'| && y in own'[l]
      ensures Declared(more, y, l + 1)
    {
      DeclaredThen(locals, x, level, own, l, y, |m|);
    }
  }

  /** A new scope changes no slot. */
  lemma EnterScope(locals: seq<Lexical.Local>, own: Env, cells: seq<nat>, m: seq<nat>)
    requires OwnMatch(locals, own, cells, m)
    ensures OwnMatch(locals, own + [map[]], cells, m)
  {
    hide Sorted, Reserved;
    forall i | 0 <= i < |locals| && locals[i].level >= 1
      ensures SlotShows(locals, own + [map[]], cells, m, i)
    {
      assert SlotShows(locals, own, cells, m, i);
    }
  }

  lemma BindJoined(outer: Env, own: Env, x: string, l: nat)
    requires own != []
    ensures Bind(outer + own, x, l) == outer + Bind(own, x, l)
  {
  }


  // ----- parameters -----

  /** The i-th parameter stands for the i-th place. */
  lemma {:induction false} FormalsAt(params: seq<Ident>, first: nat)
    requires Distinct(params)
    ensures forall i :: 0 <= i < |params| ==>
      params[i] in Formals(params, first) && Formals(params, first)[params[i]] == first + i
    ensures forall x :: x in Formals(params, first) ==> x in params
    decreases |params|
  {
    if params != [] {
      var init := params[..|params| - 1];
      FormalsAt(init, first);
      assert forall i :: 0 <= i < |init| ==> init[i] == params[i];
    }
  }

  /** In a function its i-th parameter is the local in slot i + 1. */
  lemma ParameterSlot(params: seq<Ident>, i: nat)
    requires Distinct(params) && i < |params|
    ensures Lexical.Newest(Parameters(params), params[i]) == i + 1
  {
    var locals := Parameters(params);
    assert locals[i + 1].name == params[i];
    forall j | i + 1 < j < |locals|
      ensures locals[j].name != params[i]
    {
      assert locals[j].name == params[j - 1];
    }
  }

  /** So the code that reads it names that slot. */
  lemma ParameterAccess(params: seq<Ident>, i: nat, pool: seq<Constant>, chain: Chain)
    requires Distinct(params) && i < |params| <= 255
    ensures Access(GET, params[i], pool, Enter(params, chain))
      == Made([OP_GET_LOCAL, i + 1], pool, Enter(params, chain))
  {
    ParameterSlot(params, i);
  }

  /** In the body of a routine its i-th parameter is the i-th argument. */
  lemma ArgumentRead(r: Routine, vs: seq<Datum>, st: State, i: nat)
    requires Distinct(r.params) && |vs| == |r.params| && i < |vs|
    ensures var after := st.(store := st.store + vs);
      Read(r.env + [Formals(r.params, |st.store|)], r.params[i], after) == Done(vs[i], after)
  {
    FormalsAt(r.params, |st.store|);
  }

  /** A call of `func (a, b) { return a op b; }` applies the operator to its two arguments, in their order. */
  lemma {:induction false} CallApplies(w: World, op: Syntax.BinOp, a: Ident, b: Ident, x: Datum, y: Datum, id: nat,
      st: State, fuel: nat, depth: nat)
    requires a != b && depth < 64 && id < |st.routines| && st.routines[id].params == [a, b]
    requires st.routines[id].body ==
      [Stat(Statement.Return(Some(Syntax.Binary(op, Syntax.Variable(a), Syntax.Variable(b)))))]
    ensures Apply(w, Closure(id), [x, y], st, fuel, depth)
      == Meaning.Finish(BinaryDatum(w.pr, op, x, y), st.(store := st.store + [x, y]))
  {
    var r, after := st.routines[id], st.(store := st.store + [x, y]);
    var env, e := r.env + [Formals([a, b], |st.store|)], Syntax.Binary(op, Syntax.Variable(a), Syntax.Variable(b));
    ArgumentRead(r, [x, y], st, 0);
    ArgumentRead(r, [x, y], st, 1);
    assert Eval(w, Syntax.Variable(a), env, after, fuel, depth + 1) == Done(x, after);
    assert Eval(w, Syntax.Variable(b), env, after, fuel, depth + 1) == Done(y, after);
    hide Read, Formals, BinaryDatum;
    assert Eval(w, e, env, after, fuel, depth + 1) == Meaning.Finish(BinaryDatum(w.pr, op, x, y), after);
    hide Eval;
    assert r.body[..0] == [];
    assert ExecAll(w, [], env, after, fuel, depth + 1) == Normal(env, after);
    assert ExecAll(w, r.body, env, after, fuel, depth + 1) == ExecItem(w, r.body[0], env, after, fuel, depth + 1);
    assert ExecItem(w, r.body[0], env, after, fuel, depth + 1)
      == Exec(w, Statement.Return(Some(e)), env, after, fuel, depth + 1);
  }

  lemma ParametersSorted(params: seq<Ident>)
    requires Distinct(params)
    ensures Sorted(Parameters(params)) && Reserved(Parameters(params))
  {
    var locals := Parameters(params);
    forall i, j | 0 <= i < j < |locals| && locals[i].level >= 1 && locals[j].level >= 1
      ensures locals[i].level <= locals[j].level && locals[i].name != locals[j].name
    {
      assert locals[i].name == params[i - 1] && locals[j].name == params[j - 1];
    }
  }

  lemma ParameterShows(params: seq<Ident>, first: nat, cells: seq<nat>, m: seq<nat>, i: nat)
    requires Distinct(params) && |cells| == |params| + 1 && |m| == first + |params| && m[first..] == cells[1..]
    requires 1 <= i <= |params|
    ensures SlotShows(Parameters(params), [Formals(params, first)], cells, m, i)
  {
    FormalsAt(params, first);
    assert Parameters(params)[i].name == params[i - 1];
    assert m[first..][i - 1] == cells[1..][i - 1];
  }

  lemma ParameterDeclared(params: seq<Ident>, first: nat, x: string)
    requires Distinct(params) && x in Formals(params, first)
    ensures Declared(Parameters(params), x, 1)
  {
    FormalsAt(params, first);
    var i :| 0 <= i < |params| && params[i] == x;
    assert Parameters(params)[i + 1].name == x;
  }

  /** Behind the callee the arguments are the first slots, in the order of the parameters. */
  lemma ParametersMatch(params: seq<Ident>, first: nat, cells: seq<nat>, m: seq<nat>)
    requires Distinct(params) && |cells| == |params| + 1 && |m| == first + |params| && m[first..] == cells[1..]
    ensures OwnMatch(Parameters(params), [Formals(params, first)], cells, m)
  {
    var locals, own := Parameters(params), [Formals(params, first)];
    ParametersSorted(params);
    hide Sorted, Reserved, Formals, SlotShows, Distinct, Declared;
    forall i | 0 <= i < |locals| && locals[i].level >= 1
      ensures SlotShows(locals, own, cells, m, i)
    {
      ParameterShows(params, first, cells, m, i);
    }
    forall l, x | 0 <= l < |own| && x in own[l]
      ensures Declared(locals, x, l + 1)
    {
      ParameterDeclared(params, first, x);
    }
  }

  // ----- what a closure captures -----

  /** The cell an upvalue is to capture; the closure is in a new cell, on top of the slots. */
  function CellFor(slots: seq<nat>, made: nat, ups: seq<nat>, e: Lexical.Entry): nat {
    if e.isLocal then
      if e.index < |slots| then slots[e.index] else made
    else if e.index < |ups| then ups[e.index] else made
  }

  function CellsFor(slots: seq<nat>, made: nat, ups: seq<nat>, entries: seq<Lexical.Entry>): (r: seq<nat>)
    ensures |r| == |entries|
  {
    seq(|entries|, i requires 0 <= i < |entries| => CellFor(slots, made, ups, entries[i]))
  }

  ghost predicate InReach(slots: nat, ups: nat, entries: seq<Lexical.Entry>) {
    forall i :: 0 <= i < |entries| ==> if entries[i].isLocal then entries[i].index <= slots else entries[i].index < ups
  }

  /** The machine reads the operands and captures those cells. */
  lemma {:induction false} CapturesRead(s: Config, code: seq<byte>, at: nat, entries: seq<Lexical.Entry>, n: nat)
    requires Active(s) && Base(s) <= Height(s) && ClosureCode.InRange(entries) && n <= |entries|
    requires Holds(code, at, ClosureCode.Operands(entries)) && InReach(|Slots(s)|, |Engine.Captured(s)|, entries)
    ensures at + 2 * n <= |code|
    ensures CaptureAll(s, code, at, n) ==
      Some(CellsFor(Slots(s), |s.cells.store|, Engine.Captured(s), entries)[..n])
    decreases n
  {
    var cells := CellsFor(Slots(s), |s.cells.store|, Engine.Captured(s), entries);
    assert at + 2 * n <= |code| by { assert |ClosureCode.Operands(entries)| == 2 * |entries|; }
    if n > 0 {
      CapturesRead(s, code, at, entries, n - 1);
      var part, e := code[at..at + 2 * |entries|], entries[n - 1];
      assert part == ClosureCode.Operands(entries);
      assert code[at + 2 * n - 2] == part[2 * (n - 1)] && code[at + 2 * n - 1] == part[2 * (n - 1) + 1];
      assert cells[..n] == cells[..n - 1] + [cells[n - 1]];
    }
  }

  /** The variables of the function around, and of the functions around that one. */
  lemma {:induction false} AroundPlace(h: Here, chain: Chain, own: Env, slots: seq<nat>, m: seq<nat>, x: Ident,
      p: Lexical.Place, e: Lexical.Entry, made: nat)
    requires OwnMatch(chain[0].locals, own, slots + [made], m) && OuterMatch(h.last, h.ups, h.outer, m)
    requires Toward(chain, h.last) && |chain[0].locals| <= |slots| + 1
    requires forall i :: 0 <= i < |chain[0].locals| ==> chain[0].locals[i].level != -1
    requires if e.isLocal then p == Lexical.Place(0, e.index) && Lexical.Newest(chain[0].locals, x) == e.index
      else
        && Lexical.Newest(chain[0].locals, x) == -1 && e.index < |chain[0].upvalues|
        && Lexical.Follow(chain, e.index) == Some(p) && Lexical.IsNearest(chain, x, p)
    ensures Place(h.outer + own, x).Some? && Place(h.outer + own, x).value < |m|
    ensures m[Place(h.outer + own, x).value] == CellFor(slots, made, h.ups, e)
  {
    hide OwnMatch, OuterMatch, Toward, Lexical.Follow, Lexical.Newest;
    PlaceJoined(h.outer, own, x);
    if e.isLocal {
      OwnPlace(chain[0].locals, own, slots + [made], m, x);
    } else {
      NotInOwn(chain[0].locals, own, slots + [made], m, x);
      FollowToward(chain, h.last, e.index);
      NearestStays(chain, h.last, x, p);
      TowardUps(chain, h.last);
      assert Named(h.last, x, p, e.index);
      UpShown(h.last, h.ups, h.outer, m, x, p, e.index);
    }
  }

  lemma NotInOwn(locals: seq<Lexical.Local>, own: Env, cells: seq<nat>, m: seq<nat>, x: string)
    requires OwnMatch(locals, own, cells, m) && Lexical.Newest(locals, x) == -1
    ensures Place(own, x) == None
  {
    NotOwn(locals, own, x);
  }

  lemma TowardUps(chain: Chain, last: Chain)
    requires Toward(chain, last)
    ensures |chain[0].upvalues| <= |last[0].upvalues| && |chain| == |last|
  {
  }

  lemma UpShown(last: Chain, ups: seq<nat>, outer: Env, m: seq<nat>, x: Ident, p: Lexical.Place, i: nat)
    requires OuterMatch(last, ups, outer, m) && Named(last, x, p, i) && i < |last[0].upvalues|
    ensures i < |ups| && UpShows(ups, outer, m, x, i)
  {
  }

  /** What an upvalue of the new closure leads to, seen from the function around. */
  lemma EntryNearest(inner: Chain, x: Ident, p: Lexical.Place, i: nat)
    requires |inner| > 1 && Lexical.WellLinked(inner) && i < |inner[0].upvalues| && Named(inner, x, p, i)
    ensures var e, chain := inner[0].upvalues[i], inner[1..];
      && p.depth >= 1
      && if e.isLocal then Lexical.Newest(chain[0].locals, x) == e.index
         else
           && p.depth >= 2 && Lexical.Newest(chain[0].locals, x) == -1 && e.index < |chain[0].upvalues|
           && Lexical.Follow(chain, e.index) == Some(Lexical.Place(p.depth - 1, p.slot))
           && Lexical.IsNearest(chain, x, Lexical.Place(p.depth - 1, p.slot))
  {
    hide Lexical.Newest, Lexical.LevelOk;
    var e, chain := inner[0].upvalues[i], inner[1..];
    assert Lexical.EntryOk(e, inner[1]);
    if !e.isLocal {
      Lexical.EveryEntryLeads(chain, e.index);
      Lexical.DeclaresIff(inner[1], x);
      forall d | 1 <= d < p.depth - 1
        ensures !Lexical.Declares(chain[d], x)
      {
        assert !Lexical.Declares(inner[d + 1], x);
      }
    }
  }

  lemma UndeclaredAround(inner: Chain, x: Ident)
    requires |inner| > 1 && Undeclared(inner, x)
    ensures Lexical.Newest(inner[1].locals, x) == -1 && Undeclared(inner[1..], x)
  {
    Lexical.DeclaresIff(inner[1], x);
    forall d | 1 <= d < |inner[1..]|
      ensures !Lexical.Declares(inner[1..][d], x)
    {
      assert !Lexical.Declares(inner[d + 1], x);
    }
  }

  /** A new closure has captured the variables around it. */
  lemma {:induction false} ClosureOuter(h: Here, inner: Chain, own: Env, slots: seq<nat>, m: seq<nat>, made: nat)
    requires |inner| > 1 && Lexical.WellLinked(inner) && Toward(inner[1..], h.last)
    requires OwnMatch(inner[1].locals, own, slots + [made], m) && OuterMatch(h.last, h.ups, h.outer, m)
    requires |inner[1].locals| <= |slots| + 1
    requires forall i :: 0 <= i < |inner[1].locals| ==> inner[1].locals[i].level != -1
    ensures OuterMatch(inner, CellsFor(slots, made, h.ups, inner[0].upvalues), h.outer + own, m)
  {
    hide OwnMatch, Toward, Lexical.Follow, Lexical.Newest, Lexical.WellLinked, Lexical.IsNearest, CellFor, Undeclared;
    var cells, entries := CellsFor(slots, made, h.ups, inner[0].upvalues), inner[0].upvalues;
    forall x: Ident, p: Lexical.Place, i: nat | i < |cells| && Named(inner, x, p, i)
      ensures UpShows(cells, h.outer + own, m, x, i)
    {
      EntryNearest(inner, x, p, i);
      var q := if entries[i].isLocal then Lexical.Place(0, entries[i].index) else Lexical.Place(p.depth - 1, p.slot);
      AroundPlace(h, inner[1..], own, slots, m, x, q, entries[i], made);
    }
    forall x: Ident | Undeclared(inner, x)
      ensures Place(h.outer + own, x) == None
    {
      UndeclaredAround(inner, x);
      NotInOwn(inner[1].locals, own, slots + [made], m, x);
      UndeclaredStays(inner[1..], h.last, x);
      PlaceJoined(h.outer, own, x);
    }
  }

  /** The operands of a closure instruction are within what there is. */
  lemma ClosureReach(h: Here, inner: Chain, slots: nat)
    requires |inner| > 1 && Lexical.WellLinked(inner) && Toward(inner[1..], h.last) && |h.ups| == |h.last[0].upvalues|
    requires |inner[1].locals| <= slots + 1
    ensures InReach(slots, |h.ups|, inner[0].upvalues)
  {
    forall i | 0 <= i < |inner[0].upvalues|
      ensures if inner[0].upvalues[i].isLocal then inner[0].upvalues[i].index <= slots
        else inner[0].upvalues[i].index < |h.ups|
    {
      assert Lexical.EntryOk(inner[0].upvalues[i], inner[1]);
    }
  }

  // ----- closures -----

  /** What the closure instruction does. */
  function Closing(s: Config, f: Function, cells: seq<nat>, ip: nat): Config
    requires |s.ips| > 0
  {
    var grown := CellMachine.Grow(s.cells, Closure(|s.cells.closures|));
    At(s.(cells := grown.(closures := s.cells.closures + [CellMachine.Function.Function(f.arity, cells)]),
      codes := s.codes + [f]), ip)
  }

  /** The function behind a closure instruction. */
  lemma {:induction false} ClosureMade(params: seq<Ident>, body: seq<Item>, pool: seq<Constant>, around: Chain,
      full: seq<Constant>)
    requires SoundCode.Ready(pool, around) && MakeFunction(params, body, pool, around).Made?
    requires MakeFunction(params, body, pool, around).pool <= full && ItemsOutline(body).Tame() && ItemsTame(body)
    requires forall i :: 0 <= i < |full| && full[i].Compiled? ==> Compact(full[i].f)
    ensures var k, g := MakeItems(body, BODY, [], Enter(params, around)), MakeFunction(params, body, pool, around);
      && |params| <= UINT8_MAX && Distinct(params) && SoundCode.Ready([], Enter(params, around))
      && k.Made? && Lexical.WellLinked(k.chain) && |k.chain| > 1 && g.chain == k.chain[1..]
      && ClosureCode.InRange(k.chain[0].upvalues) && Compact(Ended(|params|, k))
      && |pool| <= UINT8_MAX && pool < full && full[|pool|] == Compiled(Ended(|params|, k))
      && g.code == [OP_CLOSURE, |pool|] + ClosureCode.Operands(k.chain[0].upvalues)
  {
    hide SoundCode.PoolOk, LayItems, MakeItems, ItemsTame, ItemsOutline, Lexical.WellLinked, Compact,
      Instructions.Sound, ClosureCode.Operands;
    var start := Enter(params, around);
    Growth.FunctionInside(params, body, pool, around);
    Growth.StartReady(pool, params, around);
    SoundCode.LaidSize(body, BODY, start);
    SoundCode.ItemsGood(body, BODY, [], start);
    var k, inner := MakeItems(body, BODY, [], start), LayItems(body, BODY, start);
    SoundCode.NeverSame(pool, Ended(|params|, inner), 0);
    assert full[|pool|] == Compiled(Ended(|params|, inner));
    ShortEnough(|params|, inner);
    SoundCode.TameChunk(body, BODY, start);
  }

  lemma ShortEnough(arity: nat, k: Made)
    requires k.Made? && Compact(Ended(arity, k))
    ensures |k.code| < UINT16_MAX
  {
  }
}
