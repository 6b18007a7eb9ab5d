/** Every call does what the body of its routine does: by induction on how many calls can still be made. */
module Calls {
  import opened Values
  import opened Bytecode
  import opened Functions
  import opened Meaning
  import opened Agreement
  import opened Engine
  import opened Running
  import opened ExprRuns
  import opened Declaring
  import opened Boundaries
  import opened SimpleRuns
  import opened StmtRuns
  import CellMachine
  import Discipline
  import Lexical
  import SoundCode

  /** The chain at its own end. */
  lemma TowardSelf(chain: Chain)
    ensures Toward(chain, chain)
  {
    forall d | 1 <= d < |chain|
      ensures Lexical.LevelGrows(chain[d], chain[d])
    {
    }
  }

  // ----- entering -----

  /** What the running closure was made from. */
  lemma {:induction false} EnteredFrom(s: Config, st: State, m: seq<nat>, id: nat, depth: nat)
    returns (around: Chain)
    requires Entered(s, st, m, id, depth)
    ensures id < |s.cells.closures| && id < |s.codes| && id == CellMachine.Running(s.cells).closure
    ensures MadeFrom(st.routines[id], s.cells.closures[id], s.codes[id], m, around)
  {
    hide MadeFrom, StoreMatch, StateOk;
    assert RoutineOk(st.routines[id], s.cells.closures[id], s.codes[id], m);
    around :| MadeFrom(st.routines[id], s.cells.closures[id], s.codes[id], m, around);
  }

  /** The beginning of a routine's body. */
  function Beginning(s: Config, st: State, id: nat, around: Chain, depth: nat): Scene
    requires Active(s) && id < |st.routines| && |st.routines[id].params| <= |st.store|
  {
    var r := st.routines[id];
    var k := MakeItems(r.body, BODY, [], Enter(r.params, around));
    Scene.Scene(Here.Here(Code(s), if k.Made? then k.chain else SCRIPT, Captured(s), r.env), [],
      Enter(r.params, around), [Formals(r.params, |st.store| - |r.params|)], depth)
  }

  lemma {:induction false} BodyStands(s: Config, st: State, m: seq<nat>, id: nat, depth: nat, around: Chain)
    requires Entered(s, st, m, id, depth) && id < |s.cells.closures| && id < |s.codes|
    requires MadeFrom(st.routines[id], s.cells.closures[id], s.codes[id], m, around)
    ensures |st.routines[id].params| <= |st.store| && ItemsTame(st.routines[id].body)
    ensures var c := Beginning(s, st, id, around, depth);
      var k := MakeItems(st.routines[id].body, BODY, [], Enter(st.routines[id].params, around));
      && Stands(c, BODY, s, st, m) && k.Made? && c.h.last == k.chain && c.h.f == Ended(c.h.f.arity, k)
      && Ahead(c.h, Ip(s), k) && |c.chain| > 1
  {
    hide SoundCode.Ready, MakeItems, OwnMatch, OuterMatch, Compact, ItemsTame, Mirrors, StateOk, Discipline.Scoped,
      Toward;
    MirrorsSize(s, st, m);
    var r := st.routines[id];
    var k := MakeItems(r.body, BODY, [], Enter(r.params, around));
    ParametersMatch(r.params, |st.store| - |r.params|, Slots(s), m);
    Discipline.ParametersScoped(r.params, around);
    TowardSelf(k.chain);
    HoldsSplit(Code(s).code, 0, k.code, [OP_NIL, OP_RETURN]);
  }

  // ----- leaving -----

  /** At the end of a body nil is returned. */
  lemma {:induction false} EndReturns(w: World, c: Scene, s: Config, st: State, m: seq<nat>, k: Made, n: nat, t: Config,
      p: seq<nat>, own: Env, st': State, fuel: nat)
    returns (i: nat, x: Config, q: seq<nat>)
    requires Stands(c, BODY, s, st, m) && Callable(w, c.depth) && |s.cells.frames| > 1 && k.Made? && |c.chain| > 1
    requires RunsItems(w, c, BODY, k, s, m, Normal(c.h.outer + own, st'), n, t, p, own, fuel)
    requires |k.chain| == |c.chain| && k.pool <= c.h.f.pool && k.chain == c.h.last
    requires Holds(c.h.f.code, Ip(s) + |k.code|, [OP_NIL, OP_RETURN])
    ensures Steps(w, s, i) == Running(x) && Mirrors(x, st', q) && Gone(s, m, Basic(Value.Nil), x, q)
  {
    hide Mirrors, Steps, StateOk, OwnMatch, OuterMatch, Callable, KeepsHeap, SoundCode.Ready, Toward, Discipline.Scoped,
      Compact, Fits;
    StandsBegins(c, BODY, s, st, m);
    var d, past := c.To(k).(own := own), BODY.Past(|k.code|);
    StandsBegins(d, past, t, st', p);
    TowardSelf(k.chain);
    KeepsSize(s, t, m, p);
    var j;
    j, x, q := ReturnRuns(w, d, past, None, t, st', p, fuel);
    StepsCompose(w, s, n, j);
    i := n + j;
    assert t.cells.locals[..Base(s)] == s.cells.locals[..Base(s)];
    GoneAfter(s, t, m, p, Basic(Value.Nil), x, q);
  }

  /** The main lemma on calls. */
  lemma {:induction false} BodyRuns(w: World, s: Config, st: State, m: seq<nat>, id: nat, fuel: nat, depth: nat)
    returns (k: nat, t: Config, n: seq<nat>)
    requires Entered(s, st, m, id, depth) && depth >= 2 && Callable(w, depth)
    ensures |st.routines[id].params| <= |st.store|
    ensures CallEnds(w, s, m, BodyResult(w, st, id, fuel, depth), k, t, n, fuel)
  {
    hide Mirrors, Steps, StateOk, OwnMatch, OuterMatch, Callable, KeepsHeap, SoundCode.Ready, Toward, Discipline.Scoped,
      Compact, Fits, ExecAll, MakeItems, MadeFrom, Stands, Begins, ItemsTame;
    EnteredFacts(s, st, m, id, depth);
    var around := EnteredFrom(s, st, m, id, depth);
    BodyStands(s, st, m, id, depth, around);
    var r, c := st.routines[id], Beginning(s, st, id, around, depth);
    var g := MakeItems(r.body, BODY, [], Enter(r.params, around));
    var own;
    k, t, n, own := ItemsRun(w, c, BODY, r.body, s, st, m, fuel);
    if ExecAll(w, r.body, c.Env(), st, fuel, depth).Normal? {
      assert c.h.f.code == g.code + [OP_NIL, OP_RETURN];
      HoldsSplit(c.h.f.code, Ip(s), g.code, [OP_NIL, OP_RETURN]);
      k, t, n := EndReturns(w, c, s, st, m, g, k, t, n, own, ExecAll(w, r.body, c.Env(), st, fuel, depth).st, fuel);
    }
  }

  lemma EnteredFacts(s: Config, st: State, m: seq<nat>, id: nat, depth: nat)
    requires Entered(s, st, m, id, depth)
    ensures Active(s) && |s.cells.frames| == depth <= DEEPEST && 1 <= id < |st.routines| && Ip(s) == 0
    ensures Base(s) <= Height(s)
  {
  }

  /** Every call does what its routine's body does. */
  lemma {:induction false} AllFaithful(w: World, depth: nat)
    requires 2 <= depth <= DEEPEST
    ensures Faithful(w, depth)
    decreases DEEPEST - depth
  {
    hide Entered, CallEnds, BodyResult;
    if depth < DEEPEST { AllFaithful(w, depth + 1); }
    assert Callable(w, depth);
    forall s: Config, st: State, m: seq<nat>, id: nat, fuel: nat | Entered(s, st, m, id, depth)
      ensures CallRuns(w, s, st, m, id, fuel, depth)
    {
      var k, t, n := BodyRuns(w, s, st, m, id, fuel, depth);
      EnteredSize(s, st, m, id, depth);
      assert CallEnds(w, s, m, BodyResult(w, st, id, fuel, depth), k, t, n, fuel);
    }
  }
}
