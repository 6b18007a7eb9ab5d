/** Boundaries between statements, in a script with functions, and what it means that the code of a statement does what
    the statement does. */
module Boundaries {
  import opened Values
  import opened Functions
  import opened Meaning
  import opened Agreement
  import opened Engine
  import opened Running
  import opened ExprRuns
  import opened Declaring
  import Discipline
  import Growth
  import Lexical
  import SoundCode

  // ----- results -----

  /** A boundary between statements: one slot for each local, one scope for each level, and the loop's top behind. */
  ghost predicate Stands(c: Scene, at: Spot, s: Config, st: State, m: seq<nat>) {
    && Begins(c, s, st, m)
    && Height(s) == Base(s) + |c.chain[0].locals| && |c.own| == at.level
    && Discipline.Scoped(c.chain[0].locals, at.level) && Discipline.InScope(at)
    && (at.loop.InLoop? ==> at.loop.distance <= Ip(s)) && Compact(c.h.f) && (at.level == 0 ==> c.h.outer == [])
  }

  /** The call has returned `v`. */
  ghost predicate Gone(s: Config, m: seq<nat>, v: Datum, t: Config, n: seq<nat>)
    requires Active(s)
  {
    && KeepsHeap(s, t, m, n) && |s.cells.frames| > 1
    && t.cells.frames == s.cells.frames[..|s.cells.frames| - 1] && t.ips == s.ips[..|s.ips| - 1]
    && Base(s) <= Height(s) && Height(t) == Base(s) + 1 && t.cells.locals[..Base(s)] == s.cells.locals[..Base(s)]
    && NewCell(s, t, n, t.cells.locals[Base(s)], v)
  }

  /** How many slots there are at the top of the loop. */
  function AtTop(c: Scene, at: Spot): nat {
    Discipline.Base(c.chain[0].locals, at.loop)
  }

  /** After `k` steps from `s` the machine is where the result `r` says: behind the code with the same slots, at the top
      of the loop, behind the call, stopped with the error, or it has run for at least `fuel` steps. */
  ghost predicate Runs(w: World, c: Scene, at: Spot, len: nat, s: Config, m: seq<nat>, r: Result, k: nat, t: Config,
      n: seq<nat>, fuel: nat)
    requires Active(s)
  {
    match r
    case Normal(env, st) =>
      && Steps(w, s, k) == Running(t) && Keeps(s, t, m, n) && Ip(t) == Ip(s) + len && Mirrors(t, st, n)
      && t.cells.locals == s.cells.locals && env == c.Env()
    case Continued(st) =>
      && at.loop.InLoop? && at.loop.distance <= Ip(s) && Base(s) + AtTop(c, at) <= Height(s)
      && Steps(w, s, k) == Running(t) && Keeps(s, t, m, n) && Ip(t) == Ip(s) - at.loop.distance && Mirrors(t, st, n)
      && t.cells.locals == s.cells.locals[..Base(s) + AtTop(c, at)]
    case Returned(v, st) => Steps(w, s, k) == Running(t) && Mirrors(t, st, n) && Gone(s, m, v, t, n)
    case Crashed(st) => Steps(w, s, k) == Status.Error(t) && t.globals == st.globals && t.output == st.output
    case OutOfFuel => Steps(w, s, k) == Running(t) && k >= fuel
  }

  /** The same for declarations: behind the code there may be new slots, and new variables in the innermost scope. */
  ghost predicate RunsItems(w: World, c: Scene, at: Spot, g: Made, s: Config, m: seq<nat>, r: Result, k: nat, t: Config,
      n: seq<nat>, own: Env, fuel: nat)
    requires Active(s)
  {
    match r
    case Normal(env, st) =>
      && g.Made? && Steps(w, s, k) == Running(t) && Keeps(s, t, m, n) && Ip(t) == Ip(s) + |g.code|
      && s.cells.locals <= t.cells.locals && env == c.h.outer + own
      && Stands(c.To(g).(own := own), at.Past(|g.code|), t, st, n)
    case _ => Runs(w, c, at, 0, s, m, r, k, t, n, fuel)
  }

  // ----- boundaries -----

  lemma StandsBegins(c: Scene, at: Spot, s: Config, st: State, m: seq<nat>)
    requires Stands(c, at, s, st, m)
    ensures Begins(c, s, st, m) && In(c.h, s) && Compact(c.h.f) && |c.own| == at.level
    ensures Base(s) <= Height(s) && Base(s) + |c.chain[0].locals| == Height(s)
    ensures Base(s) + AtTop(c, at) <= Height(s) && Discipline.Scoped(c.chain[0].locals, at.level)
    ensures at.loop.InLoop? ==> at.loop.distance <= Ip(s) && at.loop.level < at.level
  {
    Discipline.BaseBounds(c.chain[0].locals, at);
  }

  lemma ReadyHere(c: Scene, s: Config, st: State, m: seq<nat>)
    requires Begins(c, s, st, m)
    ensures SoundCode.Ready(c.pool, c.chain) && Mirrors(s, st, m) && StateOk(st)
      && |s.cells.frames| == c.depth <= DEEPEST
  {
  }

  lemma KeepsSize(s: Config, t: Config, m: seq<nat>, n: seq<nat>)
    requires Keeps(s, t, m, n)
    ensures t.cells.frames == s.cells.frames && |t.ips| == |s.ips|
  {
  }

  /** The next boundary, with the same slots. */
  lemma ThenStands(c: Scene, at: Spot, s: Config, st: State, m: seq<nat>, t: Config, st': State, n: seq<nat>, g: Made,
      at': Spot)
    requires Stands(c, at, s, st, m) && Keeps(s, t, m, n) && Mirrors(t, st', n) && StateOk(st')
    requires t.cells.locals == s.cells.locals && at'.level == at.level && Discipline.InScope(at')
    requires at'.loop.InLoop? ==> at'.loop.distance <= Ip(t)
    requires g.Made? && SoundCode.Ready(g.pool, g.chain) && Lexical.Grows(c.chain, g.chain)
    ensures Stands(c.To(g), at', t, st', n)
  {
    hide SoundCode.Ready, Mirrors, StateOk, Fits, KeepsHeap, Lexical.Grows, Discipline.Scoped;
    ThenBegins(c, s, st, m, t, st', n, g);
    Growth.GrowsScoped(c.chain, g.chain, at.level);
    Discipline.GrowsFlagged(c.chain, g.chain);
  }

  /** Further on in the same loop. */
  lemma PastSpot(c: Scene, at: Spot, g: Made, len: nat)
    requires g.Made? && Lexical.Grows(c.chain, g.chain)
    ensures at.Past(len).level == at.level && at.Past(len).loop.NoLoop? == at.loop.NoLoop?
    ensures at.loop.InLoop? ==> at.Past(len).loop.distance == at.loop.distance + len
    ensures AtTop(c.To(g), at.Past(len)) == AtTop(c, at)
    ensures Discipline.InScope(at) ==> Discipline.InScope(at.Past(len))
  {
    Discipline.GrowsFlagged(c.chain, g.chain);
    Discipline.FlaggedBase(c.chain[0].locals, g.chain[0].locals, at.loop);
  }

  lemma PastHere(at: Spot, len: nat)
    ensures at.Past(len).level == at.level && (Discipline.InScope(at) ==> Discipline.InScope(at.Past(len)))
    ensures at.loop.NoLoop? == at.Past(len).loop.NoLoop?
    ensures at.loop.InLoop? ==> at.Past(len).loop.distance == at.loop.distance + len
  {
  }

  /** The same place, in a new scope. */
  function Deeper1(c: Scene): Scene {
    c.(own := c.own + [map[]])
  }

  lemma ScopeEntered(c: Scene, at: Spot, s: Config, st: State, m: seq<nat>, at': Spot)
    requires Stands(c, at, s, st, m) && at'.level == at.level + 1 && Discipline.InScope(at')
    requires at'.loop.InLoop? ==> at'.loop.distance <= Ip(s)
    ensures Stands(Deeper1(c), at', s, st, m) && Deeper1(c).Env() == c.Env() + [map[]]
  {
    hide SoundCode.Ready, Mirrors, StateOk, OwnMatch, OuterMatch, Discipline.Scoped;
    EnterScope(c.chain[0].locals, c.own, Slots(s), m);
    Growth.DeeperScoped(c.chain[0].locals, at.level);
    assert Deeper1(c).Env() == c.Env() + [map[]];
  }

  // ----- putting runs together -----

  lemma GoneAfter(s: Config, t: Config, m: seq<nat>, n: seq<nat>, v: Datum, u: Config, o: seq<nat>)
    requires Active(s) && Active(t) && Keeps(s, t, m, n) && Gone(t, n, v, u, o)
    requires Base(s) <= Height(s) && t.cells.locals[..Base(s)] == s.cells.locals[..Base(s)] && Base(s) <= Height(t)
    ensures Gone(s, m, v, u, o)
  {
    HeapOn(s, t, u, m, n, o);
  }

  /** Steps before a run that does not end normally. */
  lemma {:induction false} ThenLeaves(w: World, c: Scene, at: Spot, s: Config, m: seq<nat>, k: nat, t: Config,
      n: seq<nat>, c': Scene, at': Spot, len: nat, r: Result, j: nat, u: Config, o: seq<nat>, fuel: nat, all: nat)
    requires Active(s) && Active(t) && Steps(w, s, k) == Running(t) && Keeps(s, t, m, n)
    requires Base(s) <= Height(s) <= Height(t) && s.cells.locals <= t.cells.locals && !r.Normal?
    requires Runs(w, c', at', len, t, n, r, j, u, o, fuel)
    requires r.Continued? && at'.loop.InLoop? ==>
      && at.loop.InLoop? && Ip(s) <= Ip(t) && at.loop.distance <= Ip(s)
      && at'.loop.distance == at.loop.distance + (Ip(t) - Ip(s))
      && AtTop(c', at') == AtTop(c, at) && Base(s) + AtTop(c, at) <= Height(s)
    ensures Runs(w, c, at, all, s, m, r, k + j, u, o, fuel)
  {
    hide Steps, Mirrors, KeepsHeap;
    StepsCompose(w, s, k, j);
    assert t.cells.locals[..Height(s)] == s.cells.locals;
    match r
    case Continued(_) =>
      KeepsOn(s, t, u, m, n, o);
      assert t.cells.locals[..Base(s) + AtTop(c, at)] == s.cells.locals[..Base(s) + AtTop(c, at)];
    case Returned(v, _) =>
      assert t.cells.locals[..Base(s)] == s.cells.locals[..Base(s)];
      GoneAfter(s, t, m, n, v, u, o);
    case _ =>
  }

  /** Steps before a run that ends normally. */
  lemma {:induction false} ThenNormal(w: World, c: Scene, at: Spot, s: Config, m: seq<nat>, k: nat, t: Config,
      n: seq<nat>, len: nat, r: Result, j: nat, u: Config, o: seq<nat>, fuel: nat, c': Scene, at': Spot)
    requires Active(s) && Active(t) && Steps(w, s, k) == Running(t) && Keeps(s, t, m, n) && Ip(s) <= Ip(t)
    requires t.cells.locals == s.cells.locals && r.Normal? && c'.Env() == c.Env()
    requires Runs(w, c', at', len, t, n, r, j, u, o, fuel)
    ensures Runs(w, c, at, Ip(t) - Ip(s) + len, s, m, r, k + j, u, o, fuel)
  {
    hide Steps, Mirrors, KeepsHeap;
    StepsCompose(w, s, k, j);
    KeepsOn(s, t, u, m, n, o);
  }

  /** The last piece of a statement. */
  lemma Continues(w: World, c: Scene, at: Spot, s: Config, m: seq<nat>, k: nat, t: Config, n: seq<nat>, c': Scene,
      at': Spot, len: nat, r: Result, j: nat, u: Config, o: seq<nat>, fuel: nat)
    requires Active(s) && Active(t) && Steps(w, s, k) == Running(t) && Keeps(s, t, m, n) && Base(s) <= Height(s)
    requires t.cells.locals == s.cells.locals && Ip(s) <= Ip(t) && c'.Env() == c.Env()
    requires at'.loop.NoLoop? == at.loop.NoLoop?
    requires at.loop.InLoop? ==>
      && at'.loop.distance == at.loop.distance + (Ip(t) - Ip(s)) && at.loop.distance <= Ip(s)
      && AtTop(c', at') == AtTop(c, at) && Base(s) + AtTop(c, at) <= Height(s)
    requires Runs(w, c', at', len, t, n, r, j, u, o, fuel)
    ensures Runs(w, c, at, Ip(t) - Ip(s) + len, s, m, r, k + j, u, o, fuel)
  {
    hide Runs, Steps, AtTop, KeepsHeap;
    if r.Normal? {
      ThenNormal(w, c, at, s, m, k, t, n, len, r, j, u, o, fuel, c', at');
    } else {
      ThenLeaves(w, c, at, s, m, k, t, n, c', at', len, r, j, u, o, fuel, Ip(t) - Ip(s) + len);
    }
  }

  lemma NormalHere(w: World, c: Scene, at: Spot, s: Config, m: seq<nat>, st: State, k: nat, t: Config, n: seq<nat>,
      fuel: nat, len: nat)
    requires Active(s) && Steps(w, s, k) == Running(t) && Keeps(s, t, m, n) && Mirrors(t, st, n)
    requires t.cells.locals == s.cells.locals && Ip(t) == Ip(s) + len
    ensures Runs(w, c, at, len, s, m, Normal(c.Env(), st), k, t, n, fuel)
  {
  }

  /** An expression that does not give a value ends the statement. */
  lemma ExprLeaves(w: World, c: Scene, at: Spot, s: Config, m: seq<nat>, len: nat, r: ExprResult, k: nat, t: Config,
      n: seq<nat>, fuel: nat, all: nat)
    requires Active(s) && Computes(w, s, m, len, r, k, t, n, fuel) && !r.Done?
    ensures Runs(w, c, at, all, s, m, Abort(r), k, t, n, fuel)
  {
    hide Steps;
  }

  lemma ItemLeaves(w: World, c: Scene, at: Spot, g: Made, s: Config, m: seq<nat>, len: nat, r: ExprResult, k: nat,
      t: Config, n: seq<nat>, own: Env, fuel: nat)
    requires Active(s) && Computes(w, s, m, len, r, k, t, n, fuel) && !r.Done?
    ensures RunsItems(w, c, at, g, s, m, Abort(r), k, t, n, own, fuel)
  {
    hide Steps;
  }
}
