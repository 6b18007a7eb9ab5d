/** How the cells of the machine picture the variables of an evaluation. */
module Agreement {
  import opened Values
  import opened Bytecode
  import opened Functions
  import opened Meaning
  import CellMachine
  import Discipline
  import Engine
  import ExprTypes
  import Lexical
  import SoundCode

  type Config = Engine.Config

  // ----- chains -----

  /** The chain as it is when the innermost function has been compiled to its end: more upvalues, more captured
      locals. */
  ghost predicate Toward(chain: Chain, last: Chain) {
    && |chain| == |last| && chain[0].upvalues <= last[0].upvalues
    && forall d :: 1 <= d < |chain| ==> Lexical.LevelGrows(chain[d], last[d])
  }

  lemma TowardBefore(chain: Chain, after: Chain, last: Chain)
    requires Lexical.Grows(chain, after) && Toward(after, last)
    ensures Toward(chain, last)
  {
    assert Lexical.LevelGrows(chain[0], after[0]);
    forall d | 1 <= d < |chain|
      ensures Lexical.LevelGrows(chain[d], last[d])
    {
      assert Lexical.LevelGrows(chain[d], after[d]) && Lexical.LevelGrows(after[d], last[d]);
    }
  }

  lemma TowardOut(chain: Chain, after: Chain, last: Chain, level: nat)
    requires Discipline.GrowsOut(chain, after, level) && Toward(after, last)
    ensures Toward(chain, last)
  {
    forall d | 1 <= d < |chain|
      ensures Lexical.LevelGrows(chain[d], last[d])
    {
      assert Lexical.LevelGrows(chain[d], after[d]) && Lexical.LevelGrows(after[d], last[d]);
    }
  }

  // ----- the variables of the running function -----

  /** The slot of a local that is initialized holds the cell of the variable its scope binds. */
  ghost predicate SlotShows(locals: seq<Lexical.Local>, own: Env, cells: seq<nat>, m: seq<nat>, i: nat)
    requires i < |locals| && locals[i].level >= 1
  {
    && i < |cells| && locals[i].level <= |own|
    && var scope := own[locals[i].level - 1];
      && locals[i].name in scope && scope[locals[i].name] < |m| && m[scope[locals[i].name]] == cells[i]
  }

  /** Locals are sorted by scope, and no scope declares a name twice. */
  ghost predicate Sorted(locals: seq<Lexical.Local>) {
    forall i, j :: 0 <= i < j < |locals| && locals[i].level >= 1 && locals[j].level >= 1 ==>
      && locals[i].level <= locals[j].level
      && (locals[i].level == locals[j].level ==> locals[i].name != locals[j].name)
  }

  /** Slot 0 has a name that cannot be written. */
  ghost predicate Reserved(locals: seq<Lexical.Local>) {
    forall i :: 0 <= i < |locals| ==>
      && locals[i].level >= -1
      && (locals[i].level == 0 ==> locals[i].name == "" || locals[i].name == "this")
  }

  ghost predicate OwnMatch(locals: seq<Lexical.Local>, own: Env, cells: seq<nat>, m: seq<nat>) {
    && Sorted(locals) && Reserved(locals)
    && (forall i :: 0 <= i < |locals| && locals[i].level >= 1 ==> SlotShows(locals, own, cells, m, i))
    && forall l, x :: 0 <= l < |own| && x in own[l] ==> Declared(locals, x, l + 1)
  }

  // ----- the variables around it -----

  /** Every upvalue has captured the cell of the variable its name stands for where the function was declared; a name
      that no function around declares stands for no variable there. */
  ghost predicate OuterMatch(last: Chain, ups: seq<nat>, outer: Env, m: seq<nat>) {
    && |ups| == |last[0].upvalues|
    && (forall x: Ident, p: Lexical.Place, i: nat :: i < |ups| && Named(last, x, p, i) ==> UpShows(ups, outer, m, x, i))
    && forall x: Ident :: Undeclared(last, x) ==> Place(outer, x) == None
  }

  /** Upvalue `i` leads to the local `x` stands for. */
  ghost predicate Named(last: Chain, x: Ident, p: Lexical.Place, i: nat) {
    Lexical.IsNearest(last, x, p) && Lexical.Follow(last, i) == Some(p)
  }

  ghost predicate UpShows(ups: seq<nat>, outer: Env, m: seq<nat>, x: string, i: nat)
    requires i < |ups|
  {
    Place(outer, x).Some? && Place(outer, x).value < |m| && m[Place(outer, x).value] == ups[i]
  }

  ghost predicate Undeclared(chain: Chain, x: string) {
    forall d :: 1 <= d < |chain| ==> !Lexical.Declares(chain[d], x)
  }

  // ----- the whole state -----

  /** The function that runs: its code, the chain at its end, its captured cells and the variables around it. */
  datatype Here = Here(f: Function, last: Chain, ups: seq<nat>, outer: Env)

  ghost predicate DistinctCells(m: seq<nat>) {
    forall i, j :: 0 <= i < j < |m| ==> m[i] != m[j]
  }

  /** `m` gives the cell of each place of the store. */
  ghost predicate StoreMatch(cells: seq<Datum>, store: seq<Datum>, m: seq<nat>) {
    && |m| == |store| && DistinctCells(m)
    && forall l :: 0 <= l < |m| ==> m[l] < |cells| && cells[m[l]] == store[l]
  }

  /** A closure was made from the function a routine was declared with, and captured the variables around it. */
  ghost predicate MadeFrom(r: Routine, g: CellMachine.Function, f: Function, m: seq<nat>, around: Chain) {
    && |r.params| <= UINT8_MAX && Distinct(r.params) && ItemsTame(r.body) && Compact(f)
    && SoundCode.Ready([], Enter(r.params, around))
    && var k := MakeItems(r.body, BODY, [], Enter(r.params, around));
      k.Made? && f == Ended(|r.params|, k) && OuterMatch(k.chain, g.cells, r.env, m)
  }

  ghost predicate RoutineOk(r: Routine, g: CellMachine.Function, f: Function, m: seq<nat>) {
    exists around: Chain :: MadeFrom(r, g, f, m, around)
  }

  ghost predicate RoutinesMatch(closures: seq<CellMachine.Function>, codes: seq<Function>, rs: seq<Routine>,
      m: seq<nat>) {
    && |closures| == |codes| == |rs|
    && forall id :: 1 <= id < |rs| ==> RoutineOk(rs[id], closures[id], codes[id], m)
  }

  ghost predicate Mirrors(s: Config, st: State, m: seq<nat>) {
    && StoreMatch(s.cells.store, st.store, m)
    && RoutinesMatch(s.cells.closures, s.codes, st.routines, m)
    && |s.cells.closures| >= 1
    && s.globals == st.globals && s.output == st.output
  }

  function Slots(s: Config): seq<nat>
    requires |s.cells.frames| > 0 && Engine.Base(s) <= Engine.Height(s)
  {
    s.cells.locals[Engine.Base(s)..]
  }

  ghost predicate In(h: Here, s: Config) {
    && Engine.Active(s) && Engine.Base(s) <= Engine.Height(s) && Engine.Code(s) == h.f && Engine.Captured(s) == h.ups
  }

  /** The machine runs the function, at a place with these locals and these scopes of its own. */
  ghost predicate Fits(h: Here, chain: Chain, own: Env, s: Config, m: seq<nat>) {
    && In(h, s) && OwnMatch(chain[0].locals, own, Slots(s), m) && OuterMatch(h.last, h.ups, h.outer, m)
  }

  /** What a piece of code leaves alone: the calls in progress, closures that have been made, and every cell that is no
      variable. */
  ghost predicate Keeps(s: Config, t: Config, m: seq<nat>, n: seq<nat>) {
    && t.cells.frames == s.cells.frames && |t.ips| == |s.ips| > 0 && t.ips[..|t.ips| - 1] == s.ips[..|s.ips| - 1]
    && KeepsHeap(s, t, m, n)
  }

  ghost predicate KeepsHeap(s: Config, t: Config, m: seq<nat>, n: seq<nat>) {
    && s.codes <= t.codes && s.cells.closures <= t.cells.closures
    && |s.cells.store| <= |t.cells.store| && m <= n
    && (forall c :: 0 <= c < |s.cells.store| && c !in m ==> t.cells.store[c] == s.cells.store[c])
    && forall l :: |m| <= l < |n| ==> n[l] >= |s.cells.store|
  }

  lemma KeepsSelf(s: Config, m: seq<nat>)
    requires |s.ips| > 0
    ensures Keeps(s, s, m, m)
  {
  }

  lemma HeapOn(s: Config, t: Config, u: Config, m: seq<nat>, n: seq<nat>, k: seq<nat>)
    requires KeepsHeap(s, t, m, n) && KeepsHeap(t, u, n, k)
    ensures KeepsHeap(s, u, m, k)
  {
    forall c | 0 <= c < |s.cells.store| && c !in m
      ensures u.cells.store[c] == s.cells.store[c]
    {
      OldCell(s, m, n, c);
    }
    forall l | |m| <= l < |k|
      ensures k[l] >= |s.cells.store|
    {
      if l < |n| { assert k[l] == n[l]; }
    }
  }

  /** New variables have new cells. */
  lemma OldCell(s: Config, m: seq<nat>, n: seq<nat>, c: nat)
    requires m <= n && (forall l :: |m| <= l < |n| ==> n[l] >= |s.cells.store|) && c < |s.cells.store| && c !in m
    ensures c !in n
  {
    forall l | 0 <= l < |n|
      ensures n[l] != c
    {
      if l < |m| { assert n[l] == m[l]; }
    }
  }

  lemma KeepsOn(s: Config, t: Config, u: Config, m: seq<nat>, n: seq<nat>, k: seq<nat>)
    requires Keeps(s, t, m, n) && Keeps(t, u, n, k)
    ensures Keeps(s, u, m, k)
  {
    hide KeepsHeap;
    HeapOn(s, t, u, m, n, k);
  }

  /** Values above the variables, and the running function, are as they were. */
  lemma InKept(h: Here, s: Config, t: Config, m: seq<nat>, n: seq<nat>)
    requires In(h, s) && Keeps(s, t, m, n) && Engine.Base(s) <= Engine.Height(t)
    ensures In(h, t)
  {
  }

  lemma {:induction false} OuterMore(last: Chain, ups: seq<nat>, outer: Env, m: seq<nat>, n: seq<nat>)
    requires OuterMatch(last, ups, outer, m) && m <= n
    ensures OuterMatch(last, ups, outer, n)
  {
    forall x: Ident, p: Lexical.Place, i: nat | i < |ups| && Named(last, x, p, i)
      ensures UpShows(ups, outer, n, x, i)
    {
      assert UpShows(ups, outer, m, x, i);
    }
  }

  lemma OwnMore(locals: seq<Lexical.Local>, own: Env, cells: seq<nat>, more: seq<nat>, m: seq<nat>, n: seq<nat>)
    requires OwnMatch(locals, own, cells, m) && cells <= more && m <= n
    ensures OwnMatch(locals, own, more, n)
  {
    hide Sorted, Reserved;
    forall i | 0 <= i < |locals| && locals[i].level >= 1
      ensures SlotShows(locals, own, more, n, i)
    {
      assert SlotShows(locals, own, cells, m, i);
    }
  }

  /** After a piece of code that keeps the slots the function's variables are still pictured. */
  lemma FitsKept(h: Here, chain: Chain, own: Env, s: Config, t: Config, m: seq<nat>, n: seq<nat>)
    requires Fits(h, chain, own, s, m) && Keeps(s, t, m, n)
    requires s.cells.locals <= t.cells.locals
    ensures Fits(h, chain, own, t, n)
  {
    hide OwnMatch, OuterMatch, KeepsHeap;
    assert m <= n by { HeapGrows(s, t, m, n); }
    InKept(h, s, t, m, n);
    assert Slots(s) <= Slots(t);
    OwnMore(chain[0].locals, own, Slots(s), Slots(t), m, n);
    OuterMore(h.last, h.ups, h.outer, m, n);
  }

  lemma HeapGrows(s: Config, t: Config, m: seq<nat>, n: seq<nat>)
    requires KeepsHeap(s, t, m, n)
    ensures m <= n
  {
  }

  lemma SortedFlagged(a: seq<Lexical.Local>, b: seq<Lexical.Local>)
    requires Sorted(a) && Reserved(a) && ExprTypes.Flagged(a, b)
    ensures Sorted(b) && Reserved(b)
  {
  }

  /** Being captured does not change a variable. */
  lemma OwnFlagged(a: seq<Lexical.Local>, b: seq<Lexical.Local>, own: Env, cells: seq<nat>, m: seq<nat>)
    requires OwnMatch(a, own, cells, m) && ExprTypes.Flagged(a, b)
    ensures OwnMatch(b, own, cells, m)
  {
    SortedFlagged(a, b);
    hide Sorted, Reserved, ExprTypes.Flagged, Declared, SlotShows;
    forall i | 0 <= i < |b| && b[i].level >= 1
      ensures SlotShows(b, own, cells, m, i)
    {
      SlotFlagged(a, b, own, cells, m, i);
    }
    forall l, x | 0 <= l < |own| && x in own[l]
      ensures Declared(b, x, l + 1)
    {
      DeclaredFlagged(a, b, x, l + 1);
    }
  }

  lemma SlotFlagged(a: seq<Lexical.Local>, b: seq<Lexical.Local>, own: Env, cells: seq<nat>, m: seq<nat>, i: nat)
    requires ExprTypes.Flagged(a, b) && i < |b| && b[i].level >= 1
    requires a[i].level >= 1 ==> SlotShows(a, own, cells, m, i)
    ensures |a| == |b| && a[i].level >= 1 && SlotShows(b, own, cells, m, i)
  {
  }

  lemma DeclaredFlagged(a: seq<Lexical.Local>, b: seq<Lexical.Local>, x: string, level: nat)
    requires ExprTypes.Flagged(a, b) && Declared(a, x, level)
    ensures Declared(b, x, level)
  {
    var i :| 0 <= i < |a| && a[i].name == x && a[i].level == level;
    assert b[i].name == x && b[i].level == level;
  }

  lemma FitsFlagged(h: Here, chain: Chain, after: Chain, own: Env, s: Config, m: seq<nat>)
    requires Fits(h, chain, own, s, m) && Lexical.Grows(chain, after)
    ensures Fits(h, after, own, s, m)
  {
    hide OwnMatch, OuterMatch;
    Discipline.GrowsFlagged(chain, after);
    OwnFlagged(chain[0].locals, after[0].locals, own, Slots(s), m);
  }

  // ----- names -----

  /** A name that is no local has no place in the function's own scopes. */
  lemma {:induction false} NotOwn(locals: seq<Lexical.Local>, own: Env, x: string)
    requires forall l, y :: 0 <= l < |own| && y in own[l] ==> Declared(locals, y, l + 1)
    requires Lexical.Newest(locals, x) == -1
    ensures Place(own, x) == None
    decreases |own|
  {
    if own != [] {
      assert x !in own[|own| - 1];
      NotOwn(locals, own[..|own| - 1], x);
    }
  }

  /** A place in the inner scopes hides those further out. */
  lemma {:induction false} PlaceJoined(outer: Env, own: Env, x: string)
    ensures Place(outer + own, x) == if Place(own, x).Some? then Place(own, x) else Place(outer, x)
    decreases |own|
  {
    if own == [] {
      assert outer + own == outer;
    } else {
      assert (outer + own)[..|outer + own| - 1] == outer + own[..|own| - 1];
      PlaceJoined(outer, own[..|own| - 1], x);
    }
  }

  /** The innermost scope that binds a name. */
  lemma {:induction false} PlaceAt(own: Env, x: string, l: nat)
    requires l < |own| && x in own[l] && forall k :: l < k < |own| ==> x !in own[k]
    ensures Place(own, x) == Some(own[l][x])
    decreases |own|
  {
    if l < |own| - 1 { PlaceAt(own[..|own| - 1], x, l); }
  }

  lemma NewestDeepest(locals: seq<Lexical.Local>, x: string, level: nat)
    requires Sorted(locals) && level >= 1 && Declared(locals, x, level)
    ensures var r := Lexical.Newest(locals, x); r >= 0 && (locals[r].level >= 1 ==> level <= locals[r].level)
  {
  }

  /** No scope further in binds the name of the newest local. */
  lemma NoneFurther(locals: seq<Lexical.Local>, own: Env, cells: seq<nat>, m: seq<nat>, x: string, r: nat, k: nat)
    requires OwnMatch(locals, own, cells, m) && r < |locals| && r == Lexical.Newest(locals, x) && locals[r].level >= 1
    requires locals[r].level <= k < |own|
    ensures x !in own[k]
  {
    hide Reserved, SlotShows;
    if x in own[k] { NewestDeepest(locals, x, k + 1); }
  }

  lemma NotReserved(locals: seq<Lexical.Local>, own: Env, cells: seq<nat>, m: seq<nat>, x: Ident, r: nat)
    requires OwnMatch(locals, own, cells, m) && r < |locals| && locals[r].name == x && locals[r].level != -1
    ensures locals[r].level >= 1 && SlotShows(locals, own, cells, m, r)
  {
    hide Sorted, SlotShows;
  }

  /** The newest local of a name is the variable of the innermost scope that binds it. */
  lemma {:induction false} OwnPlace(locals: seq<Lexical.Local>, own: Env, cells: seq<nat>, m: seq<nat>, x: Ident)
    requires OwnMatch(locals, own, cells, m)
    requires Lexical.Newest(locals, x) >= 0 && locals[Lexical.Newest(locals, x)].level != -1
    ensures var r := Lexical.Newest(locals, x);
      r < |cells| && Place(own, x).Some? && Place(own, x).value < |m| && m[Place(own, x).value] == cells[r]
  {
    hide OwnMatch, Place;
    var r: nat := Lexical.Newest(locals, x);
    NotReserved(locals, own, cells, m, x, r);
    var l: nat := locals[r].level - 1;
    forall k | l < k < |own|
      ensures x !in own[k]
    {
      NoneFurther(locals, own, cells, m, x, r, k);
    }
    PlaceAt(own, x, l);
  }

  /** What the chain says about a name does not change any more. */
  lemma NearestStays(chain: Chain, last: Chain, x: string, p: Lexical.Place)
    requires Toward(chain, last) && Lexical.IsNearest(chain, x, p)
    ensures Lexical.IsNearest(last, x, p)
  {
    forall d | 1 <= d < |chain|
      ensures Lexical.Newest(last[d].locals, x) == Lexical.Newest(chain[d].locals, x)
      ensures Lexical.Declares(last[d], x) <==> Lexical.Declares(chain[d], x)
    {
      assert Lexical.LevelGrows(chain[d], last[d]);
      SameNames(chain[d].locals, last[d].locals, x);
      Lexical.DeclaresIff(chain[d], x);
      Lexical.DeclaresIff(last[d], x);
    }
  }

  lemma {:induction false} SameNames(a: seq<Lexical.Local>, b: seq<Lexical.Local>, x: string)
    requires |a| == |b| && forall i :: 0 <= i < |a| ==> a[i].name == b[i].name
    ensures Lexical.Newest(a, x) == Lexical.Newest(b, x)
    decreases |a|
  {
    if a != [] && a[|a| - 1].name != x { SameNames(a[..|a| - 1], b[..|b| - 1], x); }
  }

  lemma UndeclaredStays(chain: Chain, last: Chain, x: string)
    requires Toward(chain, last) && Undeclared(chain, x)
    ensures Undeclared(last, x)
  {
    forall d | 1 <= d < |last|
      ensures !Lexical.Declares(last[d], x)
    {
      assert Lexical.LevelGrows(chain[d], last[d]) && !Lexical.Declares(chain[d], x);
    }
  }

  /** What an upvalue leads to does not change any more. */
  lemma FollowToward(chain: Chain, last: Chain, i: nat)
    requires Toward(chain, last) && Lexical.Follow(chain, i).Some?
    ensures Lexical.Follow(last, i) == Lexical.Follow(chain, i)
  {
    var full := last[0 := last[0].(locals := chain[0].locals)];
    forall d | 0 <= d < |chain|
      ensures Lexical.LevelGrows(chain[d], full[d])
    {
      if d > 0 { assert Lexical.LevelGrows(chain[d], last[d]); }
    }
    Lexical.FollowStays(chain, full, i);
    assert full[1..] == last[1..];
  }

  /** An upvalue that a name resolves to has captured the cell of the name's variable. */
  lemma {:induction false} UpPlace(chain: Chain, last: Chain, ups: seq<nat>, outer: Env, m: seq<nat>, x: Ident)
    requires Lexical.WellLinked(chain) && Toward(Lexical.ResolveUp(chain, x).chain, last)
    requires OuterMatch(last, ups, outer, m) && !Lexical.ResolveUp(chain, x).full
    ensures var u := Lexical.ResolveUp(chain, x);
      && (u.index >= 0 ==> u.index < |ups| && UpShows(ups, outer, m, x, u.index))
      && (u.index == -1 ==> Place(outer, x) == None)
  {
    hide Lexical.ResolveUp, Lexical.WellLinked, Lexical.Follow;
    var u := Lexical.ResolveUp(chain, x);
    Lexical.Addressing(chain, x);
    Lexical.LookupGrows(chain, x);
    TowardBefore(chain, u.chain, last);
    if u.index >= 0 {
      var p := Lexical.Follow(u.chain, u.index).value;
      FollowToward(u.chain, last, u.index);
      NearestStays(chain, last, x, p);
      assert Named(last, x, p, u.index);
    } else {
      assert Undeclared(chain, x);
      UndeclaredStays(chain, last, x);
    }
  }
}
