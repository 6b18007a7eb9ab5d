/** How entering and leaving scopes and declaring variables keep slots and scopes in step. */
module Scoping {
  import opened Values
  import opened Semantics
  import opened Codegen
  import opened Machine
  import opened Expressions

  /** Slot discipline at a statement boundary: the stack holds one value per local, each at its
      own index, and no local is deeper than the current scope. */
  ghost predicate Boundary(locals: seq<Local>, level: nat, s: Config, st: State) {
    && Agree(locals, s, st)
    && |s.stack| == |locals|
    && |st.scopes| == level + 1
    && Settled(locals, level)
  }

  ghost predicate Settled(locals: seq<Local>, level: nat) {
    forall i :: 0 <= i < |locals| ==> 0 <= locals[i].level <= level
  }

  /** The locals outside the scopes deeper than `level`. */
  function Outer(locals: seq<Local>, level: int): seq<Local> {
    locals[..|locals| - Above(locals, level)]
  }

  lemma EnterScope(locals: seq<Local>, level: nat, s: Config, st: State)
    requires Boundary(locals, level, s, st)
    ensures Boundary(locals, level + 1, s, Push(st))
  {
    var scopes' := Push(st).scopes;
    forall i | 0 <= i < |locals| && locals[i].level >= 0
      ensures SlotHolds(locals, s.stack, scopes', i)
    {
      assert SlotHolds(locals, s.stack, st.scopes, i);
    }
  }

  /** In a sorted array the slots counted from the top are all the slots of the deeper scopes. */
  lemma OuterSorted(locals: seq<Local>, level: int)
    requires Ordered(locals) && forall i :: 0 <= i < |locals| ==> locals[i].level >= 0
    ensures forall i :: 0 <= i < |locals| ==> (i < |Outer(locals, level)| <==> locals[i].level <= level)
  {
    var k := |Outer(locals, level)|;
    forall i | 0 <= i < k
      ensures locals[i].level <= level
    {
      assert i < k - 1 ==> locals[i].level <= locals[k - 1].level;
    }
  }

  lemma LeaveMatch(locals: seq<Local>, n: nat, level: nat, stack: seq<Value>, scopes: Scopes)
    requires Match(locals, stack, scopes) && n <= |locals| && n <= |stack| && level < |scopes|
    requires forall i :: 0 <= i < |locals| ==> locals[i].level >= 0 && (i < n <==> locals[i].level <= level)
    ensures Match(locals[..n], stack[..n], scopes[..level + 1])
  {
    var out := locals[..n];
    forall i | 0 <= i < n && out[i].level >= 0
      ensures SlotHolds(out, stack[..n], scopes[..level + 1], i)
    {
      assert SlotHolds(locals, stack, scopes, i);
    }
    forall l, x | 0 <= l <= level && x in scopes[l]
      ensures Local(x, l) in out
    {
      var i :| 0 <= i < |locals| && locals[i] == Local(x, l);
      assert out[i] == Local(x, l);
    }
  }

  /** Leaving every scope deeper than `level` keeps exactly the slots of the other scopes. */
  lemma LeaveScopes(locals: seq<Local>, inner: nat, level: nat, s: Config, st: State, ip: nat)
    requires Boundary(locals, inner, s, st) && level <= inner
    ensures var n := |Outer(locals, level)|;
      n <= |s.stack| && Boundary(Outer(locals, level), level, s.(ip := ip, stack := s.stack[..n]), Unwind(st,
        level + 1))
  {
    OuterSorted(locals, level);
    LeaveMatch(locals, |Outer(locals, level)|, level, s.stack, st.scopes);
    hide Match, Ordered;
  }

  lemma OuterSelf(locals: seq<Local>, level: nat)
    requires Settled(locals, level)
    ensures Outer(locals, level) == locals && Above(locals, level) == 0
  {
  }

  /** A slot that is being initialized pictures nothing yet. */
  lemma BeginInit(locals: seq<Local>, x: string, s: Config, st: State)
    requires Agree(locals, s, st)
    ensures Agree(locals + [Local(x, -1)], s, st)
  {
    var locals' := locals + [Local(x, -1)];
    assert Ordered(locals');
    hide Ordered;
    forall i | 0 <= i < |locals'| && locals'[i].level >= 0
      ensures SlotHolds(locals', s.stack, st.scopes, i)
    {
      assert SlotHolds(locals, s.stack, st.scopes, i);
    }
    ExtendMembers(locals, [Local(x, -1)], st.scopes);
  }

  lemma ExtendMembers(locals: seq<Local>, more: seq<Local>, scopes: Scopes)
    requires forall l, x :: 0 <= l < |scopes| && x in scopes[l] ==> Local(x, l) in locals
    ensures forall l, x :: 0 <= l < |scopes| && x in scopes[l] ==> Local(x, l) in locals + more
  {
  }

  /** The bindings after a declaration have their slots. */
  lemma DeclareMembers(locals: seq<Local>, level: nat, x: string, v: Value, scopes: Scopes)
    requires forall l, y :: 0 <= l < |scopes| && y in scopes[l] ==> Local(y, l) in locals + [Local(x, -1)]
    requires level < |scopes|
    ensures forall l, y :: 0 <= l < |scopes| && y in scopes[level := scopes[level][x := v]][l] ==>
      Local(y, l) in locals + [Local(x, level)]
  {
    var scopes' := scopes[level := scopes[level][x := v]];
    forall l, y | 0 <= l < |scopes'| && y in scopes'[l]
      ensures Local(y, l) in locals + [Local(x, level)]
    {
      if l == level && y == x {
        assert (locals + [Local(x, level)])[|locals|] == Local(y, l);
      } else {
        assert Local(y, l) in locals;
      }
    }
  }

  /** The value of the initializer becomes the slot of the new local. */
  lemma EndInit(locals: seq<Local>, level: nat, x: string, v: Value, s: Config, st: State)
    requires Agree(locals + [Local(x, -1)], s, st)
    requires |s.stack| == |locals| + 1 && Top(s, 0) == v
    requires |st.scopes| == level + 1 && Settled(locals, level) && level > 0
    requires !AlreadyDeclared(locals, x, level)
    ensures Boundary(locals + [Local(x, level)], level, s, Declare(x, v, st))
  {
    DeclareOrdered(locals, x, level);
    DeclareMembers(locals, level, x, v, st.scopes);
    DeclareSlots(locals, level, x, v, s.stack, st.scopes);
    hide Ordered, SlotHolds;
  }

  lemma DeclareSlots(locals: seq<Local>, level: nat, x: string, v: Value, stack: seq<Value>, scopes: Scopes)
    requires Match(locals + [Local(x, -1)], stack, scopes)
    requires |stack| == |locals| + 1 && stack[|locals|] == v && |scopes| == level + 1
    requires !AlreadyDeclared(locals, x, level)
    ensures forall i :: 0 <= i < |locals| + 1 && (locals + [Local(x, level)])[i].level >= 0 ==>
      SlotHolds(locals + [Local(x, level)], stack, scopes[level := scopes[level][x := v]], i)
  {
    hide Ordered;
    var before, after := locals + [Local(x, -1)], locals + [Local(x, level)];
    forall i | 0 <= i < |after| && after[i].level >= 0
      ensures SlotHolds(after, stack, scopes[level := scopes[level][x := v]], i)
    {
      if i < |locals| {
        assert before[i] == locals[i] == after[i];
        assert SlotHolds(before, stack, scopes, i);
        assert locals[i] != Local(x, level);
      }
    }
  }

  lemma DeclareOrdered(locals: seq<Local>, x: string, level: nat)
    requires Ordered(locals + [Local(x, -1)]) && Settled(locals, level) && !AlreadyDeclared(locals, x, level)
    ensures Ordered(locals + [Local(x, level)])
  {
    var before, locals' := locals + [Local(x, -1)], locals + [Local(x, level)];
    forall i, j | 0 <= i < j < |locals'|
      ensures locals'[i].level <= locals'[j].level && locals'[i] != locals'[j]
    {
      assert before[i] == locals[i];
      if j < |locals| { assert before[j] == locals[j]; }
    }
  }

  /** A global definition takes its value off the stack. */
  lemma DefineGlobalAgrees(locals: seq<Local>, x: string, v: Value, s: Config, st0: State, t: Config, st: State,
      ip: nat)
    requires Boundary(locals, 0, s, st0) && Agree(locals, t, st)
    requires |st.scopes| == 1
    requires |t.stack| == |s.stack| + 1 && Top(t, 0) == v && Kept(locals, s.stack, t.stack)
    ensures Boundary(locals, 0, Config(ip, t.stack[..|s.stack|], t.globals[x := v], t.output), Declare(x, v, st))
  {
    DropAgrees(locals, s, st0, t, st);
  }
}
