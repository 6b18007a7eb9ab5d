/** The machine's representation of variables: values on a stack, and for captured variables
    upvalues that point into the stack while the variable lives there and carry its value after.
    It is proved to behave like the cell machine. */
module Upvalues {
  import opened CellMachine
  import opened Values

  /** An open upvalue points at a stack slot, a closed one at its own `closed` field. */
  datatype Location = Open(slot: nat) | Inside

  class Upvalue {
    /** The cell this upvalue stands for. */
    ghost const cell: nat
    var location: Location
    var closed: Datum
    var next: Upvalue?

    constructor (slot: nat, ghost cell: nat)
      ensures location == Open(slot) && next == null && closed == Basic(Nil) && this.cell == cell
    {
      this.cell := cell;
      location, closed, next := Open(slot), Basic(Nil), null;
    }
  }

  datatype ClosureObject = ClosureObject(arity: nat, upvalues: seq<Upvalue>)

  // ----- the list of open upvalues -----

  /** The upvalue at position `i` of a list, or what follows the list. */
  function At(list: seq<Upvalue>, i: nat): Upvalue? {
    if i < |list| then list[i] else null
  }

  ghost function Members(list: seq<Upvalue>): set<Upvalue> {
    set u | u in list
  }

  ghost predicate Chained(list: seq<Upvalue>)
    reads Members(list)`next
  {
    forall i, j :: 0 <= i < |list| && j == i + 1 ==> list[i].next == At(list, j)
  }

  /** Strictly descending by slot, hence without duplicates. */
  ghost predicate Descending(list: seq<Upvalue>)
    reads Members(list)`location
  {
    && (forall i :: 0 <= i < |list| ==> list[i].location.Open?)
    && (forall i, j :: 0 <= i < j < |list| ==> list[i].location.slot > list[j].location.slot)
  }

  lemma DescendingDistinct(list: seq<Upvalue>)
    requires Descending(list)
    ensures forall i, j :: 0 <= i < j < |list| ==> list[i] != list[j]
  {
  }

  // ----- what an upvalue shows -----

  /** An open upvalue is in the list and stands for the cell of its slot; a closed one carries the
      value of a cell that no slot has. */
  ghost predicate Shows(u: Upvalue, c: nat, list: seq<Upvalue>, locals: seq<nat>, store: seq<Datum>)
    reads u`location, u`closed
  {
    && u.cell == c && c < |store|
    && match u.location
       case Open(slot) => u in list && slot < |locals| && locals[slot] == c
       case Inside => u !in list && c !in locals && u.closed == store[c]
  }

  ghost predicate Shared(shared: map<nat, Upvalue>, list: seq<Upvalue>, locals: seq<nat>, store: seq<Datum>)
    reads shared.Values`location, shared.Values`closed
  {
    && (forall u :: u in list ==> u.cell in shared && shared[u.cell] == u)
    && (forall c :: c in shared ==> Shows(shared[c], c, list, locals, store))
  }

  /** A new variable on the stack. */
  lemma SharedGrow(shared: map<nat, Upvalue>, list: seq<Upvalue>, locals: seq<nat>, store: seq<Datum>, v: Datum)
    requires Shared(shared, list, locals, store)
    ensures Shared(shared, list, locals + [|store|], store + [v])
  {
    forall c | c in shared
      ensures Shows(shared[c], c, list, locals + [|store|], store + [v])
    {
      assert Shows(shared[c], c, list, locals, store);
    }
  }

  /** Assigning to a variable that is on the stack. */
  lemma SharedAssign(shared: map<nat, Upvalue>, list: seq<Upvalue>, locals: seq<nat>, store: seq<Datum>,
      slot: nat, v: Datum)
    requires Shared(shared, list, locals, store) && slot < |locals| && locals[slot] < |store|
    ensures Shared(shared, list, locals, store[locals[slot] := v])
  {
    forall c | c in shared
      ensures Shows(shared[c], c, list, locals, store[locals[slot] := v])
    {
      assert Shows(shared[c], c, list, locals, store);
    }
  }

  /** Dropping slots that no upvalue points at. */
  lemma SharedDrop(shared: map<nat, Upvalue>, list: seq<Upvalue>, locals: seq<nat>, store: seq<Datum>, n: nat)
    requires Shared(shared, list, locals, store) && n <= |locals|
    requires forall u :: u in list && u.location.Open? ==> u.location.slot < n
    ensures Shared(shared, list, locals[..n], store)
  {
    forall c | c in shared
      ensures Shows(shared[c], c, list, locals[..n], store)
    {
      assert Shows(shared[c], c, list, locals, store);
    }
  }

  /** Two upvalues for one cell are the same upvalue; a captured variable on the stack has an open one. */
  lemma OpenIff(shared: map<nat, Upvalue>, list: seq<Upvalue>, locals: seq<nat>, store: seq<Datum>, slot: nat)
    requires Shared(shared, list, locals, store) && Distinct(locals, |store|) && slot < |locals| && Descending(list)
    ensures locals[slot] in shared <==> exists u :: u in list && u.location.slot == slot
    ensures locals[slot] in shared ==> shared[locals[slot]].location == Open(slot)
    ensures forall u :: u in list && u.location.slot == slot ==> shared.Values >= {u} && u.cell == locals[slot]
  {
    if locals[slot] in shared {
      assert Shows(shared[locals[slot]], locals[slot], list, locals, store);
    }
    forall u | u in list && u.location.slot == slot
      ensures shared.Values >= {u} && u.cell == locals[slot]
    {
      assert Shows(shared[u.cell], u.cell, list, locals, store);
    }
  }

  // ----- closures -----

  /** A closure's upvalues are those of the cells it has captured. */
  ghost predicate ClosuresOk(closures: seq<ClosureObject>, functions: seq<Function>, shared: map<nat, Upvalue>) {
    && |closures| == |functions|
    && forall i :: 0 <= i < |closures| ==> ClosureOk(closures[i], functions[i], shared)
  }

  ghost predicate ClosureOk(closure: ClosureObject, function_: Function, shared: map<nat, Upvalue>) {
    && closure.arity == function_.arity
    && UpvaluesOk(closure.upvalues, function_.cells, shared)
  }

  ghost predicate UpvaluesOk(upvalues: seq<Upvalue>, cells: seq<nat>, shared: map<nat, Upvalue>) {
    && |upvalues| == |cells|
    && forall k :: 0 <= k < |cells| ==> cells[k] in shared && upvalues[k] == shared[cells[k]]
  }

  // ----- inserting into the list -----

  ghost function Inserted(list: seq<Upvalue>, k: nat, u: Upvalue): seq<Upvalue>
    requires k <= |list|
  {
    list[..k] + [u] + list[k..]
  }

  lemma InsertedMembers(list: seq<Upvalue>, k: nat, u: Upvalue)
    requires k <= |list|
    ensures Members(Inserted(list, k, u)) == Members(list) + {u}
  {
    assert list == list[..k] + list[k..];
  }

  lemma InsertedElements(list: seq<Upvalue>, k: nat, u: Upvalue)
    requires k <= |list|
    ensures forall w :: w in Inserted(list, k, u) ==> w in list || w == u
  {
  }

  lemma InsertedDescending(list: seq<Upvalue>, k: nat, u: Upvalue)
    requires k <= |list| && Descending(list) && u.location.Open?
    requires forall i :: 0 <= i < k ==> list[i].location.slot > u.location.slot
    requires forall i :: k <= i < |list| ==> list[i].location.slot < u.location.slot
    ensures Descending(Inserted(list, k, u))
  {
  }

  /** Where an upvalue's slot is followed by the tail that was there before. */
  lemma InsertedAt(list: seq<Upvalue>, k: nat, u: Upvalue, i: nat)
    requires k <= |list| && i <= |list| + 1
    ensures At(Inserted(list, k, u), i) == if i < k then At(list, i) else if i == k then u else At(list, i - 1)
  {
  }

  /** Capturing a cell that had no upvalue. */
  lemma SharedInsert(shared: map<nat, Upvalue>, list: seq<Upvalue>, locals: seq<nat>, store: seq<Datum>,
      k: nat, u: Upvalue)
    requires Shared(shared, list, locals, store) && Distinct(locals, |store|)
    requires k <= |list| && u !in list && u.location.Open? && u.location.slot < |locals|
    requires u.cell == locals[u.location.slot] && u.cell !in shared
    ensures Shared(shared[u.cell := u], Inserted(list, k, u), locals, store)
  {
    InsertedMembers(list, k, u);
    var list', shared' := Inserted(list, k, u), shared[u.cell := u];
    forall c | c in shared'
      ensures Shows(shared'[c], c, list', locals, store)
    {
      if c != u.cell {
        assert Shows(shared[c], c, list, locals, store);
        assert shared[c] in list' ==> shared[c] in Members(list');
      }
      assert u in Members(list');
    }
    forall w | w in list'
      ensures w.cell in shared' && shared'[w.cell] == w
    {
      assert w in Members(list');
    }
  }

  class Vm {
    var stack: seq<Datum>
    var frames: seq<Frame>
    var closures: seq<ClosureObject>
    /** The open upvalues, linked through `next`, the highest slot first. */
    var open: Upvalue?
    ghost var list: seq<Upvalue>
    /** The upvalue of each captured cell, and the state of the cell machine. */
    ghost var shared: map<nat, Upvalue>
    ghost var spec: Cells

    ghost predicate ListOk()
      reads this`open, this`list, Members(list)`next, Members(list)`location
    {
      open == At(list, 0) && Chained(list) && Descending(list)
    }

    ghost predicate StackOk()
      reads this`stack, this`frames, this`spec
    {
      WellFormed(spec) && frames == spec.frames && stack == StackValues(spec)
    }

    ghost predicate Valid()
      reads this, Members(list), shared.Values
    {
      && StackOk() && ListOk()
      && Shared(shared, list, spec.locals, spec.store)
      && ClosuresOk(closures, spec.closures, shared)
      && shared.Keys <= Captured(spec.closures)
    }

    constructor ()
      ensures Valid() && spec == Cells([Closure(0)], [0], [Frame(0, 0)], [Function(0, [])]) && shared == map[]
    {
      stack, frames := [Closure(0)], [Frame(0, 0)];
      closures, open := [ClosureObject(0, [])], null;
      list, shared := [], map[];
      spec := Cells([Closure(0)], [0], [Frame(0, 0)], [Function(0, [])]);
    }

    // ----- the open-upvalue list -----

    /** Where a slot belongs in the list: after the upvalues of higher slots. */
    method FindPlace(slot: nat) returns (previous: Upvalue?, u: Upvalue?, ghost k: nat)
      requires ListOk()
      ensures k <= |list| && u == At(list, k) && previous == if k == 0 then null else list[k - 1]
      ensures forall i :: 0 <= i < k ==> list[i].location.slot > slot
      ensures forall i :: k <= i < |list| ==> list[i].location.slot <= slot
    {
      previous, u, k := null, open, 0;
      while u != null && u.location.slot > slot
        invariant k <= |list| && u == At(list, k) && previous == if k == 0 then null else list[k - 1]
        invariant forall i :: 0 <= i < k ==> list[i].location.slot > slot
        decreases |list| - k
      {
        previous := u;
        u := u.next;
        k := k + 1;
      }
    }

    /** Link a new upvalue in at position `k`. */
    method Insert(created: Upvalue, previous: Upvalue?, ghost k: nat)
      requires ListOk() && k <= |list| && previous == if k == 0 then null else list[k - 1]
      requires created !in list && created.location.Open? && created.next == At(list, k)
      requires forall i :: 0 <= i < k ==> list[i].location.slot > created.location.slot
      requires forall i :: k <= i < |list| ==> list[i].location.slot < created.location.slot
      modifies this`open, this`list, Members(list)`next
      ensures ListOk() && list == Inserted(old(list), k, created)
    {
      hide Descending;
      ghost var before := list;
      InsertedDescending(before, k, created);
      DescendingDistinct(before);
      InsertedMembers(before, k, created);
      if previous == null {
        open := created;
      } else {
        previous.next := created;
      }
      list := Inserted(before, k, created);
      InsertedAt(before, k, created, 0);
      Linked(before, k, created);
    }

    /** The upvalue for a slot: the one there is, or a new one inserted in order. */
    method Capture(slot: nat, ghost locals: seq<nat>, ghost store: seq<Datum>) returns (u: Upvalue)
      requires ListOk() && Shared(shared, list, locals, store) && Distinct(locals, |store|) && slot < |locals|
      modifies this`open, this`list, this`shared, Members(list)`next
      ensures ListOk() && Shared(shared, list, locals, store)
      ensures u.cell == locals[slot] && shared == old(shared)[locals[slot] := u]
      ensures locals[slot] in old(shared) ==> u == old(shared[locals[slot]]) && list == old(list)
      ensures locals[slot] !in old(shared) ==> fresh(u)
      ensures forall w :: w in list ==> w in old(list) || fresh(w)
    {
      hide Shared, Distinct, Descending, Chained;
      var previous, found, k := FindPlace(slot);
      OpenIff(shared, list, locals, store, slot);
      SlotsOpen(list);
      if found != null && found.location.slot == slot {
        u := found;
        SharedSame(shared, list, locals, store, u);
        return;
      }
      NotFound(list, slot, k);
      u := Create(slot, previous, found, k, locals, store);
    }

    method Create(slot: nat, previous: Upvalue?, found: Upvalue?, ghost k: nat,
        ghost locals: seq<nat>, ghost store: seq<Datum>) returns (u: Upvalue)
      requires ListOk() && Shared(shared, list, locals, store) && Distinct(locals, |store|) && slot < |locals|
      requires locals[slot] !in shared
      requires k <= |list| && found == At(list, k) && previous == if k == 0 then null else list[k - 1]
      requires forall i :: 0 <= i < k ==> list[i].location.Open? && list[i].location.slot > slot
      requires forall i :: k <= i < |list| ==> list[i].location.Open? && list[i].location.slot < slot
      modifies this`open, this`list, this`shared, Members(list)`next
      ensures ListOk() && Shared(shared, list, locals, store)
      ensures u.cell == locals[slot] && shared == old(shared)[locals[slot] := u] && fresh(u)
      ensures forall w :: w in list ==> w in old(list) || w == u
    {
      hide Shared, Distinct, Descending, Chained;
      u := new Upvalue(slot, locals[slot]);
      u.next := found;
      SharedInsert(shared, list, locals, store, k, u);
      InsertedElements(list, k, u);
      Insert(u, previous, k);
      shared := shared[locals[slot] := u];
    }

    /** Close the upvalue of the highest slot: it takes the value of its variable along. */
    method CloseFirst(ghost locals: seq<nat>, ghost store: seq<Datum>)
      requires open != null && ListOk() && Shared(shared, list, locals, store)
      requires Distinct(locals, |store|) && Contents(store, locals) <= stack
      modifies this`open, this`list, shared.Values`location, shared.Values`closed
      ensures |old(list)| > 0 && list == old(list)[1..] && ListOk()
      ensures old(list[0].location.Open? && list[0].location.slot < |locals|)
      ensures Shared(shared, list, locals[..old(list[0].location.slot)], store)
      ensures forall u :: u in list ==> u.location == old(u.location)
    {
      hide Descending, Distinct, Chained;
      ghost var before := list;
      var u := open;
      FirstHighest(shared, before, locals, store);
      SuffixOk(before);
      ghost var slot := u.location.slot;
      TopShown(locals, store, stack, slot);
      hide Shared;
      ghost var rest := before[1..];
      assert u !in Members(rest);
      u.closed := stack[u.location.slot];
      u.location := Inside;
      assert Descending(rest);
      assert Chained(rest);
      open := u.next;
      list := rest;
      SharedClosed(shared, list, locals[..slot], store, u);
    }

    /** Close every upvalue at or above a slot, from the front of the list. */
    method CloseFrom(last: nat, ghost locals: seq<nat>, ghost store: seq<Datum>)
      requires ListOk() && Shared(shared, list, locals, store) && last <= |locals|
      requires Distinct(locals, |store|) && Contents(store, locals) <= stack
      modifies this`open, this`list, shared.Values`location, shared.Values`closed
      ensures ListOk() && Shared(shared, list, locals[..last], store)
      ensures |list| <= |old(list)| && list == old(list)[|old(list)| - |list|..]
      ensures forall i :: 0 <= i < |old(list)| - |list| ==> old(list[i].location.Open? && list[i].location.slot >= last)
      ensures forall u :: u in list ==> u.location.Open? && u.location.slot < last
    {
      hide Shared, Distinct, Descending, Chained;
      ghost var h, n := |locals|, 0;
      assert locals[..h] == locals;
      SlotsOpen(list);
      while open != null && open.location.slot >= last
        invariant last <= h <= |locals| && n <= |old(list)| && list == old(list)[n..]
        invariant ListOk() && Shared(shared, list, locals[..h], store)
        invariant forall i :: 0 <= i < n ==> old(list[i].location.Open? && list[i].location.slot >= last)
        invariant forall u :: u in list ==> u.location == old(u.location)
        decreases |list|
      {
        PrefixOk(locals, store, h, stack);
        ghost var slot := open.location.slot;
        CloseFirst(locals[..h], store);
        assert locals[..h][..slot] == locals[..slot];
        h, n := slot, n + 1;
      }
      AllBelow(list, last);
      assert locals[..h][..last] == locals[..last];
      SharedDrop(shared, list, locals[..h], store, last);
    }

    // ----- instructions -----

    method Push(v: Datum)
      requires Valid() && Legal(spec, Op.Push(v))
      modifies this`stack, this`spec
      ensures Valid() && spec == Step(old(spec), Op.Push(v))
    {
      PushValue(v);
    }

    method PushValue(v: Datum)
      requires Valid() && (v.Closure? ==> v.id < |spec.closures|)
      modifies this`stack, this`spec
      ensures Valid() && spec == Grow(old(spec), v)
    {
      hide Shared, ClosuresOk, ListOk, Captured;
      SharedGrow(shared, list, spec.locals, spec.store, v);
      GrowWellFormed(spec, v);
      stack := stack + [v];
      spec := Grow(spec, v);
    }

    /** Pop a variable or a temporary no closure has captured. */
    method Pop()
      requires Valid() && Legal(spec, Op.Pop)
      modifies this`stack, this`spec
      ensures Valid() && spec == Step(old(spec), Op.Pop)
    {
      hide Shared, ClosuresOk, ListOk, Captured, Contents;
      NotCaptured(this);
      DropTop();
    }

    method DropTop()
      requires Valid() && Running(spec).base < |stack| - 1
      requires forall u :: u in list ==> u.location.Open? && u.location.slot < |stack| - 1
      modifies this`stack, this`spec
      ensures Valid() && spec == old(spec).(locals := old(spec).locals[..old(|stack|) - 1])
    {
      hide Shared, ClosuresOk, ListOk, Captured;
      var n := |stack| - 1;
      SharedDrop(shared, list, spec.locals, spec.store, n);
      DropWellFormed(spec, n);
      stack := stack[..n];
      spec := spec.(locals := spec.locals[..n]);
    }

    method GetLocal(slot: nat)
      requires Valid() && Legal(spec, Op.GetLocal(slot))
      modifies this`stack, this`spec
      ensures Valid() && spec == Step(old(spec), Op.GetLocal(slot))
    {
      PushValue(stack[frames[|frames| - 1].base + slot]);
    }

    method SetLocal(slot: nat)
      requires Valid() && Legal(spec, Op.SetLocal(slot))
      modifies this`stack, this`spec
      ensures Valid() && spec == Step(old(spec), Op.SetLocal(slot))
    {
      SetSlot(frames[|frames| - 1].base + slot, stack[|stack| - 1]);
    }

    method SetSlot(slot: nat, v: Datum)
      requires Valid() && slot < |stack| && (v.Closure? ==> v.id < |spec.closures|)
      modifies this`stack, this`spec
      ensures Valid() && spec == Store(old(spec), old(spec).locals[slot], v)
    {
      hide Shared, ClosuresOk, ListOk, Captured, Contents;
      SharedAssign(shared, list, spec.locals, spec.store, slot, v);
      StoreWellFormed(spec, spec.locals[slot], v);
      stack := stack[slot := v];
      spec := Store(spec, spec.locals[slot], v);
    }

    /** Reading an upvalue of the running closure. */
    method GetUpvalue(index: nat)
      requires Valid() && Legal(spec, Op.GetUpvalue(index))
      modifies this`stack, this`spec
      ensures Valid() && spec == Step(old(spec), Op.GetUpvalue(index))
    {
      var u := closures[frames[|frames| - 1].closure].upvalues[index];
      ReadsCell(this, u.cell);
      match u.location
      case Open(slot) => PushValue(stack[slot]);
      case Inside => PushValue(u.closed);
    }

    /** Assigning through an upvalue: to the stack slot it points at, or to the value it carries. */
    method SetUpvalue(index: nat)
      requires Valid() && Legal(spec, Op.SetUpvalue(index))
      modifies this`stack, this`spec, shared.Values`closed
      ensures Valid() && spec == Step(old(spec), Op.SetUpvalue(index))
    {
      var u := closures[frames[|frames| - 1].closure].upvalues[index];
      ReadsCell(this, u.cell);
      match u.location
      case Open(slot) => SetSlot(slot, stack[|stack| - 1]);
      case Inside => SetClosed(u, stack[|stack| - 1]);
    }

    method SetClosed(u: Upvalue, v: Datum)
      requires Valid() && (v.Closure? ==> v.id < |spec.closures|)
      requires u.cell in shared && shared[u.cell] == u && u.location.Inside? && u.cell < |spec.store|
      modifies this`spec, u`closed
      ensures Valid() && spec == Store(old(spec), u.cell, v)
    {
      hide Shared, ClosuresOk, ListOk, Captured, Contents;
      ReadsCell(this, u.cell);
      StoreWellFormed(spec, u.cell, v);
      OthersShow(shared, list, spec.locals, spec.store, u.cell, v);
      spec := Store(spec, u.cell, v);
      u.closed := v;
      SharedClosed(shared, list, spec.locals, spec.store, u);
    }

    /** Collect the upvalues of a new closure, whose own slot is already on the stack. */
    method CaptureAll(captures: seq<Capture>, ghost locals: seq<nat>, ghost store: seq<Datum>)
      returns (upvalues: seq<Upvalue>)
      requires WellFormed(spec) && frames == spec.frames && ClosuresOk(closures, spec.closures, shared)
      requires forall k :: 0 <= k < |captures| ==> CaptureInRange(spec, captures[k])
      requires locals == spec.locals + [|spec.store|] && Distinct(locals, |store|)
      requires ListOk() && Shared(shared, list, locals, store)
      modifies this`open, this`list, this`shared, Members(list)`next
      ensures ListOk() && Shared(shared, list, locals, store)
      ensures UpvaluesOk(upvalues, CapturedCells(spec, captures), shared)
      ensures Includes(shared, old(shared))
      ensures forall c :: c in shared && c !in old(shared) ==> fresh(shared[c]) && c in CapturedCells(spec, captures)
      ensures forall u :: u in list ==> u in old(list) || fresh(u)
    {
      hide Shared, ListOk, Distinct, ClosuresOk, WellFormed;
      upvalues := [];
      ghost var cells := CapturedCells(spec, captures);
      ghost var before := shared;
      while |upvalues| < |captures|
        invariant ListOk() && Shared(shared, list, locals, store)
        invariant |upvalues| <= |captures| && UpvaluesOk(upvalues, cells[..|upvalues|], shared)
        invariant Includes(shared, before)
        invariant forall c :: c in shared && c !in before ==> fresh(shared[c]) && c in cells
        invariant forall u :: u in list ==> u in old(list) || fresh(u)
      {
        var u := CaptureOne(captures[|upvalues|], locals, store, before);
        upvalues := upvalues + [u];
      }
    }

    method CaptureOne(x: Capture, ghost locals: seq<nat>, ghost store: seq<Datum>, ghost before: map<nat, Upvalue>)
      returns (u: Upvalue)
      requires WellFormed(spec) && frames == spec.frames && ClosuresOk(closures, spec.closures, before)
      requires CaptureInRange(spec, x) && Includes(shared, before)
      requires locals == spec.locals + [|spec.store|] && Distinct(locals, |store|)
      requires ListOk() && Shared(shared, list, locals, store)
      modifies this`open, this`list, this`shared, Members(list)`next
      ensures ListOk() && Shared(shared, list, locals, store)
      ensures var c := CapturedCell(spec, x);
        && shared == old(shared)[c := u]
        && (c in old(shared) ==> u == old(shared)[c])
        && (c !in old(shared) ==> fresh(u))
      ensures forall w :: w in list ==> w in old(list) || fresh(w)
    {
      hide Shared, ListOk, Distinct;
      var frame := frames[|frames| - 1];
      if x.isLocal {
        u := Capture(frame.base + x.index, locals, store);
      } else {
        u := closures[frame.closure].upvalues[x.index];
        assert ClosureOk(closures[frame.closure], spec.closures[frame.closure], before);
      }
    }

    method MakeClosure(arity: nat, captures: seq<Capture>)
      requires Valid() && Legal(spec, Op.MakeClosure(arity, captures))
      modifies this`stack, this`closures, this`open, this`list, this`shared, this`spec, Members(list)`next
      ensures Valid() && spec == Step(old(spec), Op.MakeClosure(arity, captures))
      ensures forall u :: u in shared.Values ==> u in old(shared.Values) || fresh(u)
    {
      hide Shared, ListOk, Captured, FunctionsOk, Contents, ValuesOk, FramesOk, Distinct;
      ghost var c, before := spec, shared;
      ghost var d := Grow(c, Closure(|closures|));
      SharedGrow(shared, list, c.locals, c.store, Closure(|closures|));
      ClosureWellFormed(c, arity, captures);
      stack := stack + [Closure(|closures|)];
      var upvalues := CaptureAll(captures, d.locals, d.store);
      ClosuresExtend(closures, c.closures, before, shared, ClosureObject(arity, upvalues),
        Function(arity, CapturedCells(c, captures)));
      CapturedExtend(c.closures, Function(arity, CapturedCells(c, captures)));
      closures := closures + [ClosureObject(arity, upvalues)];
      spec := Step(c, Op.MakeClosure(arity, captures));
    }

    /** Calling a closure: its frame starts at the callee's slot.  A failed call changes nothing. */
    method Call(argc: nat) returns (ok: bool)
      requires Valid() && Legal(spec, Op.Call(argc))
      modifies this`frames, this`spec
      ensures Valid() && ok == !old(Fails(spec, Op.Call(argc)))
      ensures spec == if ok then Step(old(spec), Op.Call(argc)) else old(spec)
    {
      hide Shared, ListOk, Captured, FunctionsOk;
      assert stack[|stack| - 1 - argc] == TopValue(spec, argc);
      match stack[|stack| - 1 - argc] {
        case Closure(id) =>
          assert ClosureOk(closures[id], spec.closures[id], shared);
          ok := closures[id].arity == argc && |frames| != FRAMES_MAX;
          if ok {
            CallWellFormed(spec, argc);
            frames := frames + [Frame(id, |stack| - argc - 1)];
            spec := Step(spec, Op.Call(argc));
          }
        case _ =>
          ok := false;
      }
    }

    /** End a captured variable's life on the stack. */
    method CloseUpvalue()
      requires Valid() && Legal(spec, Op.CloseUpvalue)
      modifies this`stack, this`open, this`list, this`spec, shared.Values`location, shared.Values`closed
      ensures Valid() && spec == Step(old(spec), Op.CloseUpvalue)
    {
      hide Shared, ListOk, Captured, ClosuresOk, Contents;
      var n := |stack| - 1;
      DropWellFormed(spec, n);
      CloseFrom(n, spec.locals, spec.store);
      stack := stack[..n];
      spec := spec.(locals := spec.locals[..n]);
    }

    /** Leave a function: close all its captured variables, and put the result in their place. */
    method Return()
      requires Valid() && Legal(spec, Op.Return)
      modifies this`stack, this`frames, this`open, this`list, this`spec
      modifies shared.Values`location, shared.Values`closed
      ensures Valid() && spec == Step(old(spec), Op.Return)
    {
      hide Shared, ListOk, Captured, ClosuresOk, Contents;
      var base, result := frames[|frames| - 1].base, stack[|stack| - 1];
      ReturnWellFormed(spec);
      TopIs(spec);
      CloseFrom(base, spec.locals, spec.store);
      SharedGrow(shared, list, spec.locals[..base], spec.store, result);
      stack := stack[..base] + [result];
      frames := frames[..|frames| - 1];
      spec := Step(spec, Op.Return);
    }

    method Execute(op: Op) returns (ok: bool)
      requires Valid() && Legal(spec, op)
      modifies this, shared.Values
      ensures Valid() && ok == !old(Fails(spec, op))
      ensures spec == if ok then Step(old(spec), op) else old(spec)
      ensures forall u :: u in shared.Values ==> u in old(shared.Values) || fresh(u)
    {
      hide Shared, ListOk, Captured, ClosuresOk, StackOk, WellFormed, Step, Legal;
      ok := true;
      MembersShared(this);
      match op {
        case Push(v) => Push(v);
        case Pop => Pop();
        case GetLocal(slot) => GetLocal(slot);
        case SetLocal(slot) => SetLocal(slot);
        case GetUpvalue(index) => GetUpvalue(index);
        case SetUpvalue(index) => SetUpvalue(index);
        case MakeClosure(arity, captures) => MakeClosure(arity, captures);
        case Call(argc) => ok := Call(argc);
        case CloseUpvalue => CloseUpvalue();
        case Return => Return();
      }
    }

    /** Over every run the stack and the upvalues show exactly the cells. */
    method Run(ops: seq<Op>) returns (ok: bool)
      requires Valid() && LegalRun(spec, ops)
      modifies this, shared.Values
      ensures Valid() && (spec, ok) == CellMachine.Run(old(spec), ops)
      ensures stack == StackValues(CellMachine.Run(old(spec), ops).0)
      ensures forall c :: c in shared ==>
        c < |spec.store| && (shared[c].location.Open? ==> shared[c].location.slot < |stack|)
        && Read(stack, shared[c]) == spec.store[c]
      ensures forall u :: u in shared.Values ==> u in old(shared.Values) || fresh(u)
    {
      hide Shared, ListOk, Captured, ClosuresOk, WellFormed, Step, Legal;
      ok := true;
      ghost var all := CellMachine.Run(spec, ops);
      var i := 0;
      while i < |ops|
        invariant i <= |ops| && Valid()
        invariant ok ==> LegalRun(spec, ops[i..]) && CellMachine.Run(spec, ops[i..]) == all
        invariant !ok ==> i == |ops| && all == (spec, false)
        invariant forall u :: u in shared.Values ==> u in old(shared.Values) || fresh(u)
      {
        assert ops[i..][0] == ops[i] && ops[i..][1..] == ops[i + 1..];
        ok := Execute(ops[i]);
        i := if ok then i + 1 else |ops|;
      }
      AllRead(this);
    }
  }

  lemma PrefixOk(locals: seq<nat>, store: seq<Datum>, n: nat, stack: seq<Datum>)
    requires Distinct(locals, |store|) && n <= |locals| && Contents(store, locals) <= stack
    ensures Distinct(locals[..n], |store|) && Contents(store, locals[..n]) <= stack
  {
    assert Distinct(locals[..n], |store|);
  }

  lemma AllBelow(list: seq<Upvalue>, last: nat)
    requires Descending(list)
    requires list != [] && list[0].location.Open? ==> list[0].location.slot < last
    ensures forall u :: u in list ==> u.location.Open? && u.location.slot < last
  {
  }

  /** Reading through an upvalue, open or closed, gives the value of its cell. */
  lemma ReadsCell(m: Vm, c: nat)
    requires m.Valid() && c in m.shared
    ensures c < |m.spec.store|
    ensures var u := m.shared[c];
      && u.cell == c
      && (u.location.Open? ==>
           u in m.list && u.location.slot < |m.stack| && m.spec.locals[u.location.slot] == c
           && m.stack[u.location.slot] == m.spec.store[c])
      && (u.location.Inside? ==> u !in m.list && c !in m.spec.locals && u.closed == m.spec.store[c])
    ensures m.spec.store[c].Closure? ==> m.spec.store[c].id < |m.spec.closures|
  {
    hide ClosuresOk, Captured, Vm.ListOk;
    assert Shows(m.shared[c], c, m.list, m.spec.locals, m.spec.store);
  }

  /** A slot no closure has captured is not shown by any open upvalue. */
  lemma NotCaptured(m: Vm)
    requires m.Valid() && |m.stack| > 0
    requires m.spec.locals[|m.stack| - 1] !in Captured(m.spec.closures)
    ensures forall u :: u in m.list ==> u.location.Open? && u.location.slot < |m.stack| - 1
  {
    hide ClosuresOk, Captured, Contents;
    SlotsOpen(m.list);
    forall u | u in m.list
      ensures u.location.slot < |m.stack| - 1
    {
      assert Shows(u, u.cell, m.list, m.spec.locals, m.spec.store);
    }
  }

  lemma SlotsOpen(list: seq<Upvalue>)
    requires Descending(list)
    ensures forall u :: u in list ==> u.location.Open?
  {
  }

  lemma SharedSame(shared: map<nat, Upvalue>, list: seq<Upvalue>, locals: seq<nat>, store: seq<Datum>, u: Upvalue)
    requires Shared(shared, list, locals, store) && u in list
    ensures u.cell in shared && shared[u.cell] == u && shared[u.cell := u] == shared
  {
  }

  lemma NotFound(list: seq<Upvalue>, slot: nat, k: nat)
    requires Descending(list) && k <= |list|
    requires forall i :: 0 <= i < k ==> list[i].location.slot > slot
    requires forall i :: k <= i < |list| ==> list[i].location.slot <= slot
    requires k < |list| ==> list[k].location.slot != slot
    ensures forall u :: u in list ==> u.location.slot != slot
    ensures forall i :: k <= i < |list| ==> list[i].location.slot < slot
  {
  }

  /** A chain is whole again once the two links around the new upvalue are set. */
  lemma Linked(before: seq<Upvalue>, k: nat, created: Upvalue)
    requires k <= |before| && created.next == At(before, k)
    requires forall i, j :: 0 <= i < |before| && j == i + 1 && j != k ==> before[i].next == At(before, j)
    requires k > 0 ==> before[k - 1].next == created
    ensures Chained(Inserted(before, k, created))
  {
    var r := Inserted(before, k, created);
    forall i, j | 0 <= i < |r| && j == i + 1
      ensures r[i].next == At(r, j)
    {
      InsertedAt(before, k, created, i);
      InsertedAt(before, k, created, j);
    }
  }

  /** The first upvalue of the list has the highest slot, so all others show a variable below it. */
  lemma FirstHighest(shared: map<nat, Upvalue>, list: seq<Upvalue>, locals: seq<nat>, store: seq<Datum>)
    requires Shared(shared, list, locals, store) && Descending(list) && list != []
    ensures list[0].location.Open? && list[0].location.slot < |locals|
    ensures locals[list[0].location.slot] == list[0].cell && list[0].cell < |store|
    ensures list[0].cell in shared && shared[list[0].cell] == list[0]
    ensures forall c :: c in shared && c != list[0].cell ==>
      shared[c] != list[0] && Shows(shared[c], c, list[1..], locals[..list[0].location.slot], store)
    ensures forall u :: u in list[1..] ==> u.cell in shared && shared[u.cell] == u && u != list[0]
  {
    var u := list[0];
    assert Shows(u, u.cell, list, locals, store);
    forall c | c in shared && c != u.cell
      ensures shared[c] != u && Shows(shared[c], c, list[1..], locals[..u.location.slot], store)
    {
      assert Shows(shared[c], c, list, locals, store);
      assert Shows(shared[c], c, list[1..], locals[..u.location.slot], store);
    }
    DescendingDistinct(list);
  }

  lemma SuffixOk(list: seq<Upvalue>)
    requires Descending(list) && Chained(list) && list != []
    ensures Descending(list[1..]) && Chained(list[1..]) && list[0].next == At(list[1..], 0)
    ensures list[0] !in list[1..]
  {
    DescendingDistinct(list);
    var rest := list[1..];
    assert list[0].next == At(list, 1);
    forall i, j | 0 <= i < |rest| && j == i + 1
      ensures rest[i].next == At(rest, j)
    {
      assert list[j].next == At(list, j + 1);
    }
  }

  lemma TopShown(locals: seq<nat>, store: seq<Datum>, stack: seq<Datum>, slot: nat)
    requires Distinct(locals, |store|) && Contents(store, locals) <= stack && slot < |locals|
    ensures locals[slot] !in locals[..slot]
    ensures slot < |stack| && stack[slot] == store[locals[slot]]
  {
  }

  lemma SharedClosed(shared: map<nat, Upvalue>, list: seq<Upvalue>, locals: seq<nat>, store: seq<Datum>, u: Upvalue)
    requires u.cell in shared && shared[u.cell] == u && u.location == Inside && u !in list
    requires u.cell < |store| && u.cell !in locals && u.closed == store[u.cell]
    requires forall c :: c in shared && c != u.cell ==> Shows(shared[c], c, list, locals, store)
    requires forall w :: w in list ==> w.cell in shared && shared[w.cell] == w
    ensures Shared(shared, list, locals, store)
  {
  }

  /** Assigning to a cell whose upvalue is closed leaves what the other upvalues show. */
  lemma OthersShow(shared: map<nat, Upvalue>, list: seq<Upvalue>, locals: seq<nat>, store: seq<Datum>, cell: nat,
      v: Datum)
    requires Shared(shared, list, locals, store) && cell in shared && cell < |store|
    ensures forall c :: c in shared && c != cell ==>
      shared[c] != shared[cell] && Shows(shared[c], c, list, locals, store[cell := v])
    ensures forall u :: u in list ==> u.cell in shared && shared[u.cell] == u
  {
    assert Shows(shared[cell], cell, list, locals, store);
    forall c | c in shared && c != cell
      ensures shared[c] != shared[cell] && Shows(shared[c], c, list, locals, store[cell := v])
    {
      assert Shows(shared[c], c, list, locals, store);
    }
  }

  ghost predicate Includes(shared: map<nat, Upvalue>, before: map<nat, Upvalue>) {
    forall c :: c in before ==> c in shared && shared[c] == before[c]
  }

  lemma ClosuresExtend(closures: seq<ClosureObject>, functions: seq<Function>, before: map<nat, Upvalue>,
      shared: map<nat, Upvalue>, closure: ClosureObject, function_: Function)
    requires ClosuresOk(closures, functions, before) && Includes(shared, before)
    requires ClosureOk(closure, function_, shared)
    ensures ClosuresOk(closures + [closure], functions + [function_], shared)
  {
    forall i | 0 <= i <= |closures|
      ensures ClosureOk((closures + [closure])[i], (functions + [function_])[i], shared)
    {
      assert i < |closures| ==> ClosureOk(closures[i], functions[i], before);
    }
  }

  lemma CapturedExtend(functions: seq<Function>, function_: Function)
    ensures Captured(functions) <= Captured(functions + [function_])
    ensures forall c :: c in function_.cells ==> c in Captured(functions + [function_])
  {
    var all := functions + [function_];
    forall c | c in Captured(functions)
      ensures c in Captured(all)
    {
      var i, k :| 0 <= i < |functions| && 0 <= k < |functions[i].cells| && functions[i].cells[k] == c;
      assert all[i].cells[k] == c;
    }
    forall c | c in function_.cells
      ensures c in Captured(all)
    {
      var k :| 0 <= k < |function_.cells| && function_.cells[k] == c;
      assert all[|functions|].cells[k] == c;
    }
  }

  lemma TopIs(c: Cells)
    requires WellFormed(c) && |c.locals| > 0
    ensures StackValues(c)[|c.locals| - 1] == TopValue(c, 0)
  {
  }

  /** What reading through an upvalue gives. */
  function Read(stack: seq<Datum>, u: Upvalue): Datum
    requires u.location.Open? ==> u.location.slot < |stack|
    reads u`location, u`closed
  {
    match u.location
    case Open(slot) => stack[slot]
    case Inside => u.closed
  }

  lemma MembersShared(m: Vm)
    requires m.Valid()
    ensures Members(m.list) <= m.shared.Values
  {
    hide ClosuresOk, Captured, Vm.ListOk, Vm.StackOk;
  }

  lemma AllRead(m: Vm)
    requires m.Valid()
    ensures forall c :: c in m.shared ==>
      c < |m.spec.store| && (m.shared[c].location.Open? ==> m.shared[c].location.slot < |m.stack|)
      && Read(m.stack, m.shared[c]) == m.spec.store[c]
  {
    forall c | c in m.shared
      ensures c < |m.spec.store| && (m.shared[c].location.Open? ==> m.shared[c].location.slot < |m.stack|)
        && Read(m.stack, m.shared[c]) == m.spec.store[c]
    {
      ReadsCell(m, c);
    }
  }
}
