/** The mark-sweep collector: the gray worklist, tracing, and the sweep that unlinks in place. */
module Gc {
  import opened Reachability

  /** A machine value: a reference to an object, or something the collector does not follow. */
  datatype Value = Immediate(bits: int) | Ref(o: Obj)

  datatype Entry = Entry(key: Value, value: Value)

  /** Where the variable of an upvalue is. */
  datatype Location = OnStack(index: nat) | Inside

  datatype Payload =
    | BoundMethod(receiver: Value, method_: Obj)
    | Class(name: Obj, methods: seq<Entry>)
    | Instance(klass: Obj, fields: seq<Entry>)
    | Upvalue(closed: Value, location: Location)
    | Function(name_: Obj?, constants: seq<Value>)
    | Closure(function_: Obj, upvalues: seq<Obj?>)
    | Table(entries: seq<Entry>)
    | Native
    | Str(data: string)

  class Obj {
    var next: Obj?
    var marked: bool
    var payload: Payload

    constructor (p: Payload)
      ensures payload == p && !marked && next == null
    {
      payload, marked, next := p, false, null;
    }
  }

  // ----- what refers to what -----

  function ValueRefs(v: Value): set<Obj> {
    if v.Ref? then {v.o} else {}
  }

  function ObjectRefs(o: Obj?): set<Obj> {
    if o == null then {} else {o}
  }

  function ValuesRefs(vs: seq<Value>): set<Obj> {
    set v | v in vs && v.Ref? :: v.o
  }

  function ObjectsRefs(os: seq<Obj?>): set<Obj> {
    set o: Obj | o in os
  }

  function EntriesRefs(es: seq<Entry>): set<Obj> {
    (set e | e in es && e.key.Ref? :: e.key.o) + (set e | e in es && e.value.Ref? :: e.value.o)
  }

  /** The objects an object keeps alive.  An upvalue keeps what it has closed over; the variable of
      an open upvalue is on the stack. */
  function Children(p: Payload): set<Obj> {
    match p
    case BoundMethod(r, m) => ValueRefs(r) + {m}
    case Class(n, ms) => {n} + EntriesRefs(ms)
    case Instance(k, fs) => {k} + EntriesRefs(fs)
    case Upvalue(c, _) => ValueRefs(c)
    case Function(n, cs) => ObjectRefs(n) + ValuesRefs(cs)
    case Closure(f, us) => {f} + ObjectsRefs(us)
    case Table(es) => EntriesRefs(es)
    case Native => {}
    case Str(_) => {}
  }

  /** An upvalue whose variable is still on the stack. */
  predicate IsOpen(p: Payload) {
    p.Upvalue? && p.location.OnStack?
  }

  function Slot(p: Payload): nat
    requires IsOpen(p)
  {
    p.location.index
  }

  /** The open upvalues among `objs` are exactly those of the list, with distinct slots below `top`, the highest
      first. */
  ghost predicate OpenOk(open: seq<Obj>, objs: set<Obj>, top: nat)
    reads objs`payload
  {
    && (forall u :: u in open ==> u in objs && IsOpen(u.payload) && Slot(u.payload) < top)
    && (forall j, k :: 0 <= j < k < |open| ==> Above(open[j], open[k], objs))
    && (forall o :: o in objs && IsOpen(o.payload) ==> o in open)
  }

  ghost predicate Above(u: Obj, v: Obj, objs: set<Obj>)
    reads objs`payload
  {
    u in objs && v in objs && IsOpen(u.payload) && IsOpen(v.payload) && Slot(u.payload) > Slot(v.payload)
  }

  /** Fewer objects, or a higher stack, but the same list. */
  lemma OpenKept(open: seq<Obj>, objs: set<Obj>, top: nat, less: set<Obj>, top': nat)
    requires OpenOk(open, objs, top) && less <= objs && ObjectsRefs(open) <= less && top <= top'
    ensures OpenOk(open, less, top')
  {
    forall u | u in open
      ensures u in less
    {
      assert u in ObjectsRefs(open);
    }
    forall j, k | 0 <= j < k < |open|
      ensures Above(open[j], open[k], less)
    {
      assert Above(open[j], open[k], objs);
    }
  }

  /** A lower stack, if the first upvalue of the list is below its top. */
  lemma OpenBelow(open: seq<Obj>, objs: set<Obj>, top: nat, n: nat)
    requires OpenOk(open, objs, top)
    requires open != [] ==> open[0] in objs && IsOpen(open[0].payload) && Slot(open[0].payload) < n
    ensures OpenOk(open, objs, n)
  {
    forall u | u in open
      ensures Slot(u.payload) < n
    {
      var k :| 0 <= k < |open| && open[k] == u;
      if k > 0 { assert Above(open[0], open[k], objs); }
    }
  }

  /** A new upvalue, put in where its slot belongs. */
  lemma OpenInsert(open: seq<Obj>, objs: set<Obj>, top: nat, u: Obj, i: nat, after: seq<Obj>)
    requires OpenOk(open, objs, top) && u !in objs && LinkedIn(open, i, u, after)
    requires IsOpen(u.payload) && Slot(u.payload) < top
    requires forall k :: 0 <= k < |open| ==> open[k] in objs && IsOpen(open[k].payload)
    requires forall k :: 0 <= k < i ==> Slot(open[k].payload) > Slot(u.payload)
    requires i < |open| ==> Slot(open[i].payload) < Slot(u.payload)
    ensures OpenOk(after, objs + {u}, top)
  {
    var more := objs + {u};
    forall j, k | 0 <= j < k < |after|
      ensures Above(after[j], after[k], more)
    {
      var j', k' := if j < i then j else j - 1, if k < i then k else k - 1;
      if j != i && k != i {
        assert Above(open[j'], open[k'], objs);
      } else if j == i && k' > i {
        assert Above(open[i], open[k'], objs);
      }
    }
    LinkedMembers(open, i, u, after);
  }

  lemma LinkedMembers(before: seq<Obj>, i: nat, u: Obj, after: seq<Obj>)
    requires LinkedIn(before, i, u, after)
    ensures forall o :: o in after <==> o in before || o == u
  {
    assert before == before[..i] + before[i..];
  }

  /** An object more that is no open upvalue. */
  lemma OpenMore(open: seq<Obj>, objs: set<Obj>, top: nat, o: Obj)
    requires OpenOk(open, objs, top) && !IsOpen(o.payload)
    ensures OpenOk(open, objs + {o}, top)
  {
    forall j, k | 0 <= j < k < |open|
      ensures Above(open[j], open[k], objs + {o})
    {
      assert Above(open[j], open[k], objs);
    }
  }

  lemma OpenMembers(open: seq<Obj>, objs: set<Obj>, top: nat)
    requires OpenOk(open, objs, top)
    ensures ObjectsRefs(open) <= objs
    ensures forall k :: 0 <= k < |open| ==>
      open[k] in objs && IsOpen(open[k].payload) && Slot(open[k].payload) < top
  {
  }

  lemma DistinctOpen(open: seq<Obj>, objs: set<Obj>, top: nat)
    requires OpenOk(open, objs, top)
    ensures Distinct(open)
  {
    forall j, k | 0 <= j < k < |open|
      ensures open[j] != open[k]
    {
      assert Above(open[j], open[k], objs);
    }
  }

  lemma LinkedRefs(before: seq<Obj>, i: nat, u: Obj, after: seq<Obj>)
    requires LinkedIn(before, i, u, after)
    ensures ObjectsRefs(after) == ObjectsRefs(before) + {u}
  {
    assert before == before[..i] + before[i..];
  }

  lemma ClosedOver(p: Payload, v: Value)
    requires p.Upvalue?
    ensures Children(Upvalue(v, Inside)) == ValueRefs(v)
  {
  }

  /** The list without its first upvalue, among the other objects. */
  lemma OpenTail(open: seq<Obj>, objs: set<Obj>, top: nat)
    requires OpenOk(open, objs, top) && open != []
    ensures OpenOk(open[1..], objs - {open[0]}, top)
  {
    var rest, less := open[1..], objs - {open[0]};
    DistinctOpen(open, objs, top);
    forall j, k | 0 <= j < k < |rest|
      ensures Above(rest[j], rest[k], less)
    {
      assert Above(open[j + 1], open[k + 1], objs);
    }
    forall u | u in rest
      ensures u in less
    {
      var k :| 0 <= k < |rest| && rest[k] == u;
      assert open[k + 1] == u;
    }
  }

  /** The members of a list that lie in `s`, in their order. */
  ghost function Filter(list: seq<Obj>, s: set<Obj>): seq<Obj> {
    if list == [] then []
    else Filter(list[..|list| - 1], s) + if list[|list| - 1] in s then [list[|list| - 1]] else []
  }

  ghost predicate Distinct(list: seq<Obj>) {
    forall i, j :: 0 <= i < j < |list| ==> list[i] != list[j]
  }

  class Collector {
    /** The list of all objects, linked through `next`. */
    var objects: Obj?
    ghost var list: seq<Obj>
    var gray: seq<Obj>

    // the roots
    var stack: seq<Value>
    var frames: seq<Obj>
    var openUpvalues: seq<Obj>
    var globals: seq<Entry>
    var strings: seq<Entry>
    var compilers: seq<Obj>
    var initString: Obj?

    constructor ()
      ensures Valid() && list == [] && gray == [] && stack == [] && openUpvalues == []
    {
      objects, list, gray := null, [], [];
      stack, frames, openUpvalues, globals, strings, compilers, initString := [], [], [], [], [], [], null;
    }

    ghost function Heap(): set<Obj>
      reads this`list
    {
      set o | o in list
    }

    ghost predicate Linked()
      reads this`objects, this`list, Heap()`next
    {
      && Distinct(list)
      && objects == (if list == [] then null else list[0])
      && Chain(list, null)
    }

    ghost function Roots(): set<Obj>
      reads this`stack, this`frames, this`openUpvalues, this`globals, this`strings, this`compilers, this`initString
    {
      MachineRoots() + OtherRoots()
    }

    ghost function Edges(): Graph<Obj>
      reads this`list, Heap()`payload
    {
      map o | o in Heap() :: Children(o.payload)
    }

    /** No dangling references, the marked objects are exactly the gray ones, each once, and the open upvalues
        are in order. */
    ghost predicate Valid()
      reads this, Heap()
    {
      && Linked() && RootsIn() && Traced() && GrayOk()
      && OpenOk(openUpvalues, Heap(), |stack|)
    }

    ghost predicate RootsIn()
      reads this`list, this`stack, this`frames, this`openUpvalues, this`globals, this`strings, this`compilers,
        this`initString
    {
      Roots() <= Heap()
    }

    ghost predicate Traced()
      reads this`list, Heap()`payload
    {
      forall o :: o in Heap() ==> Children(o.payload) <= Heap()
    }

    ghost predicate GrayOk()
      reads this`gray, this`list, Heap()`marked
    {
      Distinct(gray) && Marked() == ObjectsRefs(gray)
    }

    ghost function Marked(): set<Obj>
      reads this`list, Heap()`marked
    {
      set o | o in Heap() && o.marked
    }

    // ----- marking -----

    /** Objects not marked before are marked and join the gray stack. */
    method MarkObject(o: Obj?)
      requires Distinct(gray) && ObjectsRefs(gray) <= Marked() && ObjectRefs(o) <= Heap()
      modifies this`gray, Heap()`marked
      ensures Distinct(gray) && old(gray) <= gray
      ensures Marked() == old(Marked()) + ObjectRefs(o)
      ensures ObjectsRefs(gray) == old(ObjectsRefs(gray)) + (ObjectRefs(o) - old(Marked()))
    {
      if o == null || o.marked { return; }
      o.marked := true;
      gray := gray + [o];
    }

    method MarkValue(v: Value)
      requires Distinct(gray) && ObjectsRefs(gray) <= Marked() && ValueRefs(v) <= Heap()
      modifies this`gray, Heap()`marked
      ensures Distinct(gray) && old(gray) <= gray
      ensures Marked() == old(Marked()) + ValueRefs(v)
      ensures ObjectsRefs(gray) == old(ObjectsRefs(gray)) + (ValueRefs(v) - old(Marked()))
    {
      if v.Ref? { MarkObject(v.o); }
    }

    method MarkValues(vs: seq<Value>)
      requires Distinct(gray) && ObjectsRefs(gray) <= Marked() && ValuesRefs(vs) <= Heap()
      modifies this`gray, Heap()`marked
      ensures Distinct(gray) && old(gray) <= gray
      ensures Marked() == old(Marked()) + ValuesRefs(vs)
      ensures ObjectsRefs(gray) == old(ObjectsRefs(gray)) + (ValuesRefs(vs) - old(Marked()))
    {
      for i := 0 to |vs|
        invariant Distinct(gray) && old(gray) <= gray
        invariant Marked() == old(Marked()) + ValuesRefs(vs[..i])
        invariant ObjectsRefs(gray) == old(ObjectsRefs(gray)) + (ValuesRefs(vs[..i]) - old(Marked()))
      {
        ValuesNext(vs, i);
        MarkValue(vs[i]);
      }
      assert vs[..|vs|] == vs;
    }

    method MarkObjects(os: seq<Obj?>)
      requires Distinct(gray) && ObjectsRefs(gray) <= Marked() && ObjectsRefs(os) <= Heap()
      modifies this`gray, Heap()`marked
      ensures Distinct(gray) && old(gray) <= gray
      ensures Marked() == old(Marked()) + ObjectsRefs(os)
      ensures ObjectsRefs(gray) == old(ObjectsRefs(gray)) + (ObjectsRefs(os) - old(Marked()))
    {
      for i := 0 to |os|
        invariant Distinct(gray) && old(gray) <= gray
        invariant Marked() == old(Marked()) + ObjectsRefs(os[..i])
        invariant ObjectsRefs(gray) == old(ObjectsRefs(gray)) + (ObjectsRefs(os[..i]) - old(Marked()))
      {
        ObjectsNext(os, i);
        MarkObject(os[i]);
      }
      assert os[..|os|] == os;
    }

    method MarkTable(es: seq<Entry>)
      requires Distinct(gray) && ObjectsRefs(gray) <= Marked() && EntriesRefs(es) <= Heap()
      modifies this`gray, Heap()`marked
      ensures Distinct(gray) && old(gray) <= gray
      ensures Marked() == old(Marked()) + EntriesRefs(es)
      ensures ObjectsRefs(gray) == old(ObjectsRefs(gray)) + (EntriesRefs(es) - old(Marked()))
    {
      for i := 0 to |es|
        invariant Distinct(gray) && old(gray) <= gray
        invariant Marked() == old(Marked()) + EntriesRefs(es[..i])
        invariant ObjectsRefs(gray) == old(ObjectsRefs(gray)) + (EntriesRefs(es[..i]) - old(Marked()))
      {
        EntriesNext(es, i);
        MarkValue(es[i].key);
        MarkValue(es[i].value);
      }
      assert es[..|es|] == es;
    }

    /** Mark what one object refers to. */
    method Blacken(o: Obj)
      requires Distinct(gray) && ObjectsRefs(gray) <= Marked() && Children(o.payload) <= Heap()
      modifies this`gray, Heap()`marked
      ensures Distinct(gray) && old(gray) <= gray
      ensures Marked() == old(Marked()) + Children(o.payload)
      ensures ObjectsRefs(gray) == old(ObjectsRefs(gray)) + (Children(o.payload) - old(Marked()))
    {
      match o.payload {
        case BoundMethod(receiver, m) =>
          MarkValue(receiver);
          MarkObject(m);
        case Class(name, methods) =>
          MarkObject(name);
          MarkTable(methods);
        case Instance(klass, fields) =>
          MarkObject(klass);
          MarkTable(fields);
        case Upvalue(closed, _) => MarkValue(closed);
        case Function(name, constants) =>
          MarkObject(name);
          MarkValues(constants);
        case Closure(function_, upvalues) =>
          MarkObject(function_);
          MarkObjects(upvalues);
        case Table(entries) => MarkTable(entries);
        case Native =>
        case Str(_) =>
      }
    }

    method MarkRoots()
      requires Distinct(gray) && ObjectsRefs(gray) <= Marked() && Roots() <= Heap()
      modifies this`gray, Heap()`marked
      ensures Distinct(gray) && old(gray) <= gray
      ensures Marked() == old(Marked()) + Roots()
      ensures ObjectsRefs(gray) == old(ObjectsRefs(gray)) + (Roots() - old(Marked()))
    {
      hide EntriesRefs, MachineRoots, OtherRoots;
      MarkMachine();
      MarkOthers();
    }

    ghost function OtherRoots(): set<Obj>
      reads this`globals, this`strings, this`compilers, this`initString
    {
      EntriesRefs(globals) + EntriesRefs(strings) + ObjectsRefs(compilers) + ObjectRefs(initString)
    }

    /** The global variables, the interned strings, the functions being compiled and the name of
        initializers. */
    method MarkOthers()
      requires Distinct(gray) && ObjectsRefs(gray) <= Marked() && OtherRoots() <= Heap()
      modifies this`gray, Heap()`marked
      ensures Distinct(gray) && old(gray) <= gray
      ensures Marked() == old(Marked()) + OtherRoots()
      ensures ObjectsRefs(gray) == old(ObjectsRefs(gray)) + (OtherRoots() - old(Marked()))
    {
      hide EntriesRefs;
      MarkTable(globals);
      MarkTable(strings);
      MarkObjects(compilers);
      MarkObject(initString);
    }

    ghost function MachineRoots(): set<Obj>
      reads this`stack, this`frames, this`openUpvalues
    {
      ValuesRefs(stack) + ObjectsRefs(frames) + ObjectsRefs(openUpvalues)
    }

    method MarkMachine()
      requires Distinct(gray) && ObjectsRefs(gray) <= Marked() && MachineRoots() <= Heap()
      modifies this`gray, Heap()`marked
      ensures Distinct(gray) && old(gray) <= gray
      ensures Marked() == old(Marked()) + MachineRoots()
      ensures ObjectsRefs(gray) == old(ObjectsRefs(gray)) + (MachineRoots() - old(Marked()))
    {
      hide ValuesRefs;
      MarkValues(stack);
      MarkObjects(frames);
      MarkObjects(openUpvalues);
    }

    /** Marked objects that are not gray have only marked children. */
    ghost predicate Blackened()
      reads this, Heap()
    {
      forall o :: o in Marked() && o !in gray ==> Children(o.payload) <= Marked()
    }

    /** Everything marked has been reached from `seeds`. */
    ghost predicate OnlyReached(g: Graph<Obj>, seeds: set<Obj>)
      reads this, Heap()
    {
      forall o :: o in Marked() ==> Reaches(g, seeds, o)
    }

    /** The worklist: at its end the marked objects are closed under references. */
    method TraceReferences(ghost seeds: set<Obj>)
      requires Distinct(gray) && ObjectsRefs(gray) <= Marked()
      requires forall o :: o in Heap() ==> Children(o.payload) <= Heap()
      requires seeds <= Marked() && Blackened() && OnlyReached(Edges(), seeds)
      modifies this`gray, Heap()`marked
      ensures gray == []
      ensures seeds <= Marked() && Closed(Edges(), Marked()) && OnlyReached(Edges(), seeds)
    {
      ghost var g := Edges();
      while |gray| > 0
        invariant Distinct(gray) && ObjectsRefs(gray) <= Marked()
        invariant seeds <= Marked() && Blackened() && OnlyReached(g, seeds) && Edges() == g
        decreases Heap() - Marked(), |gray|
      {
        TraceOne(g, seeds);
      }
    }

    /** One turn of the worklist: either an object gets marked or the worklist shrinks. */
    method TraceOne(ghost g: Graph<Obj>, ghost seeds: set<Obj>)
      requires |gray| > 0 && Distinct(gray) && ObjectsRefs(gray) <= Marked()
      requires forall o :: o in Heap() ==> Children(o.payload) <= Heap()
      requires seeds <= Marked() && Blackened() && OnlyReached(g, seeds) && g == Edges()
      modifies this`gray, Heap()`marked
      ensures Distinct(gray) && ObjectsRefs(gray) <= Marked()
      ensures seeds <= Marked() && Blackened() && OnlyReached(g, seeds)
      ensures old(Marked()) <= Marked()
      ensures Marked() == old(Marked()) ==> |gray| < old(|gray|)
    {
      hide Children;
      var o := gray[|gray| - 1];
      TopGone(gray);
      ghost var rest := gray[..|gray| - 1];
      gray := gray[..|gray| - 1];
      ChildrenReached(o, g, seeds);
      Blacken(o);
      if |rest| < |gray| { SomethingNew(rest, gray); }
    }

    lemma ChildrenReached(o: Obj, g: Graph<Obj>, seeds: set<Obj>)
      requires o in Heap() && g == Edges() && Reaches(g, seeds, o)
      ensures forall c :: c in Children(o.payload) ==> Reaches(g, seeds, c)
    {
      forall c | c in Children(o.payload)
        ensures Reaches(g, seeds, c)
      {
        EdgeReached(g, seeds, o, c);
      }
    }

    // ----- sweeping -----

    /** The sweep before the object at position `i` of the list: what is kept is linked up to it. */
    ghost predicate Sweeping(all: seq<Obj>, i: nat, kept: seq<Obj>, marks: set<Obj>, previous: Obj?, current: Obj?)
      reads this, all, kept
    {
      && i <= |all| && Distinct(all)
      && current == At(all, i)
      && previous == (if kept == [] then null else kept[|kept| - 1])
      && objects == (if kept == [] then current else kept[0])
      && Chain(kept, current) && Untouched(all, i, marks)
      && (forall k :: 0 <= k < |kept| ==> !kept[k].marked && kept[k] in all[..i])
      && Distinct(kept)
    }

    /** A marked object stays in the list and loses its mark. */
    method KeepOne(ghost all: seq<Obj>, ghost i: nat, ghost kept: seq<Obj>, ghost marks: set<Obj>,
        ghost previous: Obj?, current: Obj)
      requires Sweeping(all, i, kept, marks, previous, current) && current.marked
      modifies current`marked
      ensures Sweeping(all, i + 1, kept + [current], marks, current, current.next)
    {
      Beyond(all, i);
      assert forall j :: i < j < |all| ==> all[j] != all[i];
      current.marked := false;
      ghost var more := kept + [current];
      assert forall k :: 0 <= k < |more| ==> more[k] == if k < |kept| then kept[k] else current;
      assert Chain(more, current.next);
      assert Untouched(all, i + 1, marks);
      assert Distinct(more);
      assert forall k :: 0 <= k < |more| ==> !more[k].marked && more[k] in all[..i + 1];
    }

    /** An unmarked object is unlinked from its predecessor, or from the head of the list. */
    method UnlinkOne(ghost all: seq<Obj>, ghost i: nat, ghost kept: seq<Obj>, ghost marks: set<Obj>, previous: Obj?,
        current: Obj)
      requires Sweeping(all, i, kept, marks, previous, current) && !current.marked
      modifies this`objects, ObjectRefs(previous)`next
      ensures Sweeping(all, i + 1, kept, marks, previous, current.next)
    {
      Beyond(all, i);
      if previous != null {
        previous.next := current.next;
      } else {
        objects := current.next;
      }
    }

    /** Unlink what is not marked, and clear the marks of the rest. */
    method Sweep()
      requires Linked()
      modifies this`objects, this`list, Heap()`marked, Heap()`next
      ensures Linked() && list == Filter(old(list), old(Marked()))
      ensures Marked() == {}
    {
      hide Sweeping, Linked, Filter;
      StartSweep();
      ghost var all, i, marks := list, 0, Marked();
      ghost var kept: seq<Obj> := [];
      FilterNone(all, marks);
      var previous: Obj?, current: Obj? := null, objects;
      while current != null
        invariant Sweeping(all, i, kept, marks, previous, current)
        invariant i <= |all| && kept == Filter(all[..i], marks) && list == all
        decreases |all| - i
      {
        SweepingAt(all, i, kept, marks, previous, current);
        FilterNext(all, i, marks);
        if current.marked {
          KeepOne(all, i, kept, marks, previous, current);
          kept := kept + [current];
          previous := current;
          current := current.next;
        } else {
          UnlinkOne(all, i, kept, marks, previous, current);
          current := current.next;
        }
        i := i + 1;
      }
      EndSweep(all, i, kept, marks, previous);
      list := kept;
      Relinked();
    }

    lemma StartSweep()
      requires Linked()
      ensures Sweeping(list, 0, [], Marked(), null, objects)
    {
    }

    lemma EndSweep(all: seq<Obj>, i: nat, kept: seq<Obj>, marks: set<Obj>, previous: Obj?)
      requires i <= |all| && Sweeping(all, i, kept, marks, previous, null)
      ensures all[..i] == all && Distinct(kept) && Chain(kept, null)
      ensures objects == (if kept == [] then null else kept[0])
      ensures forall k :: 0 <= k < |kept| ==> !kept[k].marked
    {
    }

    lemma Relinked()
      requires Distinct(list) && Chain(list, null) && objects == (if list == [] then null else list[0])
      ensures Linked()
    {
    }

    lemma SweepingAt(all: seq<Obj>, i: nat, kept: seq<Obj>, marks: set<Obj>, previous: Obj?, current: Obj?)
      requires Sweeping(all, i, kept, marks, previous, current) && current != null
      ensures i < |all| && current == all[i] && Distinct(all) && current.marked == (current in marks)
      ensures previous != null ==> previous in all
    {
    }

    // ----- collecting -----

    /** Drop the pooled strings that are not marked; their entries become tombstones. */
    method RemoveWhite()
      requires EntriesRefs(strings) <= Heap()
      modifies this`strings
      ensures strings == WithoutWhite(old(strings), Marked())
    {
      ghost var before := strings;
      for i := 0 to |strings|
        invariant |strings| == |before| && strings[i..] == before[i..]
        invariant strings[..i] == WithoutWhite(before, Marked())[..i]
      {
        assert strings[i] == before[i] && before[i] in before;
        if strings[i].key.Ref? && !strings[i].key.o.marked { strings := strings[i := TOMBSTONE]; }
      }
    }

    /** What a collection keeps: everything reachable from the roots, and from the objects the
        compiler has marked since the last collection. */
    ghost function Survivors(): set<Obj>
      reads this, Heap()
    {
      set o | o in Heap() && Reaches(Edges(), Roots() + ObjectsRefs(gray), o)
    }

    /** The mark phase marks exactly the survivors. */
    method Mark()
      requires Valid()
      modifies this`gray, Heap()`marked
      ensures gray == [] && Marked() == old(Survivors())
      ensures Roots() <= Marked() && forall o :: o in Marked() ==> Children(o.payload) <= Marked()
    {
      hide Children, EntriesRefs, ValuesRefs, Linked, Roots, Blackened, OpenOk;
      ghost var g, seeds := Edges(), Roots() + ObjectsRefs(gray);
      MarkRoots();
      AllGray();
      SeedsReached(g, seeds);
      TraceReferences(seeds);
      MarkedSurvive(g, seeds);
      ClosedChildren();
    }

    lemma AllGray()
      requires Marked() <= ObjectsRefs(gray)
      ensures Blackened()
    {
    }

    lemma ClosedChildren()
      requires Closed(Edges(), Marked())
      ensures forall o :: o in Marked() ==> Children(o.payload) <= Marked()
    {
      hide Children;
      forall o, c | o in Marked() && c in Children(o.payload)
        ensures c in Marked()
      {
        assert c in Edges()[o];
      }
    }

    /** A collection leaves exactly the survivors in the list, in their order, unmarked; what they
        contain does not change, and no pooled string is dropped. */
    method Collect()
      requires Valid()
      modifies this`gray, this`objects, this`list, this`strings, Heap()`marked, Heap()`next
      ensures Valid() && gray == [] && Marked() == {}
      ensures list == Filter(old(list), old(Survivors()))
      ensures strings == old(strings)
    {
      hide Children, EntriesRefs, ValuesRefs, Linked, Survivors, Filter, WithoutWhite, Roots, OpenOk;
      Mark();
      PooledMarked();
      NoWhite(strings, Marked());
      RemoveWhite();
      ghost var all, marks := list, Marked();
      RootsOpen();
      OpenKept(openUpvalues, Heap(), |stack|, marks, |stack|);
      Sweep();
      FilterMembers(all, marks);
      assert Heap() == marks;
      assert Roots() <= Heap();
      assert forall o :: o in Heap() ==> Children(o.payload) <= Heap();
    }

    // ----- between collections -----

    /** An object that is not in the list enters it at its head. */
    method Enter(o: Obj)
      requires Linked() && RootsIn() && Traced() && GrayOk()
      requires o !in Heap() && !o.marked && Children(o.payload) <= Heap()
      modifies this`objects, this`list, o`next
      ensures Linked() && RootsIn() && Traced() && GrayOk()
      ensures list == [o] + old(list) && Heap() == old(Heap()) + {o} && Marked() == old(Marked())
    {
      hide Children, Roots, Linked;
      Relink(o);
    }

    method Relink(o: Obj)
      requires Linked() && o !in Heap()
      modifies this`objects, this`list, o`next
      ensures Linked() && list == [o] + old(list)
    {
      o.next := objects;
      objects := o;
      list := [o] + list;
      assert forall k :: 0 <= k < |list| ==> list[k].next == At(list, k + 1, null);
    }

    /** A new object enters the list at its head, unmarked. */
    method Allocate(p: Payload) returns (o: Obj)
      requires Valid() && Children(p) <= Heap() && !IsOpen(p)
      modifies this`objects, this`list
      ensures Valid() && fresh(o) && list == [o] + old(list) && o.payload == p
      ensures Marked() == old(Marked())
    {
      hide Children, Roots, Linked, IsOpen, Above, Traced, GrayOk;
      o := new Obj(p);
      Enter(o);
      assert OpenOk(openUpvalues, Heap() - {o}, |stack|);
      OpenMore(openUpvalues, Heap() - {o}, |stack|, o);
    }

    /** Numbers and the like are equal by value, strings by their bytes; no other objects are equal. */
    predicate SameValue(a: Value, b: Value)
      reads ValueRefs(a)`payload, ValueRefs(b)`payload
    {
      if a.Immediate? || b.Immediate? then a == b
      else a.o.payload.Str? && a.o.payload == b.o.payload
    }

    /** The compiler marks a constant while it adds it to the function it is compiling; an equal one that
        is there already is used instead. */
    method MakeConstant(f: Obj, v: Value) returns (i: nat)
      requires Valid() && f in Heap() && f.payload.Function? && ValueRefs(v) <= Heap()
      modifies this`gray, Heap()`marked, f`payload
      ensures Valid() && Marked() == old(Marked()) + ValueRefs(v)
      ensures var cs := old(f.payload).constants;
        && i <= |cs| && (forall k :: 0 <= k < i ==> !old(SameValue(cs[k], v)))
        && (i < |cs| ==> old(SameValue(cs[i], v)) && f.payload == old(f.payload))
        && (i == |cs| ==> f.payload == Function(old(f.payload).name_, cs + [v]))
    {
      hide Children, EntriesRefs, ValuesRefs, Roots, Linked, Distinct;
      MarkValue(v);
      var cs := f.payload.constants;
      i := 0;
      while i < |cs|
        invariant i <= |cs| && forall k :: 0 <= k < i ==> !old(SameValue(cs[k], v))
      {
        if SameValue(cs[i], v) { return; }
        i := i + 1;
      }
      ConstantChildren(f.payload.name_, cs, v);
      assert Children(f.payload) <= Heap();
      Mutate(f, Function(f.payload.name_, cs + [v]));
    }

    /** The program changes what an object contains.  Upvalues are opened and closed by other means. */
    method Mutate(o: Obj, p: Payload)
      requires Valid() && o in Heap() && Children(p) <= Heap()
      requires IsOpen(o.payload) || IsOpen(p) ==> IsOpen(o.payload) && IsOpen(p) && Slot(o.payload) == Slot(p)
      modifies o`payload
      ensures Valid() && o.payload == p && Marked() == old(Marked())
    {
      hide Children, Roots, Linked, GrayOk, Traced;
      SetPayload(o, p);
    }

    method SetPayload(o: Obj, p: Payload)
      requires Traced() && o in Heap() && Children(p) <= Heap()
      modifies o`payload
      ensures Traced() && o.payload == p
    {
      hide Children;
      o.payload := p;
    }

    // ----- the stack and its upvalues -----

    method Push(v: Value)
      requires Valid() && ValueRefs(v) <= Heap()
      modifies this`stack
      ensures Valid() && stack == old(stack) + [v]
    {
      hide Traced, EntriesRefs, Linked, GrayOk, OpenOk;
      RootsOpen();
      OpenKept(openUpvalues, Heap(), |stack|, Heap(), |stack| + 1);
      stack := stack + [v];
    }

    /** Pop a value that no upvalue refers to. */
    method Pop() returns (v: Value)
      requires Valid() && |stack| > 0 && TopFree()
      modifies this`stack
      ensures Valid() && old(stack) == stack + [v]
    {
      hide Traced, EntriesRefs, Linked, GrayOk, OpenOk;
      OpenBelow(openUpvalues, Heap(), |stack|, |stack| - 1);
      v := stack[|stack| - 1];
      stack := stack[..|stack| - 1];
    }

    /** No upvalue refers to the top of the stack. */
    ghost predicate TopFree()
      reads this`openUpvalues, this`stack, this`list, Heap()`payload
    {
      openUpvalues != [] ==>
        openUpvalues[0] in Heap() && IsOpen(openUpvalues[0].payload)
        && Slot(openUpvalues[0].payload) < |stack| - 1
    }

    method SetSlot(i: nat, v: Value)
      requires Valid() && i < |stack| && ValueRefs(v) <= Heap()
      modifies this`stack
      ensures Valid() && stack == old(stack)[i := v]
    {
      hide Traced, EntriesRefs, Linked, GrayOk, OpenOk;
      stack := stack[i := v];
    }

    /** The upvalue of a slot: the one it has, or a new one, linked in where its slot belongs. */
    method Capture(slot: nat) returns (u: Obj)
      requires Valid() && slot < |stack|
      modifies this`openUpvalues, this`objects, this`list
      ensures Valid() && u in openUpvalues && IsOpen(u.payload) && Slot(u.payload) == slot
      ensures u in old(openUpvalues) ==> openUpvalues == old(openUpvalues) && list == old(list)
      ensures u !in old(openUpvalues) ==> fresh(u) && list == [u] + old(list)
      ensures u !in old(openUpvalues) ==> exists i :: LinkedIn(old(openUpvalues), i, u, openUpvalues)
    {
      hide Traced, Roots, Linked, GrayOk;
      var i := 0;
      while i < |openUpvalues| && Slot(openUpvalues[i].payload) > slot
        invariant i <= |openUpvalues|
        invariant forall k :: 0 <= k < i ==> Slot(openUpvalues[k].payload) > slot
      {
        i := i + 1;
      }
      if i < |openUpvalues| && Slot(openUpvalues[i].payload) == slot {
        return openUpvalues[i];
      }
      u := NewUpvalue(slot, i);
    }

    method NewUpvalue(slot: nat, i: nat) returns (u: Obj)
      requires Valid() && slot < |stack| && i <= |openUpvalues|
      requires forall k :: 0 <= k < i ==> Slot(openUpvalues[k].payload) > slot
      requires i < |openUpvalues| ==> Slot(openUpvalues[i].payload) < slot
      modifies this`openUpvalues, this`objects, this`list
      ensures Valid() && fresh(u) && u.payload == Upvalue(NOTHING, OnStack(slot)) && list == [u] + old(list)
      ensures LinkedIn(old(openUpvalues), i, u, openUpvalues) && u in openUpvalues
    {
      hide Linked, RootsIn, OpenOk, ObjectsRefs, Above, Traced, GrayOk;
      ghost var open, objs := openUpvalues, Heap();
      OpenMembers(open, objs, |stack|);
      u := new Obj(Upvalue(NOTHING, OnStack(slot)));
      Enter(u);
      LinkOpen(i, u);
      OpenInsert(open, objs, |stack|, u, i, openUpvalues);
    }

    method LinkOpen(i: nat, u: Obj)
      requires i <= |openUpvalues| && RootsIn() && u in Heap()
      modifies this`openUpvalues
      ensures RootsIn() && LinkedIn(old(openUpvalues), i, u, openUpvalues) && u in openUpvalues
    {
      hide Roots, Anchors, ObjectsRefs;
      RootsSplit();
      ghost var open := openUpvalues;
      openUpvalues := openUpvalues[..i] + [u] + openUpvalues[i..];
      assert openUpvalues[i] == u;
      RootsSplit();
      LinkedRefs(open, i, u, openUpvalues);
    }

    /** The roots other than the open upvalues. */
    ghost function Anchors(): set<Obj>
      reads this`stack, this`frames, this`globals, this`strings, this`compilers, this`initString
    {
      ValuesRefs(stack) + ObjectsRefs(frames) + OtherRoots()
    }

    lemma RootsSplit()
      ensures Roots() == Anchors() + ObjectsRefs(openUpvalues)
    {
      hide ValuesRefs, OtherRoots, ObjectsRefs;
    }

    /** The first open upvalue takes its variable's value and leaves the list. */
    method CloseFirst()
      requires Valid() && openUpvalues != []
      modifies this`openUpvalues, ObjectsRefs(openUpvalues[..1])`payload
      ensures Valid() && openUpvalues == old(openUpvalues)[1..]
      ensures old(openUpvalues[0]).payload == Upvalue(old(stack[Slot(openUpvalues[0].payload)]), Inside)
    {
      hide Linked, GrayOk, Roots, Children, Anchors, Traced, OpenOk;
      var u := openUpvalues[0];
      ghost var open, objs := openUpvalues, Heap();
      OpenMembers(open, objs, |stack|);
      OpenTail(open, objs, |stack|);
      RootsSplit();
      StackValue(Slot(u.payload));
      ClosedOver(u.payload, stack[Slot(u.payload)]);
      SetPayload(u, Upvalue(stack[Slot(u.payload)], Inside));
      openUpvalues := openUpvalues[1..];
      OpenMore(openUpvalues, objs - {u}, |stack|, u);
      assert objs - {u} + {u} == objs;
      RootsSplit();
    }

    lemma StackValue(i: nat)
      requires RootsIn() && i < |stack|
      ensures ValueRefs(stack[i]) <= Heap()
    {
    }

    /** Close every upvalue at or above a slot: the first `n` of them. */
    method CloseFrom(slot: nat) returns (ghost n: nat)
      requires Valid()
      modifies this`openUpvalues, ObjectsRefs(openUpvalues)`payload
      ensures Valid() && n <= |old(openUpvalues)| && openUpvalues == old(openUpvalues)[n..]
      ensures forall k :: 0 <= k < n ==> ClosedAt(old(openUpvalues)[k], old(Slot(openUpvalues[k].payload)), slot)
      ensures forall k :: n <= k < |old(openUpvalues)| ==>
        old(openUpvalues)[k].payload == old(openUpvalues[k].payload)
      ensures openUpvalues != [] ==> IsOpen(openUpvalues[0].payload) && Slot(openUpvalues[0].payload) < slot
    {
      hide Traced, Roots, RootsIn, Linked, GrayOk, OpenOk, Above;
      n := 0;
      ghost var open, objs := openUpvalues, Heap();
      OpenMembers(open, objs, |stack|);
      DistinctOpen(open, objs, |stack|);
      while openUpvalues != [] && Slot(openUpvalues[0].payload) >= slot
        invariant Valid() && n <= |open| && openUpvalues == open[n..]
        invariant openUpvalues != [] ==> IsOpen(openUpvalues[0].payload)
        invariant forall k :: 0 <= k < n ==> ClosedAt(open[k], old(Slot(openUpvalues[k].payload)), slot)
        invariant forall k :: n <= k < |open| ==> open[k].payload == old(openUpvalues[k].payload)
        decreases |openUpvalues|
      {
        CloseFirst();
        n := n + 1;
      }
    }

    /** The upvalue of slot `i`, which is not below `from`, has its variable's value. */
    ghost predicate ClosedAt(u: Obj, i: nat, from: nat)
      reads this`stack, u`payload
    {
      from <= i < |stack| && u.payload == Upvalue(stack[i], Inside)
    }

    /** The top variable leaves the stack and lives on in its upvalue, if it has one. */
    method CloseUpvalue()
      requires Valid() && |stack| > 0
      modifies this`stack, this`openUpvalues, ObjectsRefs(openUpvalues)`payload
      ensures Valid() && stack == old(stack)[..|old(stack)| - 1]
    {
      hide Traced, Roots, RootsIn, Linked, GrayOk, OpenOk;
      var n := CloseFrom(|stack| - 1);
      OpenMembers(openUpvalues, Heap(), |stack|);
      var _ := Pop();
    }

    /** A function returns: its captured variables are closed, and the result takes the place of its slots. */
    method Return(base: nat)
      requires Valid() && base < |stack| && |frames| > 0
      modifies this`stack, this`frames, this`openUpvalues, ObjectsRefs(openUpvalues)`payload
      ensures Valid() && stack == old(stack)[..base] + [old(stack)[|old(stack)| - 1]]
      ensures frames == old(frames)[..|old(frames)| - 1]
    {
      hide Traced, Linked, GrayOk, OpenOk, Roots, Anchors;
      var n := CloseFrom(base);
      OpenMembers(openUpvalues, Heap(), |stack|);
      OpenBelow(openUpvalues, Heap(), |stack|, base);
      OpenKept(openUpvalues, Heap(), base, Heap(), base + 1);
      DropFrame(base);
    }

    /** The frame goes, and the result takes the place of its slots. */
    method DropFrame(base: nat)
      requires RootsIn() && base < |stack| && |frames| > 0
      modifies this`stack, this`frames
      ensures RootsIn() && stack == old(stack)[..base] + [old(stack)[|old(stack)| - 1]]
      ensures frames == old(frames)[..|old(frames)| - 1]
    {
      hide OtherRoots, Roots;
      RootsSplit();
      var result := stack[|stack| - 1];
      frames := frames[..|frames| - 1];
      stack := stack[..base] + [result];
      RootsSplit();
    }

    // ----- variables of closures -----

    /** The value a closure reads through an upvalue. */
    function Variable(u: Obj): Value
      requires u.payload.Upvalue?
      requires u.payload.location.OnStack? ==> u.payload.location.index < |stack|
      reads this`stack, u`payload
    {
      match u.payload.location
      case OnStack(i) => stack[i]
      case Inside => u.payload.closed
    }

    /** Whatever a surviving closure can read through its upvalues survives too, although an
        upvalue itself only keeps what it has closed over. */
    lemma VariablesSurvive(c: Obj, k: nat)
      requires Valid() && c in Survivors()
      requires c.payload.Closure? && k < |c.payload.upvalues|
      requires c.payload.upvalues[k] != null && c.payload.upvalues[k].payload.Upvalue?
      ensures c.payload.upvalues[k] in Survivors()
      ensures ValueRefs(Variable(c.payload.upvalues[k])) <= Survivors()
    {
      hide Children, Roots, Valid;
      ClosureChildren(c.payload, k);
      ValidEdges();
      var u: Obj := c.payload.upvalues[k];
      var g, seeds := Edges(), Roots() + ObjectsRefs(gray);
      EdgeReached(g, seeds, c, u);
      if IsOpen(u.payload) { OpenLow(u); }
      var v := Variable(u);
      if v.Ref? {
        if u.payload.location.OnStack? {
          StackRoot(v);
          SeedReached(g, seeds, v.o);
        } else {
          ClosedChild(u.payload);
          EdgeReached(g, seeds, u, v.o);
        }
      }
    }

    lemma OpenLow(u: Obj)
      requires Valid() && u in Heap() && IsOpen(u.payload)
      ensures Slot(u.payload) < |stack|
    {
    }

    lemma ValidEdges()
      requires Valid()
      ensures Roots() <= Heap() && forall o :: o in Heap() ==> Children(o.payload) <= Heap()
    {
    }

    lemma StackRoot(v: Value)
      requires v in stack && v.Ref?
      ensures v.o in Roots()
    {
    }

    lemma RootsOpen()
      ensures ObjectsRefs(openUpvalues) <= Roots()
    {
      hide EntriesRefs, ValuesRefs;
    }

    lemma PooledMarked()
      requires Roots() <= Marked()
      ensures EntriesRefs(strings) <= Marked()
    {
      hide EntriesRefs, ValuesRefs;
    }

    lemma SeedsReached(g: Graph<Obj>, seeds: set<Obj>)
      requires Marked() == seeds
      ensures OnlyReached(g, seeds)
    {
      forall o | o in seeds
        ensures Reaches(g, seeds, o)
      {
        SeedReached(g, seeds, o);
      }
    }

    /** Tracing to the end marks exactly what is reachable. */
    lemma MarkedSurvive(g: Graph<Obj>, seeds: set<Obj>)
      requires g == Edges() && seeds <= Marked() && Closed(g, Marked()) && OnlyReached(g, seeds)
      ensures Marked() == set o | o in Heap() && Reaches(g, seeds, o)
    {
      forall o | o in Heap() && Reaches(g, seeds, o)
        ensures o in Marked()
      {
        ReachedInClosed(g, seeds, Marked(), o);
      }
    }
  }

  /** One list is the other with an object put in at `i`. */
  predicate LinkedIn(before: seq<Obj>, i: nat, u: Obj, after: seq<Obj>) {
    i <= |before| && after == before[..i] + [u] + before[i..]
  }

  const NOTHING := Immediate(0)
  const TOMBSTONE := Entry(Immediate(-1), Immediate(1))

  /** The table with every unmarked key replaced by a tombstone. */
  ghost function WithoutWhite(es: seq<Entry>, marks: set<Obj>): (r: seq<Entry>)
    ensures |r| == |es|
  {
    seq(|es|, i requires 0 <= i < |es| => if es[i].key.Ref? && es[i].key.o !in marks then TOMBSTONE else es[i])
  }

  lemma ConstantChildren(name: Obj?, cs: seq<Value>, v: Value)
    ensures Children(Function(name, cs + [v])) == Children(Function(name, cs)) + ValueRefs(v)
  {
  }

  lemma ClosureChildren(p: Payload, k: nat)
    requires p.Closure? && k < |p.upvalues| && p.upvalues[k] != null
    ensures p.upvalues[k] in Children(p)
  {
  }

  lemma ClosedChild(p: Payload)
    requires p.Upvalue?
    ensures ValueRefs(p.closed) <= Children(p)
  {
  }

  lemma NoWhite(es: seq<Entry>, marks: set<Obj>)
    requires EntriesRefs(es) <= marks
    ensures WithoutWhite(es, marks) == es
  {
    forall i | 0 <= i < |es| && es[i].key.Ref?
      ensures es[i].key.o in marks
    {
      assert es[i] in es;
    }
  }

  lemma Beyond(all: seq<Obj>, i: nat)
    requires i < |all| && Distinct(all)
    ensures all[..i + 1] == all[..i] + [all[i]]
    ensures forall j :: i <= j < |all| ==> all[j] !in all[..i]
  {
  }

  /** The object at position `i` of a list, or what follows the list. */
  function At(list: seq<Obj>, i: nat, last: Obj? := null): Obj? {
    if i < |list| then list[i] else last
  }

  /** Consecutive links that lead to `last`. */
  ghost predicate Chain(list: seq<Obj>, last: Obj?)
    reads (set o | o in list)`next
  {
    forall k :: 0 <= k < |list| ==> list[k].next == At(list, k + 1, last)
  }

  /** From position `i` on links and marks are as they were. */
  ghost predicate Untouched(all: seq<Obj>, i: nat, marks: set<Obj>)
    reads all
  {
    forall j :: i <= j < |all| ==> all[j].next == At(all, j + 1) && all[j].marked == (all[j] in marks)
  }

  lemma FilterNone(all: seq<Obj>, s: set<Obj>)
    ensures Filter(all[..0], s) == []
  {
  }

  lemma FilterNext(all: seq<Obj>, i: nat, s: set<Obj>)
    requires i < |all|
    ensures Filter(all[..i + 1], s) == Filter(all[..i], s) + if all[i] in s then [all[i]] else []
  {
    assert all[..i + 1][..i] == all[..i];
  }

  /** A filtered list has exactly the members that are in the set. */
  lemma {:induction false} FilterMembers(all: seq<Obj>, s: set<Obj>)
    ensures forall o :: o in Filter(all, s) <==> o in all && o in s
    decreases |all|
  {
    if all != [] {
      var init, last := all[..|all| - 1], all[|all| - 1];
      FilterMembers(init, s);
      assert all == init + [last];
    }
  }

  lemma TopGone(gray: seq<Obj>)
    requires Distinct(gray) && |gray| > 0
    ensures ObjectsRefs(gray) == ObjectsRefs(gray[..|gray| - 1]) + {gray[|gray| - 1]}
    ensures gray[|gray| - 1] !in gray[..|gray| - 1]
  {
    assert gray == gray[..|gray| - 1] + [gray[|gray| - 1]];
  }

  /** A distinct sequence longer than its prefix has more members. */
  lemma SomethingNew(a: seq<Obj>, b: seq<Obj>)
    requires Distinct(b) && a <= b && |a| < |b|
    ensures ObjectsRefs(a) != ObjectsRefs(b)
  {
    assert b[|a|] in ObjectsRefs(b) && b[|a|] !in ObjectsRefs(a);
  }

  lemma ValuesNext(vs: seq<Value>, i: nat)
    requires i < |vs|
    ensures ValuesRefs(vs[..i + 1]) == ValuesRefs(vs[..i]) + ValueRefs(vs[i])
    ensures ValueRefs(vs[i]) <= ValuesRefs(vs)
  {
    assert vs[..i + 1] == vs[..i] + [vs[i]];
  }

  lemma ObjectsNext(os: seq<Obj?>, i: nat)
    requires i < |os|
    ensures ObjectsRefs(os[..i + 1]) == ObjectsRefs(os[..i]) + ObjectRefs(os[i])
    ensures ObjectRefs(os[i]) <= ObjectsRefs(os)
  {
    assert os[..i + 1] == os[..i] + [os[i]];
  }

  lemma EntriesNext(es: seq<Entry>, i: nat)
    requires i < |es|
    ensures EntriesRefs(es[..i + 1]) == EntriesRefs(es[..i]) + ValueRefs(es[i].key) + ValueRefs(es[i].value)
    ensures ValueRefs(es[i].key) + ValueRefs(es[i].value) <= EntriesRefs(es)
  {
    assert es[..i + 1] == es[..i] + [es[i]];
  }
}
