/** What a collection keeps, field by field: an object stays exactly if a chain of references leads to it from a
    field of the machine, and then nothing it refers to is gone. */
module Survival {
  import opened Gc
  import opened Reachability

  // ----- references -----

  predicate Holds(es: seq<Entry>, o: Obj) {
    exists i :: 0 <= i < |es| && (es[i].key == Ref(o) || es[i].value == Ref(o))
  }

  /** Some field of an object with this payload refers to `o`. */
  predicate Refers(p: Payload, o: Obj) {
    match p
    case BoundMethod(receiver, m) => receiver == Ref(o) || m == o
    case Class(name, methods) => name == o || Holds(methods, o)
    case Instance(klass, fields) => klass == o || Holds(fields, o)
    case Upvalue(closed, _) => closed == Ref(o)
    case Function(name, constants) => name == o || Ref(o) in constants
    case Closure(f, upvalues) => f == o || o in upvalues
    case Table(entries) => Holds(entries, o)
    case Native => false
    case Str(_) => false
  }

  lemma EntriesHold(es: seq<Entry>, o: Obj)
    ensures o in EntriesRefs(es) <==> Holds(es, o)
  {
    if o in EntriesRefs(es) {
      var e :| e in es && (e.key == Ref(o) || e.value == Ref(o));
      var i :| 0 <= i < |es| && es[i] == e;
    }
    if Holds(es, o) {
      var i :| 0 <= i < |es| && (es[i].key == Ref(o) || es[i].value == Ref(o));
      assert es[i] in es;
    }
  }

  lemma ValuesHold(vs: seq<Value>, o: Obj)
    ensures o in ValuesRefs(vs) <==> Ref(o) in vs
  {
  }

  /** The children of an object are what its fields refer to. */
  lemma ChildrenRefer(p: Payload, o: Obj)
    ensures o in Children(p) <==> Refers(p, o)
  {
    hide EntriesRefs, ValuesRefs, Holds;
    match p
    case Class(_, methods) => EntriesHold(methods, o);
    case Instance(_, fields) => EntriesHold(fields, o);
    case Function(_, constants) => ValuesHold(constants, o);
    case Table(entries) => EntriesHold(entries, o);
    case _ =>
  }

  // ----- roots -----

  /** A field of the machine or of the compiler refers to `o`. */
  ghost predicate Rooted(c: Collector, o: Obj)
    reads c`stack, c`frames, c`openUpvalues, c`globals, c`strings, c`compilers, c`initString
  {
    || Ref(o) in c.stack || o in c.frames || o in c.openUpvalues
    || Holds(c.globals, o) || Holds(c.strings, o) || o in c.compilers || c.initString == o
  }

  lemma RootsRooted(c: Collector, o: Obj)
    ensures o in c.Roots() <==> Rooted(c, o)
  {
    hide EntriesRefs, ValuesRefs, Holds;
    ValuesHold(c.stack, o);
    EntriesHold(c.globals, o);
    EntriesHold(c.strings, o);
  }

  // ----- chains of references -----

  /** Positions in the list of all objects, from an object that is rooted, or was marked since the last collection, from
      reference to reference. */
  ghost predicate Leads(c: Collector, path: seq<nat>)
    reads c, c.Heap()
  {
    && path != [] && (forall k :: 0 <= k < |path| ==> path[k] < |c.list|)
    && (Rooted(c, c.list[path[0]]) || c.list[path[0]] in c.gray)
    && forall k :: 0 < k < |path| ==> Refers(c.list[path[k - 1]].payload, c.list[path[k]])
  }

  ghost predicate Reached(c: Collector, o: Obj)
    reads c, c.Heap()
  {
    exists path: seq<nat> :: Leads(c, path) && c.list[path[|path| - 1]] == o
  }

  lemma {:induction false} PathSurvives(c: Collector, path: seq<nat>)
    requires c.Valid() && Leads(c, path)
    ensures Reaches(c.Edges(), c.Roots() + ObjectsRefs(c.gray), c.list[path[|path| - 1]])
    decreases |path|
  {
    hide Collector.Roots, Refers, Rooted, Collector.Valid, Children;
    var g, seeds, o := c.Edges(), c.Roots() + ObjectsRefs(c.gray), c.list[path[|path| - 1]];
    if |path| == 1 {
      RootsRooted(c, o);
      SeedReached(g, seeds, o);
    } else {
      var init := path[..|path| - 1];
      assert forall k :: 0 <= k < |init| ==> init[k] == path[k];
      PathSurvives(c, init);
      var p := c.list[init[|init| - 1]];
      ChildrenRefer(p.payload, o);
      EdgeReached(g, seeds, p, o);
    }
  }

  lemma Extended(c: Collector, path: seq<nat>, i: nat)
    requires Leads(c, path) && i < |c.list| && Refers(c.list[path[|path| - 1]].payload, c.list[i])
    ensures Leads(c, path + [i])
  {
    hide Refers, Rooted;
  }

  lemma {:induction false} SurvivesPath(c: Collector, o: Obj, k: nat)
    requires c.Valid() && o in c.Heap() && o in Within(c.Edges(), c.Roots() + ObjectsRefs(c.gray), k)
    ensures Reached(c, o)
    decreases k
  {
    hide Collector.Roots, Refers, Rooted, Collector.Valid, Children;
    var g, seeds := c.Edges(), c.Roots() + ObjectsRefs(c.gray);
    var i: nat :| i < |c.list| && c.list[i] == o;
    if k == 0 {
      RootsRooted(c, o);
      assert Leads(c, [i]);
    } else if o in Within(g, seeds, k - 1) {
      SurvivesPath(c, o, k - 1);
    } else {
      var p :| p in Within(g, seeds, k - 1) && p in g && o in g[p];
      SurvivesPath(c, p, k - 1);
      var path: seq<nat> :| Leads(c, path) && c.list[path[|path| - 1]] == p;
      ChildrenRefer(p.payload, o);
      Extended(c, path, i);
    }
  }

  /** What a collection keeps is what chains of references lead to. */
  lemma SurvivorsReached(c: Collector, o: Obj)
    requires c.Valid() && o in c.Heap()
    ensures o in c.Survivors() <==> Reached(c, o)
  {
    hide Collector.Roots, Collector.Valid, Children, Rooted, Refers;
    if o in c.Survivors() {
      var k: nat :| o in Within(c.Edges(), c.Roots() + ObjectsRefs(c.gray), k);
      SurvivesPath(c, o, k);
    }
    if Reached(c, o) {
      var path: seq<nat> :| Leads(c, path) && c.list[path[|path| - 1]] == o;
      PathSurvives(c, path);
    }
  }

  // ----- nothing dangles -----

  predicate Alive(list: seq<Obj>, v: Value) {
    v.Ref? ==> v.o in list
  }

  predicate EntriesAlive(list: seq<Obj>, es: seq<Entry>) {
    forall i :: 0 <= i < |es| ==> Alive(list, es[i].key) && Alive(list, es[i].value)
  }

  /** Everything an object with this payload refers to is in the list. */
  predicate PayloadAlive(list: seq<Obj>, p: Payload) {
    match p
    case BoundMethod(receiver, m) => Alive(list, receiver) && m in list
    case Class(name, methods) => name in list && EntriesAlive(list, methods)
    case Instance(klass, fields) => klass in list && EntriesAlive(list, fields)
    case Upvalue(closed, _) => Alive(list, closed)
    case Function(name, constants) =>
      (name != null ==> name in list) && forall i :: 0 <= i < |constants| ==> Alive(list, constants[i])
    case Closure(f, upvalues) =>
      f in list && forall i :: 0 <= i < |upvalues| && upvalues[i] != null ==> upvalues[i] in list
    case Table(entries) => EntriesAlive(list, entries)
    case Native => true
    case Str(_) => true
  }

  ghost predicate FieldsAlive(c: Collector)
    reads c
  {
    && (forall i :: 0 <= i < |c.stack| ==> Alive(c.list, c.stack[i]))
    && (forall f :: f in c.frames ==> f in c.list)
    && (forall u :: u in c.openUpvalues ==> u in c.list)
    && EntriesAlive(c.list, c.globals) && EntriesAlive(c.list, c.strings)
    && (forall f :: f in c.compilers ==> f in c.list)
    && (c.initString != null ==> c.initString in c.list)
  }

  ghost predicate NothingDangles(c: Collector)
    reads c, c.Heap()
  {
    FieldsAlive(c) && forall o :: o in c.list ==> PayloadAlive(c.list, o.payload)
  }

  lemma EntriesStay(list: seq<Obj>, es: seq<Entry>)
    requires forall o :: Holds(es, o) ==> o in list
    ensures EntriesAlive(list, es)
  {
    forall i | 0 <= i < |es|
      ensures Alive(list, es[i].key) && Alive(list, es[i].value)
    {
      if es[i].key.Ref? { assert Holds(es, es[i].key.o); }
      if es[i].value.Ref? { assert Holds(es, es[i].value.o); }
    }
  }

  lemma PayloadStays(list: seq<Obj>, p: Payload)
    requires forall o :: Refers(p, o) ==> o in list
    ensures PayloadAlive(list, p)
  {
    hide EntriesAlive, Holds;
    match p
    case BoundMethod(receiver, m) =>
      assert Refers(p, m);
      assert receiver.Ref? ==> Refers(p, receiver.o);
    case Class(name, methods) =>
      assert Refers(p, name);
      assert forall o :: Holds(methods, o) ==> Refers(p, o);
      EntriesStay(list, methods);
    case Instance(klass, fields) =>
      assert Refers(p, klass);
      assert forall o :: Holds(fields, o) ==> Refers(p, o);
      EntriesStay(list, fields);
    case Upvalue(closed, _) => assert closed.Ref? ==> Refers(p, closed.o);
    case Function(name, constants) =>
      assert name != null ==> Refers(p, name);
      assert forall i :: 0 <= i < |constants| && constants[i].Ref? ==> Refers(p, constants[i].o);
    case Closure(f, upvalues) =>
      assert Refers(p, f);
      assert forall i :: 0 <= i < |upvalues| && upvalues[i] != null ==> Refers(p, upvalues[i]);
    case Table(entries) =>
      assert forall o :: Holds(entries, o) ==> Refers(p, o);
      EntriesStay(list, entries);
    case Native =>
    case Str(_) =>
  }

  lemma FieldsStay(c: Collector)
    requires forall o :: Rooted(c, o) ==> o in c.list
    ensures FieldsAlive(c)
  {
    hide EntriesAlive, Holds;
    assert forall i :: 0 <= i < |c.stack| && c.stack[i].Ref? ==> Rooted(c, c.stack[i].o);
    assert forall o :: Holds(c.globals, o) ==> Rooted(c, o);
    assert forall o :: Holds(c.strings, o) ==> Rooted(c, o);
    EntriesStay(c.list, c.globals);
    EntriesStay(c.list, c.strings);
  }

  /** In every state of the machine and the collector, whatever a field refers to is there. */
  lemma ValidDangles(c: Collector)
    requires c.Valid()
    ensures NothingDangles(c)
  {
    hide Collector.Roots, Collector.Linked, OpenOk, Refers, Rooted, PayloadAlive, FieldsAlive, Children;
    forall o | Rooted(c, o)
      ensures o in c.list
    {
      RootsRooted(c, o);
    }
    FieldsStay(c);
    forall p | p in c.list
      ensures PayloadAlive(c.list, p.payload)
    {
      forall o | Refers(p.payload, o)
        ensures o in c.list
      {
        ChildrenRefer(p.payload, o);
      }
      PayloadStays(c.list, p.payload);
    }
  }

  /** A collection keeps an object exactly if a chain of references leads to it, and leaves nothing dangling. */
  method Collect(c: Collector)
    requires c.Valid()
    modifies c`gray, c`objects, c`list, c`strings, c.Heap()`marked, c.Heap()`next
    ensures c.Valid() && NothingDangles(c)
    ensures forall o :: o in old(c.list) ==> (o in c.list <==> old(Reached(c, o)))
    ensures forall o :: o in c.list ==> o in old(c.list)
  {
    hide Children, Collector.Roots, Collector.Linked, Collector.Survivors, Filter, OpenOk, Reached, Rooted,
      PayloadAlive, FieldsAlive;
    forall o | o in c.list
      ensures o in c.Survivors() <==> Reached(c, o)
    {
      SurvivorsReached(c, o);
    }
    ghost var all, kept := c.list, c.Survivors();
    c.Collect();
    FilterMembers(all, kept);
    ValidDangles(c);
  }
}
