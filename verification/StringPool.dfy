/** The pool of interned strings: one object for each sequence of bytes. */
module StringPool {
  import opened Hashing
  import opened Probing
  import opened HashTable

  /** What happens to the pool: a string is interned, or the collector runs after marking the pool and
      whatever else it reaches. */
  datatype Event = Intern(chars: seq<Byte>) | Collect(others: set<nat>)

  class Pool {
    const table: Table
    /** Objects are numbered in the order of their creation. */
    var created: nat

    /** No tombstones, a never-used slot once there are strings, and no object twice. */
    ghost predicate Valid()
      reads this, table, table.entries
    {
      && table.Valid() && NoTombs(table.entries[..])
      && (table.count == 0 || HasFree(table.entries[..]))
      && OwnObjects(table.Map(), created)
    }

    /** The interned strings by their bytes. */
    ghost function Strings(): map<Value, Entry>
      requires Valid()
      reads this, table, table.entries
    {
      table.Map()
    }

    constructor (nh: NumberHash)
      ensures Valid() && Strings() == map[] && fresh(table) && fresh(table.entries)
    {
      table := new Table(nh);
      created := 0;
    }

    /** The one object with these bytes. */
    method Intern(chars: seq<Byte>) returns (s: Value)
      requires Valid()
      modifies this, table, table.entries
      ensures Valid() && (table.entries == old(table.entries) || fresh(table.entries))
      ensures s.Str? && s.chars == chars
      ensures var k := Str(0, chars);
        && k in Strings() && Strings()[k].key == s
        && if k in old(Strings()) then Strings() == old(Strings())
           else Strings() == old(Strings())[k := Entry(s, Nil)]
    {
      hide Table.Valid, Table.Map, HasFree, NoTombs;
      var hash := HashString(chars);
      PoolStrings(this);
      var found, interned := table.FindString(chars, hash);
      if found {
        return interned;
      }
      s := Str(created, chars);
      created := created + 1;
      table.InsertOnly(s);
      var _ := table.Set(s, Nil);
    }

    /** A collection marks every string in the pool, so that it then removes none. */
    method Collect(others: set<nat>)
      requires Valid()
      modifies table`count, table.entries
      ensures Valid() && Strings() == old(Strings())
      ensures table.entries[..] == old(table.entries[..])
    {
      ghost var before := table.entries[..];
      var marked := others;
      for i := 0 to table.entries.Length
        invariant table.entries == old(table.entries) && table.entries[..] == before && Valid()
        invariant forall j :: 0 <= j < i ==> !White(before[j].key, marked)
      {
        var key := table.entries[i].key;
        if key.Str? || key.Other? {
          marked := marked + {key.ref};
        }
      }
      table.RemoveWhite(marked);
      assert table.entries[..] == before;
    }

    method Handle(e: Event) returns (s: Value)
      requires Valid()
      modifies this, table, table.entries
      ensures Valid() && (table.entries == old(table.entries) || fresh(table.entries))
      ensures Keeps(Strings(), old(Strings())) && Gives(Strings(), e, s)
    {
      hide Valid, Strings;
      match e {
        case Intern(chars) => s := Intern(chars);
        case Collect(others) =>
          Collect(others);
          s := Nil;
      }
    }

    /** Over every run, equal bytes give one object and different bytes give different ones. */
    method Run(events: seq<Event>) returns (objects: seq<Value>)
      requires Valid()
      modifies this, table, table.entries
      ensures Valid() && |objects| == |events|
      ensures forall i :: 0 <= i < |events| && events[i].Intern? ==>
        objects[i].Str? && objects[i].chars == events[i].chars
      ensures forall i, j :: 0 <= i < |events| && 0 <= j < |events| && events[i].Intern? && events[j].Intern? ==>
        (objects[i].ref == objects[j].ref <==> events[i].chars == events[j].chars)
    {
      hide Valid, Strings, Keeps, Gives;
      objects := [];
      for n := 0 to |events|
        invariant Valid() && |objects| == n && (table.entries == old(table.entries) || fresh(table.entries))
        invariant Interned(Strings(), events[..n], objects)
      {
        ghost var before := Strings();
        var s := Handle(events[n]);
        InternedNext(before, Strings(), events[..n], objects, events[n], s);
        assert events[..n + 1] == events[..n] + [events[n]];
        objects := objects + [s];
      }
      assert events[..|events|] == events;
      PoolOwns(this);
      Canonical(Strings(), created, events, objects);
    }
  }

  /** Every entry's object was created before now, carries its key's bytes, and is its own. */
  ghost predicate OwnObjects(m: map<Value, Entry>, created: nat) {
    && (forall k :: k in m ==> m[k].key.Str? && k == Str(0, m[k].key.chars) && m[k].key.ref < created)
    && (forall k, l :: k in m && l in m && m[k].key.ref == m[l].key.ref ==> k == l)
  }

  lemma PoolOwns(p: Pool)
    requires p.Valid()
    ensures OwnObjects(p.Strings(), p.created)
  {
  }

  lemma PoolStrings(p: Pool)
    requires p.Valid()
    ensures StringsOnly(p.table.entries[..])
  {
    hide Contents, HasFree, NoTombs;
    ContentsAgrees(p.table.entries[..]);
  }

  /** No interned string is forgotten or replaced. */
  ghost predicate Keeps(after: map<Value, Entry>, m: map<Value, Entry>) {
    forall k :: k in m ==> k in after && after[k] == m[k]
  }

  ghost predicate Gives(m: map<Value, Entry>, e: Event, s: Value) {
    e.Intern? ==> Str(0, e.chars) in m && m[Str(0, e.chars)].key == s
  }

  /** The pool still has every object it gave out. */
  ghost predicate Interned(m: map<Value, Entry>, events: seq<Event>, objects: seq<Value>) {
    && |events| == |objects|
    && forall i :: 0 <= i < |events| && events[i].Intern? ==>
         Str(0, events[i].chars) in m && m[Str(0, events[i].chars)].key == objects[i]
  }

  lemma InternedNext(m: map<Value, Entry>, after: map<Value, Entry>, events: seq<Event>, objects: seq<Value>,
      e: Event, s: Value)
    requires Interned(m, events, objects)
    requires Keeps(after, m) && Gives(after, e, s)
    ensures Interned(after, events + [e], objects + [s])
  {
  }

  lemma Canonical(m: map<Value, Entry>, created: nat, events: seq<Event>, objects: seq<Value>)
    requires OwnObjects(m, created) && Interned(m, events, objects)
    ensures forall i :: 0 <= i < |events| && events[i].Intern? ==>
      objects[i].Str? && objects[i].chars == events[i].chars
    ensures forall i, j :: 0 <= i < |events| && 0 <= j < |events| && events[i].Intern? && events[j].Intern? ==>
      (objects[i].ref == objects[j].ref <==> events[i].chars == events[j].chars)
  {
    forall i, j | 0 <= i < |events| && 0 <= j < |events| && events[i].Intern? && events[j].Intern?
      ensures objects[i].ref == objects[j].ref <==> events[i].chars == events[j].chars
    {
      var k, l := Str(0, events[i].chars), Str(0, events[j].chars);
      assert m[k].key == objects[i] && m[l].key == objects[j];
    }
  }
}
