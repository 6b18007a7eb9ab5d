/** The hash table: linear probing in an array whose size is a power of two. */
module HashTable {
  import opened Hashing
  import opened Probing

  const TABLE_MAX_LOAD := 75
  const TABLE_MIN_CAPACITY := 8
  const TABLE_GROWTH_FACTOR := 2

  /** The load in percent, above the limit for a table without slots. */
  function Load(count: nat, capacity: nat): nat {
    if capacity == 0 then TABLE_MAX_LOAD + 1 else 100 * count / capacity
  }

  function NextSize(capacity: nat): nat {
    if capacity < TABLE_MIN_CAPACITY then TABLE_MIN_CAPACITY else capacity * TABLE_GROWTH_FACTOR
  }

  ghost predicate CapacityOk(n: nat) {
    n == 0 || exists k :: k >= 3 && n == Pow2(k)
  }

  lemma NextCapacity(n: nat)
    requires CapacityOk(n)
    ensures CapacityOk(NextSize(n)) && NextSize(n) > n && NextSize(n) >= TABLE_MIN_CAPACITY
  {
    assert Pow2(3) == 8;
    if n > 0 {
      var k :| k >= 3 && n == Pow2(k);
      AtLeastEight(k);
      assert Pow2(k + 1) == 2 * n;
    }
  }

  lemma {:induction false} AtLeastEight(k: nat)
    requires k >= 3
    ensures Pow2(k) >= 8
  {
    if k > 3 {
      AtLeastEight(k - 1);
    } else {
      assert Pow2(3) == 8;
    }
  }

  lemma Mask(a: nat, n: nat)
    requires CapacityOk(n) && n > 0
    ensures And(a, n - 1) == a % n
  {
    var k :| k >= 3 && n == Pow2(k);
    MaskIsMod(a, k);
  }

  /** Up to the load limit, at least two slots hold no key. */
  lemma LoadLeavesRoom(count: nat, n: nat)
    requires CapacityOk(n) && Load(count, n) <= TABLE_MAX_LOAD
    ensures n >= 8 && count + 1 < n
  {
    var k :| k >= 3 && n == Pow2(k);
    AtLeastEight(k);
    Quotient(100 * count, n, TABLE_MAX_LOAD);
  }

  /** A table is due to grow when it has no slots, or when at least 76 in 100 of them hold keys; it starts with 8 slots
      and doubles. */
  lemma GrowsAt(count: nat, n: nat)
    requires CapacityOk(n)
    ensures Load(count, n) > TABLE_MAX_LOAD <==> n == 0 || 100 * count >= 76 * n
    ensures NextSize(n) == if n == 0 then 8 else 2 * n
  {
    if n > 0 {
      var k :| k >= 3 && n == Pow2(k);
      AtLeastEight(k);
      Above75(100 * count, n);
    }
  }

  lemma Above75(a: nat, n: nat)
    requires n > 0
    ensures a / n > 75 <==> a >= 76 * n
  {
    var q := a / n;
    assert q * n <= a;
    if q <= 75 {
      Quotient(a, n, 75);
    } else {
      assert q * n == 76 * n + (q - 76) * n;
    }
  }

  lemma Quotient(a: nat, n: nat, b: nat)
    requires n > 0 && a / n <= b
    ensures a < (b + 1) * n
  {
    assert (a / n) * n <= b * n;
  }

  class Table {
    const nh: NumberHash
    var count: nat
    var entries: array<Entry>

    ghost predicate Valid()
      reads this, entries
    {
      && CapacityOk(entries.Length)
      && Layout(nh, entries[..])
      && count == |Contents(entries[..])|
    }

    ghost function Map(): map<Value, Entry>
      requires Valid()
      reads this, entries
    {
      Contents(entries[..])
    }

    /** A probe for this key ends. */
    ghost predicate CanProbe(key: Value)
      reads this, entries
    {
      HasFree(entries[..]) || Present(entries[..], key)
    }

    constructor (nh: NumberHash)
      ensures Valid() && Map() == map[] && entries.Length == 0 && NoTombs(entries[..]) && this.nh == nh
      ensures fresh(entries)
    {
      this.nh, count := nh, 0;
      entries := new Entry[0];
    }

    /** Walk from the key's home slot until a never-used slot or the key itself; a tombstone on the
        way is what an absent key gets. */
    static method FindEntry(nh: NumberHash, es: array<Entry>, key: Value) returns (r: nat)
      requires CapacityOk(es.Length) && Layout(nh, es[..]) && IsKey(key)
      requires HasFree(es[..]) || Present(es[..], key)
      ensures r < es.Length && Finds(nh, es[..], key, r)
    {
      hide Arc, Steps, And, CapacityOk, Finds, Layout, Passed, Stops, Holds, Home, HashValue;
      ghost var view := es[..];
      ghost var s, h := StopSlot(view, key), Home(nh, key, |view|);
      HomeMasked(nh, key, es.Length);
      var i: nat := And(HashValue(nh, key), es.Length - 1);
      var tombstone: int := -1;
      NotPassed(view, key, h, s);
      while true
        invariant i < es.Length && !Arc(h, s, i)
        invariant Passed(view, key, h, i, tombstone)
        decreases Steps(i, s, es.Length)
      {
        StopsIff(nh, view, key, i);
        if es[i].key.Empty? {
          if es[i].value.Nil? {
            FoundFree(nh, view, key, i, tombstone);
            return if tombstone != -1 then tombstone else i;
          }
        } else if ValueEqual(key, es[i].key) {
          return i;
        }
        PassedOn(view, key, h, i, s, tombstone);
        if es[i].key.Empty? && tombstone == -1 {
          tombstone := i;
        }
        NextMasked(i, es.Length);
        i := And(i + 1, es.Length - 1);
      }
    }

    /** Move to a larger array, where every key is placed anew and no tombstone is left. */
    method AdjustCapacity()
      requires Valid()
      modifies this
      ensures Valid() && Map() == old(Map()) && NoTombs(entries[..]) && HasFree(entries[..])
      ensures fresh(entries) && entries.Length == NextSize(old(entries.Length)) && count <= old(entries.Length)
    {
      hide Layout, Contents, CapacityOk, Unique, HasFree;
      NextCapacity(entries.Length);
      var capacity := NextSize(entries.Length);
      var es := new Entry[capacity](_ => FREE);
      ghost var all := entries[..];
      AllFree(nh, es[..]);
      SizeBound(nh, all, 0);
      assert all[..0] == [];
      count := 0;
      for i := 0 to entries.Length
        invariant entries == old(entries) && all == entries[..]
        invariant Layout(nh, es[..]) && NoTombs(es[..]) && Unique(es[..]) && Unique(all[..i])
        invariant Contents(es[..]) == Contents(all[..i]) && count == |Contents(es[..])|
      {
        SizeBound(nh, all, i);
        ContentsStep(all, i);
        if Live(entries[i]) {
          FreeSlot(es[..]);
          Place(es, entries[i]);
          count := count + 1;
        }
      }
      assert all[..entries.Length] == all;
      SizeBound(nh, all, entries.Length);
      FreeSlot(es[..]);
      entries := es;
    }

    /** Copy an entry into a table that does not have its key. */
    method Place(es: array<Entry>, e: Entry)
      requires CapacityOk(es.Length) && Layout(nh, es[..]) && NoTombs(es[..]) && HasFree(es[..])
      requires IsKey(e.key) && Canon(e.key) !in Contents(es[..])
      modifies es
      ensures Layout(nh, es[..]) && NoTombs(es[..]) && Unique(es[..])
      ensures Contents(es[..]) == old(Contents(es[..]))[Canon(e.key) := e]
    {
      hide Contents, CapacityOk, HasFree;
      ghost var before := es[..];
      var dest := FindEntry(nh, es, e.key);
      es[dest] := e;
      PutLayout(nh, before, e.key, e.value, dest);
      PutContents(nh, before, e.key, e.value, dest);
      assert es[..] == before[dest := Entry(e.key, e.value)];
    }

    /** Bind a key, and say whether it is new. */
    method Set(key: Value, value: Value) returns (isNew: bool)
      requires Valid() && IsKey(key)
      requires Load(count, entries.Length) > TABLE_MAX_LOAD || CanProbe(key)
      modifies this, entries
      ensures Valid() && Map() == old(Map())[Canon(key) := Entry(key, value)]
      ensures isNew <==> Canon(key) !in old(Map())
      ensures old(NoTombs(entries[..])) ==> NoTombs(entries[..]) && HasFree(entries[..])
      ensures if old(Load(count, entries.Length)) > TABLE_MAX_LOAD
              then fresh(entries) && entries.Length == NextSize(old(entries.Length)) && NoTombs(entries[..])
              else entries == old(entries) && SetStep(nh, old(entries[..]), entries[..], key, value)
    {
      hide Contents, CapacityOk, HasFree, Layout, Unique, Finds;
      var load := Load(count, entries.Length);
      if load > TABLE_MAX_LOAD {
        AdjustCapacity();
      }
      ghost var before := entries[..];
      var r := FindEntry(nh, entries, key);
      SetLemma(nh, before, key, value, r);
      if NoTombs(before) {
        StaysFree(before, before[r := Entry(key, value)], old(entries.Length));
      }
      isNew := entries[r].key.Empty?;
      entries[r] := Entry(key, value);
      assert entries[..] == before[r := Entry(key, value)];
      if isNew {
        count := count + 1;
      }
    }

    /** The value bound to a key. */
    method Get(key: Value) returns (found: bool, value: Value)
      requires Valid() && IsKey(key) && (count == 0 || CanProbe(key))
      ensures found <==> Canon(key) in Map()
      ensures found ==> value == Map()[Canon(key)].value
    {
      if count == 0 {
        return false, Nil;
      }
      ghost var view := entries[..];
      var r := FindEntry(nh, entries, key);
      FoundEntry(nh, view, key, r);
      if entries[r].key.Empty? {
        return false, Nil;
      }
      return true, entries[r].value;
    }

    /** Unbind a key, and say whether it was bound. */
    method Delete(key: Value) returns (found: bool)
      requires Valid() && IsKey(key) && (count == 0 || CanProbe(key))
      modifies this`count, entries
      ensures Valid() && Map() == old(Map()) - {Canon(key)} && found == (Canon(key) in old(Map()))
      ensures HasFree(entries[..]) == old(HasFree(entries[..]))
      ensures !found ==> entries[..] == old(entries[..])
      ensures found ==> DeleteStep(old(entries[..]), entries[..], key)
    {
      hide Contents, Layout, Unique, CapacityOk, HasFree;
      if count == 0 {
        return false;
      }
      ghost var before := entries[..];
      var r := FindEntry(nh, entries, key);
      FoundEntry(nh, before, key, r);
      if entries[r].key.Empty? {
        return false;
      }
      DeleteLayout(nh, before, r);
      DeleteContents(before, r);
      DeleteKeeps(before, key, r);
      count := count - 1;
      entries[r] := TOMBSTONE;
      assert entries[..] == before[r := TOMBSTONE];
      return true;
    }

    /** Where nothing is ever deleted, the load limit keeps every probe finite. */
    lemma InsertOnly(key: Value)
      requires Valid() && NoTombs(entries[..])
      ensures Load(count, entries.Length) > TABLE_MAX_LOAD || CanProbe(key)
    {
      if Load(count, entries.Length) <= TABLE_MAX_LOAD {
        LoadLeavesRoom(count, entries.Length);
        FreeSlot(entries[..]);
      }
    }

    /** Bind in `to` everything that is bound here.  If keys have been deleted from `to`, it needs a never-used
        slot for each new one, or a probe may not end. */
    method AddAll(to: Table)
      requires Valid() && to.Valid()
      requires NoTombs(to.entries[..]) || Frees(to.entries[..]) >= Lives(entries[..])
      requires to != this ==> to.entries != entries
      modifies to, to.entries
      ensures to != this ==> unchanged(this) && unchanged(entries)
      ensures Valid() && to.Valid()
      ensures old(NoTombs(to.entries[..])) ==> NoTombs(to.entries[..])
      ensures to.Map() == old(to.Map()) + old(Map())
    {
      hide Contents, Layout, Unique, CapacityOk, HasFree, NoTombs, Frees, Lives;
      ghost var all, before := entries[..], to.Map();
      if to == this {
        assert before + before == before;
        return;
      }
      SizeBound(nh, all, 0);
      LivesNone(all);
      for i := 0 to entries.Length
        invariant unchanged(this) && unchanged(entries) && to.entries != entries
        invariant to.entries == old(to.entries) || fresh(to.entries)
        invariant to.Valid() && Unique(all[..i])
        invariant NoTombs(to.entries[..]) || Frees(to.entries[..]) + Lives(all[..i]) >= Lives(all)
        invariant old(NoTombs(to.entries[..])) ==> NoTombs(to.entries[..])
        invariant to.Map() == before + Contents(all[..i])
      {
        SizeBound(nh, all, i);
        ContentsStep(all, i);
        LivesStep(all, i);
        if !entries[i].key.Empty? {
          to.MayInsert(entries[i].key);
          PlusOne(before, Contents(all[..i]), Canon(all[i].key), all[i]);
          to.SetOne(entries[i].key, entries[i].value);
        }
      }
      assert all[..entries.Length] == all;
    }

    lemma MayInsert(key: Value)
      requires Valid() && (NoTombs(entries[..]) || Frees(entries[..]) > 0)
      ensures Load(count, entries.Length) > TABLE_MAX_LOAD || CanProbe(key)
    {
      hide Layout, Contents, CapacityOk;
      if NoTombs(entries[..]) { InsertOnly(key); } else { FreesHas(entries[..]); }
    }

    /** One insertion uses up at most one never-used slot. */
    method SetOne(key: Value, value: Value)
      requires Valid() && IsKey(key)
      requires Load(count, entries.Length) > TABLE_MAX_LOAD || CanProbe(key)
      modifies this, entries
      ensures Valid() && Map() == old(Map())[Canon(key) := Entry(key, value)]
      ensures entries == old(entries) || fresh(entries)
      ensures old(NoTombs(entries[..])) ==> NoTombs(entries[..])
      ensures NoTombs(entries[..]) || Frees(entries[..]) + 1 >= old(Frees(entries[..]))
    {
      hide Layout, Contents, CapacityOk, HasFree, NoTombs, Frees;
      ghost var before, load := entries[..], Load(count, entries.Length);
      var _ := Set(key, value);
      if load <= TABLE_MAX_LOAD {
        var r :| 0 <= r < |before| && entries[..] == before[r := Entry(key, value)];
        FreesUpdate(before, r, Entry(key, value));
      }
    }

    /** The string object with these bytes.  The probe ends at any slot without a string, so it needs
        a table of strings without tombstones. */
    method FindString(chars: seq<Byte>, hash: Word) returns (found: bool, object_: Value)
      requires Valid() && hash == Fnv(chars)
      requires StringsOnly(entries[..]) && NoTombs(entries[..]) && (count == 0 || HasFree(entries[..]))
      ensures found <==> Str(0, chars) in Map()
      ensures found ==> object_ == Map()[Str(0, chars)].key
    {
      hide Arc, Steps, And, CapacityOk, Finds, Layout, Passed, Stops, Contents, Home;
      if count == 0 {
        return false, Nil;
      }
      ghost var view, key := entries[..], Str(0, chars);
      ghost var s, h := StopSlot(view, key), Home(nh, key, |view|);
      HomeMasked(nh, key, entries.Length);
      var i: nat := And(hash, entries.Length - 1);
      NotPassed(view, key, h, s);
      while true
        invariant i < entries.Length && !Arc(h, s, i) && Passed(view, key, h, i, -1)
        decreases Steps(i, s, entries.Length)
      {
        StopsIff(nh, view, key, i);
        assert view[i] == entries[i];
        if entries[i].key.Empty? || !entries[i].key.Str? {
          FoundFree(nh, view, key, i, -1);
          FoundEntry(nh, view, key, i);
          return false, Nil;
        }
        if entries[i].key.chars == chars {
          FoundEntry(nh, view, key, i);
          return true, entries[i].key;
        }
        PassedOn(view, key, h, i, s, -1);
        NextMasked(i, entries.Length);
        i := And(i + 1, entries.Length - 1);
      }
    }

    /** Delete every key that is an object outside `marked`. */
    method RemoveWhite(marked: set<nat>)
      requires Valid()
      modifies this`count, entries
      ensures Valid()
      ensures forall j :: 0 <= j < entries.Length ==>
        entries[j] == if White(old(entries[j]).key, marked) then TOMBSTONE else old(entries[j])
    {
      hide Contents, Layout, CapacityOk, HasFree;
      ghost var before := entries[..];
      SizeBound(nh, before, 0);
      for i := 0 to entries.Length
        invariant Valid() && Unique(entries[..])
        invariant forall j :: 0 <= j < i ==> entries[j] == if White(before[j].key, marked) then TOMBSTONE else before[j]
        invariant forall j :: i <= j < entries.Length ==> entries[j] == before[j]
      {
        if White(entries[i].key, marked) {
          ghost var now := entries[..];
          assert now[i] == before[i];
          assert Holds(now[i], now[i].key);
          SizeBound(nh, now, i);
          ContentsHas(now, now[i].key);
          var _ := Delete(entries[i].key);
          DeletedAt(now, entries[..], i);
        }
      }
    }
  }

  /** A slot that ends the probe. */
  ghost function StopSlot(es: seq<Entry>, key: Value): (s: nat)
    requires HasFree(es) || Present(es, key)
    ensures s < |es| && Stops(es[s], key)
  {
    var s :| 0 <= s < |es| && Stops(es[s], key);
    s
  }

  lemma HomeMasked(nh: NumberHash, key: Value, n: nat)
    requires CapacityOk(n) && n > 0
    ensures And(HashValue(nh, key), n - 1) == Home(nh, key, n)
  {
    Mask(HashValue(nh, key), n);
  }

  lemma NextMasked(i: nat, n: nat)
    requires CapacityOk(n) && i < n
    ensures And(i + 1, n - 1) == Next(i, n)
  {
    hide And, CapacityOk;
    Mask(i + 1, n);
    if i + 1 < n {
      assert (i + 1) % n == i + 1;
    } else {
      assert n % n == 0;
    }
  }

  /** What the tests in the loop decide. */
  lemma StopsIff(nh: NumberHash, es: seq<Entry>, key: Value, i: nat)
    requires Layout(nh, es) && IsKey(key) && i < |es|
    ensures es[i].key.Empty? ==> (es[i].value.Nil? <==> Stops(es[i], key)) && (es[i].value.Nil? ==> es[i] == FREE)
    ensures !es[i].key.Empty? ==> (ValueEqual(key, es[i].key) <==> Stops(es[i], key))
    ensures !es[i].key.Empty? && ValueEqual(key, es[i].key) ==> Finds(nh, es, key, i)
  {
    EqualHashes(nh, key, es[i].key);
  }

  lemma NotPassed(es: seq<Entry>, key: Value, h: nat, s: nat)
    ensures Passed(es, key, h, h, -1) && !Arc(h, s, h)
  {
  }

  lemma AllFree(nh: NumberHash, es: seq<Entry>)
    requires forall i :: 0 <= i < |es| ==> es[i] == FREE
    ensures Layout(nh, es) && NoTombs(es) && Unique(es) && Contents(es) == map[]
  {
  }

  lemma SizeBound(nh: NumberHash, es: seq<Entry>, i: nat)
    requires Layout(nh, es) && i <= |es|
    ensures Unique(es) && Unique(es[..i]) && |Contents(es[..i])| <= i
    ensures i == 0 ==> Contents(es[..i]) == map[]
    ensures i < |es| && Live(es[i]) ==> IsKey(es[i].key)
  {
    Size(es, i);
  }

  /** What `Set` does to the slots when the table does not grow. */
  ghost predicate SetStep(nh: NumberHash, es: seq<Entry>, after: seq<Entry>, key: Value, value: Value) {
    exists r :: 0 <= r < |es| && Finds(nh, es, key, r) && after == es[r := Entry(key, value)]
  }

  lemma SetLemma(nh: NumberHash, es: seq<Entry>, key: Value, value: Value, r: nat)
    requires Layout(nh, es) && IsKey(key) && r < |es| && Finds(nh, es, key, r)
    ensures var after := es[r := Entry(key, value)];
      && Layout(nh, after) && Unique(es) && Unique(after)
      && Contents(after) == Contents(es)[Canon(key) := Entry(key, value)]
      && (Live(es[r]) <==> Canon(key) in Contents(es))
      && |Contents(after)| == |Contents(es)| + (if Live(es[r]) then 0 else 1)
      && SetStep(nh, es, after, key, value)
      && (NoTombs(es) ==> NoTombs(after))
  {
    hide Contents;
    PutLayout(nh, es, key, value, r);
    PutContents(nh, es, key, value, r);
  }

  lemma FoundEntry(nh: NumberHash, es: seq<Entry>, key: Value, r: nat)
    requires Layout(nh, es) && IsKey(key) && r < |es| && Finds(nh, es, key, r)
    ensures Unique(es)
    ensures Live(es[r]) <==> Canon(key) in Contents(es)
    ensures Live(es[r]) ==> Holds(es[r], key) && Contents(es)[Canon(key)] == es[r]
  {
    ContentsHas(es, key);
  }

  ghost predicate DeleteStep(es: seq<Entry>, after: seq<Entry>, key: Value) {
    exists r :: 0 <= r < |es| && Holds(es[r], key) && after == es[r := Entry(Empty, Bool(true))]
  }

  lemma DeleteKeeps(es: seq<Entry>, key: Value, r: nat)
    requires r < |es| && Holds(es[r], key)
    ensures HasFree(es[r := TOMBSTONE]) == HasFree(es) && DeleteStep(es, es[r := TOMBSTONE], key)
  {
    var after := es[r := TOMBSTONE];
    if HasFree(es) {
      var i :| 0 <= i < |es| && es[i] == FREE;
      assert after[i] == FREE;
    }
    if HasFree(after) {
      var i :| 0 <= i < |es| && after[i] == FREE;
      assert es[i] == FREE;
    }
  }

  predicate White(key: Value, marked: set<nat>) {
    (key.Str? || key.Other?) && key.ref !in marked
  }

  ghost predicate StringsOnly(es: seq<Entry>) {
    forall i :: 0 <= i < |es| && Live(es[i]) ==> es[i].key.Str?
  }

  lemma DeletedAt(es: seq<Entry>, after: seq<Entry>, i: nat)
    requires i < |es| && Live(es[i]) && Unique(es) && DeleteStep(es, after, es[i].key)
    ensures after == es[i := TOMBSTONE]
  {
  }

  /** Inserting at most one key after the load test leaves a never-used slot. */
  lemma StaysFree(es: seq<Entry>, after: seq<Entry>, n: nat)
    requires Unique(es) && Unique(after) && |after| == |es| && |Contents(after)| <= |Contents(es)| + 1
    requires NoTombs(after) && CapacityOk(n)
    requires if |es| == n then Load(|Contents(es)|, n) <= TABLE_MAX_LOAD
             else |es| == NextSize(n) && |Contents(es)| <= n
    ensures HasFree(after)
  {
    hide Contents, Unique;
    if |es| == n {
      LoadLeavesRoom(|Contents(es)|, n);
    } else {
      NextCapacity(n);
    }
    FreeSlot(after);
  }

  lemma PlusOne(m: map<Value, Entry>, c: map<Value, Entry>, k: Value, e: Entry)
    ensures (m + c)[k := e] == m + c[k := e]
  {
  }

  // ----- what deletions can do -----

  datatype Op = Set(key: Value, value: Value) | Delete(key: Value)

  /** An operation on a table that is not due to grow. */
  ghost predicate Step(nh: NumberHash, op: Op, es: seq<Entry>, after: seq<Entry>) {
    match op
    case Set(key, value) =>
      && IsKey(key) && Unique(es) && Load(|Contents(es)|, |es|) <= TABLE_MAX_LOAD
      && SetStep(nh, es, after, key, value)
    case Delete(key) => IsKey(key) && DeleteStep(es, after, key)
  }

  /** A run from a table of the least capacity that has never been used. */
  ghost predicate RunTo(nh: NumberHash, ops: seq<Op>, es: seq<Entry>) {
    if ops == [] then es == seq(TABLE_MIN_CAPACITY, _ => FREE)
    else
      var before, last := ops[..|ops| - 1], ops[|ops| - 1];
      exists mid: seq<Entry> :: RunTo(nh, before, mid) && Step(nh, last, mid, es)
  }

  /** Slots used up from the left. */
  function UsedUp(k: nat): (es: seq<Entry>)
    requires k <= TABLE_MIN_CAPACITY
    ensures |es| == TABLE_MIN_CAPACITY
  {
    seq(TABLE_MIN_CAPACITY, i => if i < k then TOMBSTONE else FREE)
  }

  /** One-byte strings whose hashes are 0, 1, ... 7 modulo 8. */
  const SPREAD: seq<Byte> := [0x35, 0x36, 0x33, 0x34, 0x31, 0x32, 0x37, 0x30]

  function Digit(k: nat): Value
    requires k < 8
  {
    Str(k, [SPREAD[k]])
  }

  /** Exclusive or works on the low three bits by themselves. */
  lemma LowXor(a: nat, b: nat)
    ensures Xor(a, b) % 8 == (a % 2 + b % 2) % 2 + 2 * ((a / 2 % 2 + b / 2 % 2) % 2)
      + 4 * ((a / 4 % 2 + b / 4 % 2) % 2)
  {
    hide Xor;
    XorBits(a, b);
    XorBits(a / 2, b / 2);
    XorBits(a / 4, b / 4);
    assert a / 2 / 2 == a / 4 && b / 2 / 2 == b / 4;
    ThreeBits((a % 2 + b % 2) % 2, (a / 2 % 2 + b / 2 % 2) % 2, (a / 4 % 2 + b / 4 % 2) % 2,
      Xor(a / 4 / 2, b / 4 / 2));
  }

  lemma ThreeBits(x: nat, y: nat, z: nat, rest: nat)
    requires x < 2 && y < 2 && z < 2
    ensures (x + 2 * (y + 2 * (z + 2 * rest))) % 8 == x + 2 * y + 4 * z
  {
    assert x + 2 * (y + 2 * (z + 2 * rest)) == 8 * rest + (x + 2 * y + 4 * z);
  }

  /** The low three bits of a one-byte string's hash. */
  lemma LowHash(b: Byte)
    ensures Fnv([b]) % 8 == Xor(FNV_OFFSET_BASIS, b) % 8 * 3 % 8
  {
    hide Xor;
    OneByte(b);
    var x := Xor(FNV_OFFSET_BASIS, b);
    var q, r := x / 8, x % 8;
    assert x * FNV_PRIME == 8 * (q * FNV_PRIME + r * 0x200032) + r * 3;
    var w := x * FNV_PRIME;
    assert w % 0x1_0000_0000 == w - 0x1_0000_0000 * (w / 0x1_0000_0000);
    LowBits(w, w / 0x1_0000_0000 * 0x2000_0000);
    LowBits(r * 3, -(q * FNV_PRIME + r * 0x200032));
  }

  lemma LowBits(a: int, k: int)
    ensures (a - 8 * k) % 8 == a % 8
  {
  }

  /** The home slot of each of these strings in a table of the least capacity. */
  lemma DigitHome(nh: NumberHash, k: nat)
    requires k < TABLE_MIN_CAPACITY
    ensures Home(nh, Digit(k), TABLE_MIN_CAPACITY) == k
  {
    hide Xor, Fnv;
    LowXor(FNV_OFFSET_BASIS, SPREAD[k]);
    LowHash(SPREAD[k]);
    assert SPREAD[k] == if k == 0 then 0x35 else if k == 1 then 0x36 else if k == 2 then 0x33
      else if k == 3 then 0x34 else if k == 4 then 0x31 else if k == 5 then 0x32 else if k == 6 then 0x37 else 0x30;
  }

  /** Tombstones are not counted in the load: binding and unbinding one string after the other uses up
      every slot of a table that is never due to grow, and the next probe for an absent key does not
      end.  This needs no particular hash of numbers. */
  lemma SlotsRunOut(nh: NumberHash, key: Value)
    ensures exists ops :: RunTo(nh, ops, UsedUp(TABLE_MIN_CAPACITY))
    ensures !HasFree(UsedUp(TABLE_MIN_CAPACITY))
    ensures forall k: nat :: !Stops(UsedUp(TABLE_MIN_CAPACITY)[Visited(Home(nh, key, 8), k, 8)], key)
  {
    var _ := UsingUp(nh, TABLE_MIN_CAPACITY);
  }

  lemma {:induction false} UsingUp(nh: NumberHash, k: nat) returns (ops: seq<Op>)
    requires k <= TABLE_MIN_CAPACITY
    ensures RunTo(nh, ops, UsedUp(k))
    decreases k
  {
    if k == 0 {
      ops := [];
      assert UsedUp(0) == seq(TABLE_MIN_CAPACITY, _ => FREE);
    } else {
      var before := UsingUp(nh, k - 1);
      var key := Digit(k - 1);
      var bind, unbind := Set(key, Nil), Delete(key);
      var mid := UsedUp(k - 1)[k - 1 := Entry(key, Nil)];
      UseOne(nh, k - 1);
      Extend(nh, before, bind, UsedUp(k - 1), mid);
      Extend(nh, before + [bind], unbind, mid, UsedUp(k));
      ops := before + [bind] + [unbind];
    }
  }

  lemma Extend(nh: NumberHash, ops: seq<Op>, op: Op, mid: seq<Entry>, es: seq<Entry>)
    requires RunTo(nh, ops, mid) && Step(nh, op, mid, es)
    ensures RunTo(nh, ops + [op], es)
  {
    assert (ops + [op])[..|ops + [op]| - 1] == ops;
  }

  lemma UseOne(nh: NumberHash, k: nat)
    requires k < TABLE_MIN_CAPACITY
    ensures var mid := UsedUp(k)[k := Entry(Digit(k), Nil)];
      Step(nh, Set(Digit(k), Nil), UsedUp(k), mid) && Step(nh, Delete(Digit(k)), mid, UsedUp(k + 1))
  {
    hide Home;
    var es, key := UsedUp(k), Digit(k);
    var mid := es[k := Entry(key, Nil)];
    assert Contents(es) == map[];
    DigitHome(nh, k);
    assert Finds(nh, es, key, k);
    assert SetStep(nh, es, mid, key, Nil);
    assert Holds(mid[k], key) && UsedUp(k + 1) == mid[k := TOMBSTONE];
  }

  // ----- counting slots -----

  ghost function Lives(es: seq<Entry>): nat {
    if es == [] then 0 else Lives(es[..|es| - 1]) + if Live(es[|es| - 1]) then 1 else 0
  }

  ghost function Frees(es: seq<Entry>): nat {
    if es == [] then 0 else Frees(es[..|es| - 1]) + if es[|es| - 1] == FREE then 1 else 0
  }

  lemma LivesNone(es: seq<Entry>)
    ensures Lives(es[..0]) == 0
  {
  }

  lemma LivesStep(es: seq<Entry>, i: nat)
    requires i < |es|
    ensures Lives(es[..i + 1]) == Lives(es[..i]) + (if Live(es[i]) then 1 else 0)
    ensures Lives(es[..i + 1]) <= Lives(es)
  {
    assert es[..i + 1][..i] == es[..i];
    LivesGrow(es, i + 1);
  }

  lemma {:induction false} LivesGrow(es: seq<Entry>, i: nat)
    requires i <= |es|
    ensures Lives(es[..i]) <= Lives(es)
    decreases |es|
  {
    if i == |es| {
      assert es[..i] == es;
    } else {
      assert es[..|es| - 1][..i] == es[..i];
      LivesGrow(es[..|es| - 1], i);
    }
  }

  lemma {:induction false} FreesHas(es: seq<Entry>)
    requires Frees(es) > 0
    ensures HasFree(es)
    decreases |es|
  {
    var init := es[..|es| - 1];
    if es[|es| - 1] != FREE {
      FreesHas(init);
      var i :| 0 <= i < |init| && init[i] == FREE;
      assert es[i] == FREE;
    }
  }

  lemma {:induction false} FreesUpdate(es: seq<Entry>, r: nat, e: Entry)
    requires r < |es|
    ensures Frees(es[r := e]) + 1 >= Frees(es)
    decreases |es|
  {
    var init := es[..|es| - 1];
    if r == |es| - 1 {
      assert es[r := e][..|es| - 1] == init;
    } else {
      assert es[r := e][..|es| - 1] == init[r := e];
      FreesUpdate(init, r, e);
    }
  }
}
