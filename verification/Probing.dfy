/** The layout of the open-addressing hash table: where keys lie, and what a probe finds. */
module Probing {
  import opened Hashing

  /** Strings are objects: two may hold the same bytes.  Any other object equals nothing. */
  datatype Value =
    | Empty
    | Nil
    | Bool(b: bool)
    | Number(n: int)
    | Str(ref: nat, chars: seq<Byte>)
    | Other(ref: nat)

  datatype Entry = Entry(key: Value, value: Value)

  /** A slot that was never used, and a slot whose entry has been deleted. */
  const FREE := Entry(Empty, Nil)
  const TOMBSTONE := Entry(Empty, Bool(true))

  type NumberHash = int -> Word

  predicate ValueEqual(a: Value, b: Value) {
    match (a, b)
    case (Empty, Empty) => true
    case (Nil, Nil) => true
    case (Bool(x), Bool(y)) => x == y
    case (Number(x), Number(y)) => x == y
    case (Str(_, x), Str(_, y)) => x == y
    case _ => false
  }

  function HashValue(nh: NumberHash, v: Value): Word {
    match v
    case Bool(b) => if b then 3 else 5
    case Nil => 7
    case Number(n) => nh(n)
    case Str(_, chars) => Fnv(chars)
    case Other(ref) => ref % 0x1_0000_0000
    case Empty => 0
  }

  /** A key equal to itself; the empty value marks unused slots. */
  predicate IsKey(v: Value) {
    !v.Empty? && ValueEqual(v, v)
  }

  /** What keys are told apart by: strings by their bytes. */
  function Canon(v: Value): Value {
    if v.Str? then Str(0, v.chars) else v
  }

  /** Equal keys have equal hashes. */
  lemma EqualHashes(nh: NumberHash, a: Value, b: Value)
    requires IsKey(a)
    ensures ValueEqual(a, b) <==> Canon(a) == Canon(b)
    ensures ValueEqual(a, b) ==> HashValue(nh, a) == HashValue(nh, b) && IsKey(b)
  {
  }

  predicate Live(e: Entry) {
    !e.key.Empty?
  }

  predicate Holds(e: Entry, key: Value) {
    Live(e) && Canon(e.key) == Canon(key)
  }

  function Home(nh: NumberHash, key: Value, n: nat): (h: nat)
    requires n > 0
    ensures h < n
  {
    HashValue(nh, key) % n
  }

  /** The slots a probe from `h` passes before it comes to `i`. */
  predicate Arc(h: nat, j: nat, i: nat) {
    if h <= i then h <= j < i else h <= j || j < i
  }

  /** How many steps a probe takes from `i` to `s`. */
  function Steps(i: nat, s: nat, n: nat): nat
    requires i < n && s < n
  {
    if i <= s then s - i else s - i + n
  }

  function Next(i: nat, n: nat): (r: nat)
    requires i < n
    ensures r < n
  {
    if i + 1 == n then 0 else i + 1
  }

  // ----- layouts -----

  ghost predicate EntriesOk(es: seq<Entry>) {
    forall i :: 0 <= i < |es| ==> if Live(es[i]) then IsKey(es[i].key) else es[i] == FREE || es[i] == TOMBSTONE
  }

  ghost predicate Unique(es: seq<Entry>) {
    forall i, j :: 0 <= i < j < |es| && Live(es[i]) && Live(es[j]) ==> Canon(es[i].key) != Canon(es[j].key)
  }

  /** No never-used slot lies between a key's home and its position. */
  ghost predicate Reached(nh: NumberHash, es: seq<Entry>, i: nat)
    requires i < |es|
  {
    forall j :: 0 <= j < |es| && Arc(Home(nh, es[i].key, |es|), j, i) ==> es[j] != FREE
  }

  ghost predicate AllReached(nh: NumberHash, es: seq<Entry>) {
    forall i :: 0 <= i < |es| && Live(es[i]) ==> Reached(nh, es, i)
  }

  ghost predicate Layout(nh: NumberHash, es: seq<Entry>) {
    EntriesOk(es) && Unique(es) && AllReached(nh, es)
  }

  ghost predicate HasFree(es: seq<Entry>) {
    exists i :: 0 <= i < |es| && es[i] == FREE
  }

  ghost predicate Present(es: seq<Entry>, key: Value) {
    exists i :: 0 <= i < |es| && Holds(es[i], key)
  }

  ghost predicate NoTombs(es: seq<Entry>) {
    forall i :: 0 <= i < |es| && !Live(es[i]) ==> es[i] == FREE
  }

  /** A probe for a key ends only at a never-used slot or at the key. */
  predicate Stops(e: Entry, key: Value) {
    e == FREE || Holds(e, key)
  }

  /** What a probe finds: the key's entry; or, when the key is absent, the first slot on its way
      that has no key, a tombstone or not. */
  ghost predicate Finds(nh: NumberHash, es: seq<Entry>, key: Value, r: nat)
    requires r < |es|
  {
    if Present(es, key) then Holds(es[r], key)
    else !Live(es[r]) && forall j :: 0 <= j < |es| && Arc(Home(nh, key, |es|), j, r) ==> Live(es[j])
  }

  /** The entries by key. */
  ghost function Contents(es: seq<Entry>): (m: map<Value, Entry>)
    requires Unique(es)
  {
    map i | 0 <= i < |es| && Live(es[i]) :: Canon(es[i].key) := es[i]
  }

  /** A map is the contents when it agrees with every entry and has no other key. */
  ghost predicate Agrees(es: seq<Entry>, m: map<Value, Entry>) {
    && (forall i :: 0 <= i < |es| && Live(es[i]) ==> Canon(es[i].key) in m && m[Canon(es[i].key)] == es[i])
    && (forall k :: k in m ==> HasKey(es, k))
  }

  ghost predicate HasKey(es: seq<Entry>, k: Value) {
    exists i :: 0 <= i < |es| && Live(es[i]) && Canon(es[i].key) == k
  }

  lemma ContentsAgrees(es: seq<Entry>)
    requires Unique(es)
    ensures Agrees(es, Contents(es))
  {
  }

  lemma OnlyContents(es: seq<Entry>, m: map<Value, Entry>)
    requires Unique(es) && Agrees(es, m)
    ensures Contents(es) == m
  {
    var c := Contents(es);
    ContentsAgrees(es);
    hide Contents;
    assert forall k :: k in m ==> HasKey(es, k);
    assert forall k :: k in c ==> HasKey(es, k);
    assert c.Keys == m.Keys;
  }

  lemma ContentsHas(es: seq<Entry>, key: Value)
    requires Unique(es)
    ensures Canon(key) in Contents(es) <==> Present(es, key)
    ensures forall i :: 0 <= i < |es| && Holds(es[i], key) ==> Contents(es)[Canon(key)] == es[i]
  {
    hide Contents;
    ContentsAgrees(es);
  }

  /** Where a probe ends is determined. */
  lemma FindsOne(nh: NumberHash, es: seq<Entry>, key: Value, r: nat, s: nat)
    requires r < |es| && s < |es| && Unique(es) && Finds(nh, es, key, r) && Finds(nh, es, key, s)
    ensures r == s
  {
    if !Present(es, key) {
      var h := Home(nh, key, |es|);
      assert r != s ==> Arc(h, r, s) || Arc(h, s, r);
    }
  }

  // ----- updating a slot -----

  /** Writing an entry where the probe for its key ended. */
  lemma PutLayout(nh: NumberHash, es: seq<Entry>, key: Value, v: Value, r: nat)
    requires Layout(nh, es) && IsKey(key) && r < |es| && Finds(nh, es, key, r)
    ensures Layout(nh, es[r := Entry(key, v)])
  {
    var after := es[r := Entry(key, v)];
    PutUnique(nh, es, key, v, r);
    forall i | 0 <= i < |after| && Live(after[i])
      ensures Reached(nh, after, i)
    {
      if i != r {
        assert Reached(nh, es, i);
      } else if Present(es, key) {
        EqualHashes(nh, key, es[r].key);
        assert Reached(nh, es, r);
      }
    }
  }

  lemma PutUnique(nh: NumberHash, es: seq<Entry>, key: Value, v: Value, r: nat)
    requires Unique(es) && r < |es| && Finds(nh, es, key, r)
    ensures Unique(es[r := Entry(key, v)])
  {
  }

  lemma PutContents(nh: NumberHash, es: seq<Entry>, key: Value, v: Value, r: nat)
    requires Unique(es) && !key.Empty? && r < |es| && Finds(nh, es, key, r)
    ensures Unique(es[r := Entry(key, v)])
    ensures Contents(es[r := Entry(key, v)]) == Contents(es)[Canon(key) := Entry(key, v)]
    ensures Live(es[r]) <==> Canon(key) in Contents(es)
  {
    hide Contents;
    PutUnique(nh, es, key, v, r);
    ContentsHas(es, key);
    ContentsAgrees(es);
    var after, m := es[r := Entry(key, v)], Contents(es)[Canon(key) := Entry(key, v)];
    assert after[r] == Entry(key, v);
    forall k | k in m
      ensures HasKey(after, k)
    {
      if k != Canon(key) {
        var i :| 0 <= i < |es| && Live(es[i]) && Canon(es[i].key) == k;
        assert after[i] == es[i];
      }
    }
    OnlyContents(after, m);
  }

  /** Deleting a key leaves a tombstone, so that every other key is still reached. */
  lemma DeleteLayout(nh: NumberHash, es: seq<Entry>, r: nat)
    requires Layout(nh, es) && r < |es| && Live(es[r])
    ensures Layout(nh, es[r := TOMBSTONE])
  {
    var after := es[r := TOMBSTONE];
    forall i | 0 <= i < |after| && Live(after[i])
      ensures Reached(nh, after, i)
    {
      assert Reached(nh, es, i);
    }
  }

  lemma DeleteContents(es: seq<Entry>, r: nat)
    requires Unique(es) && r < |es| && Live(es[r])
    ensures Unique(es[r := TOMBSTONE])
    ensures Contents(es[r := TOMBSTONE]) == Contents(es) - {Canon(es[r].key)}
    ensures Canon(es[r].key) in Contents(es)
  {
    hide Contents;
    ContentsAgrees(es);
    var after, m := es[r := TOMBSTONE], Contents(es) - {Canon(es[r].key)};
    forall k | k in m
      ensures HasKey(after, k)
    {
      var i :| 0 <= i < |es| && Live(es[i]) && Canon(es[i].key) == k;
      assert after[i] == es[i];
    }
    OnlyContents(after, m);
  }

  // ----- counting -----

  lemma ContentsStep(es: seq<Entry>, i: nat)
    requires Unique(es) && i < |es|
    ensures Unique(es[..i]) && Unique(es[..i + 1])
    ensures Contents(es[..i + 1]) ==
      if Live(es[i]) then Contents(es[..i])[Canon(es[i].key) := es[i]] else Contents(es[..i])
    ensures Live(es[i]) ==> Canon(es[i].key) !in Contents(es[..i])
  {
    hide Contents;
    var before, after := es[..i], es[..i + 1];
    ContentsAgrees(before);
    var m := if Live(es[i]) then Contents(before)[Canon(es[i].key) := es[i]] else Contents(before);
    assert after[i] == es[i];
    forall k | k in m
      ensures HasKey(after, k)
    {
      if k in Contents(before) {
        var j :| 0 <= j < |before| && Live(before[j]) && Canon(before[j].key) == k;
        assert after[j] == before[j];
      }
    }
    OnlyContents(after, m);
  }

  lemma EmptyContents(es: seq<Entry>)
    ensures Unique(es[..0]) && Contents(es[..0]) == map[]
  {
  }

  lemma {:induction false} Size(es: seq<Entry>, n: nat)
    requires Unique(es) && n <= |es|
    ensures Unique(es[..n]) && |Contents(es[..n])| <= n
    ensures (forall i :: 0 <= i < n ==> Live(es[i])) ==> |Contents(es[..n])| == n
  {
    hide Contents, Unique;
    if n == 0 {
      EmptyContents(es);
    } else {
      Size(es, n - 1);
      ContentsStep(es, n - 1);
    }
  }

  /** Without tombstones, a table with fewer keys than slots has a never-used slot. */
  lemma FreeSlot(es: seq<Entry>)
    requires Unique(es) && NoTombs(es) && |Contents(es)| < |es|
    ensures HasFree(es)
  {
    Size(es, |es|);
    assert es[..|es|] == es;
    assert exists i :: 0 <= i < |es| && !Live(es[i]);
  }

  // ----- when a probe ends -----

  /** The slot a probe for a key looks at after `k` steps. */
  function Visited(h: nat, k: nat, n: nat): (i: nat)
    requires n > 0
    ensures i < n
  {
    (h + k) % n
  }

  /** A probe for a key ends if and only if the key is there or some slot was never used. */
  lemma ProbeEnds(nh: NumberHash, es: seq<Entry>, key: Value)
    requires |es| > 0
    ensures (exists k: nat :: Stops(es[Visited(Home(nh, key, |es|), k, |es|)], key))
      <==> HasFree(es) || Present(es, key)
  {
    var n, h := |es|, Home(nh, key, |es|);
    if HasFree(es) || Present(es, key) {
      var i :| 0 <= i < n && Stops(es[i], key);
      VisitsAll(h, i, n);
      assert Stops(es[Visited(h, Steps(h, i, n), n)], key);
    }
  }

  /** A probe comes to every slot. */
  lemma VisitsAll(h: nat, i: nat, n: nat)
    requires h < n && i < n
    ensures Visited(h, Steps(h, i, n), n) == i
  {
    if i < h {
      assert h + Steps(h, i, n) == i + n;
    }
  }

  // ----- the way of a probe -----

  /** The probe has passed the slots from `h` up to `i`; `t` is the first tombstone among them, or -1. */
  ghost predicate Passed(es: seq<Entry>, key: Value, h: nat, i: nat, t: int) {
    && -1 <= t < |es|
    && (forall j :: 0 <= j < |es| && Arc(h, j, i) ==> !Stops(es[j], key))
    && (if t == -1 then forall j :: 0 <= j < |es| && Arc(h, j, i) ==> Live(es[j])
        else Arc(h, t, i) && !Live(es[t]) && forall j :: 0 <= j < |es| && Arc(h, j, t) ==> Live(es[j]))
  }

  /** One step on, the slot where the probe will end is one step nearer. */
  lemma PassedOn(es: seq<Entry>, key: Value, h: nat, i: nat, s: nat, t: int)
    requires i < |es| && h < |es| && s < |es| && Passed(es, key, h, i, t)
    requires !Stops(es[i], key) && Stops(es[s], key) && !Arc(h, s, i)
    ensures Passed(es, key, h, Next(i, |es|), if !Live(es[i]) && t == -1 then i else t)
    ensures !Arc(h, s, Next(i, |es|))
    ensures Steps(Next(i, |es|), s, |es|) < Steps(i, s, |es|)
  {
    hide Stops, Live;
    assert s != i;
    assert Next(i, |es|) != h;
  }

  /** At a never-used slot the key is known to be absent. */
  lemma FoundFree(nh: NumberHash, es: seq<Entry>, key: Value, i: nat, t: int)
    requires i < |es| && Layout(nh, es) && IsKey(key) && es[i] == FREE
    requires Passed(es, key, Home(nh, key, |es|), i, t)
    ensures var r := if t != -1 then t else i; 0 <= r < |es| && Finds(nh, es, key, r)
  {
    var h := Home(nh, key, |es|);
    forall p | 0 <= p < |es|
      ensures !Holds(es[p], key)
    {
      EqualHashes(nh, key, es[p].key);
      assert Live(es[p]) ==> Reached(nh, es, p);
    }
  }
}
