/** How nested function compilers address the variables of the functions around them. */
module Lexical {
  import opened Bytecode
  import opened Values

  /** A local; its level is -1 until its initializer has been compiled. */
  datatype Local = Local(name: string, level: int, captured: bool)

  /** An upvalue of a function: a local of the enclosing function, or one of its upvalues. */
  datatype Entry = Entry(isLocal: bool, index: nat)

  /** What is compiled of one function; a chain lists the innermost function first. */
  datatype Level = Level(locals: seq<Local>, upvalues: seq<Entry>)

  /** A local of the function `depth` levels out. */
  datatype Place = Place(depth: nat, slot: nat)

  /** The outcome of a lookup: the chain after it, the index found or -1, whether a function had no
      room for the variable, and whether the variable is not initialized yet. */
  datatype Resolution = Resolution(chain: seq<Level>, index: int, full: bool, early: bool)

  // ----- looking up a name -----

  predicate Declares(l: Level, x: string) {
    exists i :: 0 <= i < |l.locals| && l.locals[i].name == x
  }

  /** The newest local of a name, or -1. */
  function Newest(locals: seq<Local>, x: string): (r: int)
    ensures -1 <= r < |locals|
    ensures r >= 0 ==> locals[r].name == x
    ensures forall i :: r < i < |locals| ==> locals[i].name != x
  {
    if locals == [] then -1
    else if locals[|locals| - 1].name == x then |locals| - 1
    else Newest(locals[..|locals| - 1], x)
  }

  function IndexOf(upvalues: seq<Entry>, e: Entry): (r: nat)
    ensures r <= |upvalues|
    ensures forall i :: 0 <= i < r ==> upvalues[i] != e
    ensures r < |upvalues| ==> upvalues[r] == e
  {
    if upvalues == [] || upvalues[0] == e then 0 else 1 + IndexOf(upvalues[1..], e)
  }

  /** Give a function an upvalue, unless it has it already or has 256 others. */
  function AddEntry(upvalues: seq<Entry>, e: Entry): (r: (seq<Entry>, nat, bool)) {
    var i := IndexOf(upvalues, e);
    if i < |upvalues| then (upvalues, i, false)
    else if |upvalues| > UINT8_MAX then (upvalues, 0, true)
    else (upvalues + [e], |upvalues|, false)
  }

  function MarkCaptured(l: Level, slot: nat): Level
    requires slot < |l.locals|
  {
    l.(locals := l.locals[slot := l.locals[slot].(captured := true)])
  }

  /** The upvalue of the innermost function for a name declared further out. */
  function ResolveUp(chain: seq<Level>, x: string): (r: Resolution)
    requires chain != []
    ensures |r.chain| == |chain|
    decreases |chain|
  {
    if |chain| == 1 then Resolution(chain, -1, false, false)
    else
      var slot := Newest(chain[1].locals, x);
      if slot >= 0 then
        var (upvalues, i, full) := AddEntry(chain[0].upvalues, Entry(true, slot));
        Resolution([chain[0].(upvalues := upvalues), MarkCaptured(chain[1], slot)] + chain[2..], i, full,
          chain[1].locals[slot].level == -1)
      else
        var outer := ResolveUp(chain[1..], x);
        if outer.index < 0 then Resolution([chain[0]] + outer.chain, -1, outer.full, outer.early)
        else
          var (upvalues, i, full) := AddEntry(chain[0].upvalues, Entry(false, outer.index));
          Resolution([chain[0].(upvalues := upvalues)] + outer.chain, i, full || outer.full, outer.early)
  }

  // ----- what an upvalue index means -----

  function Outward(p: Option<Place>): Option<Place> {
    match p
    case None => None
    case Some(q) => Some(Place(q.depth + 1, q.slot))
  }

  /** The local that an upvalue of the innermost function leads to. */
  function Follow(chain: seq<Level>, i: nat): Option<Place>
    decreases |chain|
  {
    if |chain| < 2 || i >= |chain[0].upvalues| then None
    else
      var e := chain[0].upvalues[i];
      if !e.isLocal then Outward(Follow(chain[1..], e.index))
      else if e.index < |chain[1].locals| then Some(Place(1, e.index))
      else None
  }

  /** The newest local of a name in the nearest enclosing function that declares one. */
  ghost predicate IsNearest(chain: seq<Level>, x: string, p: Place) {
    && 1 <= p.depth < |chain| && p.slot == Newest(chain[p.depth].locals, x)
    && forall d :: 1 <= d < p.depth ==> !Declares(chain[d], x)
  }

  // ----- chains in use -----

  /** Upvalue lists without duplicates, whose entries lead to captured locals or to upvalues of the
      next function out. */
  ghost predicate EntryOk(e: Entry, outer: Level) {
    if e.isLocal then e.index < |outer.locals| && outer.locals[e.index].captured
    else e.index < |outer.upvalues|
  }

  ghost predicate LevelOk(l: Level) {
    && |l.locals| <= UINT8_MAX + 1 && |l.upvalues| <= UINT8_MAX + 1
    && forall i, j :: 0 <= i < j < |l.upvalues| ==> l.upvalues[i] != l.upvalues[j]
  }

  ghost predicate EntriesOk(l: Level, outer: Level) {
    forall i :: 0 <= i < |l.upvalues| ==> EntryOk(l.upvalues[i], outer)
  }

  ghost predicate WellLinked(chain: seq<Level>)
    decreases |chain|
  {
    && chain != [] && LevelOk(chain[0])
    && if |chain| == 1 then chain[0].upvalues == []
       else EntriesOk(chain[0], chain[1]) && WellLinked(chain[1..])
  }

  /** Nothing is forgotten: entries stay as they are, and locals only become captured. */
  ghost predicate LevelGrows(l: Level, m: Level) {
    && l.upvalues <= m.upvalues && |l.locals| == |m.locals|
    && forall i :: 0 <= i < |l.locals| ==>
         m.locals[i] == l.locals[i] || m.locals[i] == l.locals[i].(captured := true)
  }

  ghost predicate Grows(chain: seq<Level>, after: seq<Level>) {
    |chain| == |after| && forall d :: 0 <= d < |chain| ==> LevelGrows(chain[d], after[d])
  }

  // ----- lexical addressing -----

  lemma AddEntryOk(l: Level, e: Entry, outer: Level)
    requires LevelOk(l) && EntriesOk(l, outer) && EntryOk(e, outer)
    ensures var (upvalues, i, full) := AddEntry(l.upvalues, e);
      && LevelOk(l.(upvalues := upvalues)) && EntriesOk(l.(upvalues := upvalues), outer)
      && l.upvalues <= upvalues
      && (!full ==> i < |upvalues| && upvalues[i] == e)
      && (full ==> upvalues == l.upvalues && i == 0)
      && i <= UINT8_MAX && (full ==> |upvalues| > UINT8_MAX)
  {
  }

  lemma EntriesGrow(l: Level, outer: Level, after: Level)
    requires EntriesOk(l, outer) && LevelGrows(outer, after)
    ensures EntriesOk(l, after)
  {
    forall i | 0 <= i < |l.upvalues|
      ensures EntryOk(l.upvalues[i], after)
    {
      assert EntryOk(l.upvalues[i], outer);
    }
  }

  /** A lookup keeps the chain well linked and every entry in place. */
  lemma {:induction false} LookupGrows(chain: seq<Level>, x: string)
    requires WellLinked(chain)
    ensures Kept(chain, ResolveUp(chain, x))
    decreases |chain|
  {
    hide LevelOk, EntriesOk;
    if |chain| > 1 {
      if Newest(chain[1].locals, x) >= 0 {
        KeptNext(chain, x);
      } else {
        LookupGrows(chain[1..], x);
        KeptFurtherOut(chain, x);
      }
    }
  }

  ghost predicate Kept(chain: seq<Level>, r: Resolution) {
    && WellLinked(r.chain) && Grows(chain, r.chain)
    && r.chain[0].locals == chain[0].locals
    && -1 <= r.index <= UINT8_MAX && r.index < |r.chain[0].upvalues|
  }

  lemma {:induction false} KeptNext(chain: seq<Level>, x: string)
    requires WellLinked(chain) && |chain| > 1 && Newest(chain[1].locals, x) >= 0
    ensures Kept(chain, ResolveUp(chain, x))
  {
    hide LevelOk, EntriesOk;
    var r, slot := ResolveUp(chain, x), Newest(chain[1].locals, x);
    MarkedGrows(chain, slot);
    AddEntryOk(chain[0], Entry(true, slot), MarkCaptured(chain[1], slot));
    assert r.chain[1..] == [MarkCaptured(chain[1], slot)] + chain[2..];
  }

  lemma {:induction false} KeptFurtherOut(chain: seq<Level>, x: string)
    requires WellLinked(chain) && |chain| > 1 && Newest(chain[1].locals, x) < 0
    requires Kept(chain[1..], ResolveUp(chain[1..], x))
    ensures Kept(chain, ResolveUp(chain, x))
  {
    hide LevelOk, EntriesOk;
    var r, outer := ResolveUp(chain, x), ResolveUp(chain[1..], x);
    assert r.chain[1..] == outer.chain;
    assert LevelGrows(chain[1..][0], outer.chain[0]);
    EntriesGrow(chain[0], chain[1], outer.chain[0]);
    if outer.index >= 0 {
      AddEntryOk(chain[0], Entry(false, outer.index), outer.chain[0]);
    }
    forall d | 0 <= d < |chain|
      ensures LevelGrows(chain[d], r.chain[d])
    {
      assert d > 0 ==> LevelGrows(chain[1..][d - 1], outer.chain[d - 1]);
    }
  }

  /** Marking a local as captured keeps what is linked. */
  lemma MarkedGrows(chain: seq<Level>, slot: nat)
    requires |chain| > 1 && WellLinked(chain) && slot < |chain[1].locals|
    ensures LevelGrows(chain[1], MarkCaptured(chain[1], slot))
    ensures EntriesOk(chain[0], MarkCaptured(chain[1], slot))
    ensures WellLinked([MarkCaptured(chain[1], slot)] + chain[2..])
  {
    var after := [MarkCaptured(chain[1], slot)] + chain[2..];
    EntriesGrow(chain[0], chain[1], after[0]);
    assert after[1..] == chain[1..][1..];
  }

  /** What a lookup's index stands for. */
  ghost predicate Addresses(chain: seq<Level>, x: string, r: Resolution)
    requires |r.chain| == |chain| && r.index >= 0
  {
    && Follow(r.chain, r.index).Some?
    && var p := Follow(r.chain, r.index).value;
      && IsNearest(chain, x, p)
      && p.slot < |r.chain[p.depth].locals|
      && r.chain[p.depth].locals[p.slot] == chain[p.depth].locals[p.slot].(captured := true)
      && r.early == (chain[p.depth].locals[p.slot].level == -1)
  }

  /** The index found leads to the newest local of that name in the nearest enclosing function that
      has one, and the local is flagged captured. */
  lemma {:induction false} Addressing(chain: seq<Level>, x: string)
    requires WellLinked(chain)
    ensures var r := ResolveUp(chain, x);
      && (r.index == -1 <==> forall d :: 1 <= d < |chain| ==> !Declares(chain[d], x))
      && (r.index >= 0 && !r.full ==> Addresses(chain, x, r))
    decreases |chain|
  {
    hide LevelOk, EntriesOk, Addresses, Declares;
    if |chain| > 1 {
      var slot := Newest(chain[1].locals, x);
      DeclaresIff(chain[1], x);
      if slot >= 0 {
        if !ResolveUp(chain, x).full {
          AddressesNext(chain, x);
        }
      } else {
        Addressing(chain[1..], x);
        LookupGrows(chain[1..], x);
        DeclaredFurtherOut(chain, x);
        if ResolveUp(chain, x).index >= 0 && !ResolveUp(chain, x).full {
          AddressesFurtherOut(chain, x);
        }
      }
    }
  }

  lemma DeclaresIff(l: Level, x: string)
    ensures Declares(l, x) <==> Newest(l.locals, x) >= 0
  {
  }

  lemma DeclaredFurtherOut(chain: seq<Level>, x: string)
    requires |chain| > 1 && !Declares(chain[1], x)
    ensures (forall d :: 1 <= d < |chain| ==> !Declares(chain[d], x))
      <==> (forall d :: 1 <= d < |chain[1..]| ==> !Declares(chain[1..][d], x))
  {
    hide Declares;
    if forall d :: 1 <= d < |chain[1..]| ==> !Declares(chain[1..][d], x) {
      forall d | 1 <= d < |chain|
        ensures !Declares(chain[d], x)
      {
        assert d > 1 ==> !Declares(chain[1..][d - 1], x);
      }
    }
  }

  lemma AddressesNext(chain: seq<Level>, x: string)
    requires |chain| > 1 && Newest(chain[1].locals, x) >= 0 && !ResolveUp(chain, x).full
    ensures Addresses(chain, x, ResolveUp(chain, x))
  {
    hide Declares;
    var slot := Newest(chain[1].locals, x);
    assert IsNearest(chain, x, Place(1, slot));
  }

  lemma AddEntryFound(upvalues: seq<Entry>, e: Entry)
    ensures var (after, i, full) := AddEntry(upvalues, e); !full ==> i < |after| && after[i] == e
  {
  }

  lemma {:induction false} AddressesFurtherOut(chain: seq<Level>, x: string)
    requires |chain| > 1 && !Declares(chain[1], x) && !ResolveUp(chain, x).full && ResolveUp(chain, x).index >= 0
    requires ResolveUp(chain[1..], x).index >= 0 && Addresses(chain[1..], x, ResolveUp(chain[1..], x))
    ensures Addresses(chain, x, ResolveUp(chain, x))
  {
    hide Declares, Newest, IsNearest, ResolveUp, AddEntry;
    DeclaresIff(chain[1], x);
    UpFurther(chain, x);
    var r, outer := ResolveUp(chain, x), ResolveUp(chain[1..], x);
    assert r.chain[1..] == outer.chain;
    AddEntryFound(chain[0].upvalues, Entry(false, outer.index));
    NearestOutward(chain, x, Follow(outer.chain, outer.index).value);
  }

  /** Room is short only in a function with 256 upvalues. */
  lemma {:induction false} FullAt256(chain: seq<Level>, x: string)
    requires chain != [] && ResolveUp(chain, x).full
    ensures exists d :: 0 <= d < |chain| - 1 && |chain[d].upvalues| > UINT8_MAX
    decreases |chain|
  {
    var outer := ResolveUp(chain[1..], x);
    if Newest(chain[1].locals, x) < 0 && outer.full {
      FullAt256(chain[1..], x);
      var d :| 0 <= d < |chain[1..]| - 1 && |chain[1..][d].upvalues| > UINT8_MAX;
      assert |chain[d + 1].upvalues| > UINT8_MAX;
    } else {
      assert |chain[0].upvalues| > UINT8_MAX;
    }
  }

  lemma NearestOutward(chain: seq<Level>, x: string, p: Place)
    requires |chain| > 1 && IsNearest(chain[1..], x, p) && !Declares(chain[1], x)
    ensures 1 <= p.depth < |chain| - 1
    ensures IsNearest(chain, x, Place(p.depth + 1, p.slot))
  {
    forall d | 1 <= d < p.depth + 1
      ensures !Declares(chain[d], x)
    {
      assert d > 1 ==> !Declares(chain[1..][d - 1], x);
    }
  }

  /** A later lookup leaves what an index means unchanged. */
  lemma {:induction false} FollowStays(chain: seq<Level>, after: seq<Level>, i: nat)
    requires Grows(chain, after) && Follow(chain, i).Some?
    ensures Follow(after, i) == Follow(chain, i)
    decreases |chain|
  {
    assert LevelGrows(chain[0], after[0]);
    assert LevelGrows(chain[1], after[1]);
    var e := chain[0].upvalues[i];
    assert after[0].upvalues[i] == e;
    if !e.isLocal {
      forall d | 0 <= d < |chain[1..]|
        ensures LevelGrows(chain[1..][d], after[1..][d])
      {
        assert LevelGrows(chain[d + 1], after[d + 1]);
      }
      FollowStays(chain[1..], after[1..], e.index);
    }
  }

  /** In a well-linked chain every upvalue leads to a captured local. */
  lemma {:induction false} EveryEntryLeads(chain: seq<Level>, i: nat)
    requires WellLinked(chain) && i < |chain[0].upvalues|
    ensures Follow(chain, i).Some?
    ensures var p := Follow(chain, i).value;
      1 <= p.depth < |chain| && p.slot < |chain[p.depth].locals| && chain[p.depth].locals[p.slot].captured
    decreases |chain|
  {
    assert EntryOk(chain[0].upvalues[i], chain[1]);
    if !chain[0].upvalues[i].isLocal {
      EveryEntryLeads(chain[1..], chain[0].upvalues[i].index);
    }
  }

  // ----- the compilers at work -----

  class Parser {
    var hadError: bool
  }

  /** How a name is accessed: a slot of the running function, one of its upvalues, or a global. */
  datatype Access = LocalSlot(slot: nat) | UpvalueSlot(index: nat) | Global

  /** What leaving a scope emits for one local. */
  datatype Emitted = PopLocal | CloseLocal

  function Ending(l: Local): Emitted {
    if l.captured then CloseLocal else PopLocal
  }

  /** The compiler of one function; `outer` lists the compilers around it, the nearest first. */
  class Compiler {
    var locals: seq<Local>
    var upvalues: seq<Entry>
    var level: nat
    const enclosing: Compiler?
    const parser: Parser
    ghost const outer: seq<Compiler>

    ghost function Around(): set<Compiler> {
      set c | c in outer
    }

    ghost predicate Linked()
      decreases |outer|
    {
      if enclosing == null then outer == []
      else outer == [enclosing] + enclosing.outer && enclosing.parser == parser && enclosing.Linked()
    }

    ghost function View(): (r: seq<Level>)
      requires Linked()
      reads this`locals, this`upvalues, Around()`locals, Around()`upvalues
      ensures |r| == |outer| + 1 && r[0] == Level(locals, upvalues)
      ensures enclosing != null ==> r[1..] == enclosing.View()
      decreases |outer|
    {
      assert enclosing != null ==> Around() == {enclosing} + enclosing.Around();
      [Level(locals, upvalues)] + if enclosing == null then [] else enclosing.View()
    }

    /** A compiler whose chain is well linked; only the outermost one has no enclosing compiler. */
    ghost predicate Valid()
      reads this`locals, this`upvalues, Around()`locals, Around()`upvalues
    {
      Linked() && WellLinked(View())
    }

    /** Start compiling a function inside another, or the script; slot 0 holds the callee. */
    constructor (enclosing: Compiler?, parser: Parser, slotZero: string)
      requires enclosing != null ==> enclosing.Valid() && enclosing.parser == parser
      ensures Valid() && this.enclosing == enclosing && this.parser == parser && level == 0
      ensures View() == [Level([Local(slotZero, 0, false)], [])] + if enclosing == null then [] else enclosing.View()
    {
      this.enclosing, this.parser := enclosing, parser;
      outer := if enclosing == null then [] else [enclosing] + enclosing.outer;
      locals, upvalues, level := [Local(slotZero, 0, false)], [], 0;
    }

    /** The newest local of a name; reading a variable inside its own initializer is an error. */
    method ResolveLocal(x: string) returns (slot: int)
      modifies parser`hadError
      ensures slot == Newest(locals, x)
      ensures parser.hadError == (old(parser.hadError) || (slot >= 0 && locals[slot].level == -1))
    {
      slot := |locals| - 1;
      assert locals[..|locals|] == locals;
      while slot >= 0
        invariant -1 <= slot < |locals|
        invariant Newest(locals[..slot + 1], x) == Newest(locals, x)
        invariant parser.hadError == old(parser.hadError)
      {
        assert locals[..slot + 1][..slot] == locals[..slot];
        if locals[slot].name == x {
          if locals[slot].level == -1 {
            parser.hadError := true;
          }
          return;
        }
        slot := slot - 1;
      }
    }

    /** The index of an upvalue, which is new unless the function has it already. */
    method AddUpvalue(index: nat, isLocal: bool) returns (i: nat)
      modifies this`upvalues, parser`hadError
      ensures var (after, at, full) := AddEntry(old(upvalues), Entry(isLocal, index));
        upvalues == after && i == at && parser.hadError == (old(parser.hadError) || full)
    {
      ghost var e := Entry(isLocal, index);
      i := 0;
      while i < |upvalues|
        invariant 0 <= i <= |upvalues| && upvalues == old(upvalues) && parser.hadError == old(parser.hadError)
        invariant IndexOf(upvalues, e) == i + IndexOf(upvalues[i..], e)
      {
        assert upvalues[i..][1..] == upvalues[i + 1..];
        if upvalues[i] == Entry(isLocal, index) {
          return;
        }
        i := i + 1;
      }
      if |upvalues| > UINT8_MAX {
        parser.hadError := true;
        return 0;
      }
      upvalues := upvalues + [Entry(isLocal, index)];
      i := |upvalues| - 1;
    }

    method Mark(slot: nat)
      requires Linked() && slot < |locals|
      modifies this`locals
      ensures View() == [MarkCaptured(old(View())[0], slot)] + old(View())[1..]
    {
      NotInOuter();
      hide View;
      locals := locals[slot := locals[slot].(captured := true)];
    }

    /** The upvalue index of a name of the functions around this one, or -1. */
    method ResolveUpvalue(x: string) returns (i: int)
      requires Linked()
      modifies this`upvalues, Around()`locals, Around()`upvalues, parser`hadError
      ensures var r := ResolveUp(old(View()), x);
        View() == r.chain && i == r.index && parser.hadError == (old(parser.hadError) || r.full || r.early)
      decreases |outer|
    {
      hide View, ResolveUp, AddEntry, Newest, Linked;
      ghost var chain := View();
      NotInOuter();
      if enclosing == null {
        UpNone(chain, x);
        return -1;
      }
      var slot := enclosing.ResolveLocal(x);
      if slot != -1 {
        UpNext(chain, x);
        enclosing.Mark(slot);
        i := AddUpvalue(slot, true);
      } else {
        UpFurther(chain, x);
        i := enclosing.ResolveUpvalue(x);
        if i != -1 {
          i := AddUpvalue(i, false);
        }
      }
    }

    /** How the code of this function reaches a name: the newest declaration of the nearest function
        that has one, and as a global if there is none. */
    method Resolve(x: string) returns (access: Access)
      requires Valid()
      modifies this`upvalues, Around()`locals, Around()`upvalues, parser`hadError
      ensures Valid() && Grows(old(View()), View()) && locals == old(locals)
      ensures access.LocalSlot? <==> Declares(old(View())[0], x)
      ensures access.Global? <==> forall d :: 0 <= d < |old(View())| ==> !Declares(old(View())[d], x)
      ensures access.LocalSlot? ==> access.slot == Newest(locals, x)
      ensures access.UpvalueSlot? && !parser.hadError ==>
        var r := ResolveUp(old(View()), x);
        View() == r.chain && access.index == r.index && !r.early && Addresses(old(View()), x, r)
      ensures old(parser.hadError) ==> parser.hadError
    {
      hide View, ResolveUp, Newest, Linked, Addresses, Declares, LevelOk, WellLinked;
      ghost var chain := View();
      DeclaresIff(chain[0], x);
      LevelsGrow(chain);
      var slot := ResolveLocal(x);
      if slot != -1 {
        return LocalSlot(slot);
      }
      Addressing(chain, x);
      LookupGrows(chain, x);
      var i := ResolveUpvalue(x);
      access := if i != -1 then UpvalueSlot(i) else Global;
    }

    lemma NotInOuter()
      requires Linked()
      ensures this !in outer
      ensures enclosing != null ==>
        && enclosing !in enclosing.outer && Around() == {enclosing} + enclosing.Around()
        && enclosing.Linked() && enclosing.parser == parser && |enclosing.outer| < |outer|
      ensures enclosing == null ==> |outer| == 0
      ensures this !in Around()
    {
      OuterShorter(this);
      if enclosing != null {
        OuterShorter(enclosing);
      }
    }

    /** Leaving a scope ends its locals: a captured one is closed, any other is popped. */
    method ScopeExit() returns (emitted: seq<Emitted>)
      requires Valid() && level > 0
      requires |locals| > 0 && locals[0].level == 0
      modifies this`locals, this`level
      ensures Valid() && level == old(level) - 1
      ensures 0 < |locals| <= |old(locals)| && locals == old(locals)[..|locals|]
      ensures locals[|locals| - 1].level <= level
      ensures |emitted| == |old(locals)| - |locals|
      ensures forall j :: |locals| <= j < |old(locals)| ==>
        old(locals)[j].level > level && emitted[|old(locals)| - 1 - j] == Ending(old(locals)[j])
    {
      hide View;
      NotInOuter();
      level := level - 1;
      emitted := EndLocals();
    }

    method EndLocals() returns (emitted: seq<Emitted>)
      requires |locals| > 0 && locals[0].level <= level
      modifies this`locals
      ensures 0 < |locals| <= |old(locals)| && locals == old(locals)[..|locals|]
      ensures locals[|locals| - 1].level <= level
      ensures |emitted| == |old(locals)| - |locals|
      ensures forall j :: |locals| <= j < |old(locals)| ==>
        old(locals)[j].level > level && emitted[|old(locals)| - 1 - j] == Ending(old(locals)[j])
    {
      emitted := [];
      ghost var all := locals;
      while locals[|locals| - 1].level > level
        invariant 0 < |locals| <= |all| && locals == all[..|locals|]
        invariant |emitted| == |all| - |locals|
        invariant forall j :: |locals| <= j < |all| ==>
          all[j].level > level && emitted[|all| - 1 - j] == Ending(all[j])
        decreases |locals|
      {
        emitted := emitted + [Ending(locals[|locals| - 1])];
        locals := locals[..|locals| - 1];
      }
    }
  }

  lemma LevelsGrow(chain: seq<Level>)
    ensures Grows(chain, chain)
  {
  }

  lemma UpNone(chain: seq<Level>, x: string)
    requires |chain| == 1
    ensures ResolveUp(chain, x) == Resolution(chain, -1, false, false)
  {
  }

  lemma UpNext(chain: seq<Level>, x: string)
    requires |chain| > 1 && Newest(chain[1].locals, x) >= 0
    ensures var r, slot := ResolveUp(chain, x), Newest(chain[1].locals, x);
      var (upvalues, i, full) := AddEntry(chain[0].upvalues, Entry(true, slot));
      && r.chain == [chain[0].(upvalues := upvalues)] + ([MarkCaptured(chain[1..][0], slot)] + chain[1..][1..])
      && r.index == i && r.full == full && r.early == (chain[1].locals[slot].level == -1)
  {
  }

  lemma UpFurther(chain: seq<Level>, x: string)
    requires |chain| > 1 && Newest(chain[1].locals, x) < 0
    ensures var r, outer := ResolveUp(chain, x), ResolveUp(chain[1..], x);
      && r.early == outer.early && -1 <= outer.index
      && (outer.index < 0 ==> r.chain == [chain[0]] + outer.chain && r.index == -1 && r.full == outer.full)
      && (outer.index >= 0 ==>
        var (upvalues, i, full) := AddEntry(chain[0].upvalues, Entry(false, outer.index));
        r.chain == [chain[0].(upvalues := upvalues)] + outer.chain && r.index == i && r.full == (full || outer.full))
  {
    NoLess(chain[1..], x);
  }

  lemma {:induction false} NoLess(chain: seq<Level>, x: string)
    requires chain != []
    ensures ResolveUp(chain, x).index >= -1
    decreases |chain|
  {
    if |chain| > 1 {
      NoLess(chain[1..], x);
    }
  }

  lemma {:induction false} OuterShorter(c: Compiler)
    requires c.Linked()
    ensures forall i :: 0 <= i < |c.outer| ==> |c.outer[i].outer| < |c.outer|
    decreases |c.outer|
  {
    if c.enclosing != null {
      OuterShorter(c.enclosing);
      assert forall i :: 0 < i < |c.outer| ==> c.outer[i] == c.enclosing.outer[i - 1];
    }
  }
}
