/** Scripts with functions: running the chunks that compiling a script leaves does what evaluating the script does. */
module Scripts {
  import opened Values
  import opened Bytecode
  import opened Functions
  import opened Meaning
  import opened Agreement
  import opened Engine
  import opened Running
  import opened ExprRuns
  import opened Declaring
  import opened Boundaries
  import opened StmtRuns
  import Calls
  import Discipline
  import Growth
  import Lexical
  import SoundCode

  /** The globals a script is run with are its own and the built-in ones; no closure has been made yet. */
  predicate Plainly(globals: map<string, Datum>) {
    forall x :: x in globals ==> globals[x].Basic?
  }

  /** The function of a script whose loops, and those of its functions, are compiled as they are meant. */
  ghost predicate Ordinary(ds: seq<Item>) {
    MakeScript(ds).Accepted? && Functions.Tame(ds) && Compact(MakeScript(ds).f)
  }

  /** The result of a run of the script that has taken `n` steps. */
  function RunOf(w: World, ds: seq<Item>, globals: map<string, Datum>, n: nat): Status
    requires MakeScript(ds).Accepted?
  {
    Steps(w, Start(MakeScript(ds).f, globals), n)
  }

  // ----- the beginning -----

  lemma {:induction false} ScriptCode(ds: seq<Item>)
    requires Ordinary(ds)
    ensures var k, f := MakeItems(ds, TOP, [], SCRIPT), MakeScript(ds).f;
      && k.Made? && f == Ended(0, k) && Lexical.WellLinked(k.chain) && |k.chain| == 1
      && |k.chain[0].locals| == 1 && k.chain[0].upvalues == []
  {
    hide LayItems, MakeItems, ItemsTame, ItemsOutline, SoundCode.PoolOk, Compact, Lexical.WellLinked;
    SoundCode.ScriptReady();
    SoundCode.LaidSize(ds, TOP, SCRIPT);
    ShortChunk(MakeScript(ds).f);
    SoundCode.TameChunk(ds, TOP, SCRIPT);
    SoundCode.ItemsGood(ds, TOP, [], SCRIPT);
    Discipline.ScriptScoped();
    Growth.TopItemsGrow(ds, TOP, [], SCRIPT);
    OneLevel(MakeItems(ds, TOP, [], SCRIPT).chain);
  }

  lemma ShortChunk(f: Function)
    requires Compact(f)
    ensures |f.code| < UINT16_MAX
  {
  }

  lemma OneLevel(chain: Chain)
    requires Lexical.WellLinked(chain) && Lexical.Grows(SCRIPT, chain)
    ensures |chain| == 1 && |chain[0].locals| == 1 && chain[0].upvalues == []
  {
    assert Lexical.LevelGrows(SCRIPT[0], chain[0]);
  }

  /** The beginning of the script. */
  function Beginning(ds: seq<Item>): Scene
    requires MakeScript(ds).Accepted?
  {
    var k := MakeItems(ds, TOP, [], SCRIPT);
    Scene.Scene(Here.Here(MakeScript(ds).f, if k.Made? then k.chain else SCRIPT, [], []), [], SCRIPT, [], 1)
  }

  lemma {:induction false} ScriptStands(ds: seq<Item>, globals: map<string, Datum>)
    requires Ordinary(ds) && Plainly(globals)
    ensures var c, k := Beginning(ds), MakeItems(ds, TOP, [], SCRIPT);
      && Stands(c, TOP, Start(MakeScript(ds).f, globals), Initial(ds, globals), [])
      && k.Made? && Ahead(c.h, 0, k) && Holds(c.h.f.code, |k.code|, [OP_NIL, OP_RETURN]) && |k.chain[0].locals| == 1
  {
    hide MakeItems, MakeScript, ItemsTame, ItemsOutline, Compact, Toward, SoundCode.Ready;
    ScriptCode(ds);
    var k, f := MakeItems(ds, TOP, [], SCRIPT), MakeScript(ds).f;
    var s := Start(f, globals);
    SoundCode.ScriptReady();
    Discipline.ScriptScoped();
    Calls.TowardSelf(k.chain);
    HoldsSplit(f.code, 0, k.code, [OP_NIL, OP_RETURN]);
    assert OuterMatch(k.chain, [], [], []);
    assert Slots(s) == [0];
    assert OwnMatch(SCRIPT[0].locals, [], Slots(s), []);
    assert Mirrors(s, Initial(ds, globals), []);
  }

  // ----- the end -----

  /** The implicit return of the script empties the stack, which is taken for success. */
  lemma {:induction false} ScriptReturns(w: World, h: Here, s: Config, st: State, m: seq<nat>) returns (t: Config)
    requires In(h, s) && Mirrors(s, st, m) && Holds(h.f.code, Ip(s), [OP_NIL, OP_RETURN])
    requires |s.cells.frames| == 1 && Height(s) == 1 && Base(s) == 0
    ensures Steps(w, s, 2) == Halted(t) && t.cells.locals == [] && t.globals == st.globals && t.output == st.output
  {
    hide Mirrors, Steps, KeepsHeap;
    HoldsSplit(h.f.code, Ip(s), [OP_NIL], [OP_RETURN]) by { assert [OP_NIL] + [OP_RETURN] == [OP_NIL, OP_RETURN]; }
    SimpleAt(w, s, h, OP_NIL);
    var u := Replace(s, Ip(s) + 1, 0, Basic(Value.Nil));
    ReplaceMirrors(s, st, m, Ip(s) + 1, 0, Basic(Value.Nil));
    InKept(h, s, u, m, m);
    SimpleAt(w, u, h, OP_RETURN);
    StepsCompose(w, s, 1, 1);
    t := u.(cells := Drop(u.cells, 2));
    SameGlobals(u, st, m);
  }

  lemma AllCallable(w: World)
    ensures Callable(w, 1)
  {
    hide Faithful;
    Calls.AllFaithful(w, 2);
  }

  /** Forward simulation, for every bound on the number of loop iterations. */
  lemma {:induction false} ScriptRuns(w: World, ds: seq<Item>, globals: map<string, Datum>, fuel: nat) returns (n: nat)
    requires Ordinary(ds) && Plainly(globals)
    ensures match Meaning.Run(w, ds, globals, fuel)
      case Normal(_, st) =>
        var r := RunOf(w, ds, globals, n);
        r.Halted? && r.s.cells.locals == [] && r.s.globals == st.globals && r.s.output == st.output
      case Crashed(st) =>
        var r := RunOf(w, ds, globals, n);
        r.Error? && r.s.globals == st.globals && r.s.output == st.output
      case OutOfFuel => RunOf(w, ds, globals, n).Running? && n >= fuel
      case _ => false
  {
    hide MakeItems, MakeScript, ItemsTame, Compact, Stands, Mirrors, Steps, ExecAll, Callable, Toward;
    ScriptStands(ds, globals);
    AllCallable(w);
    var c, k, s, st := Beginning(ds), MakeItems(ds, TOP, [], SCRIPT), Start(MakeScript(ds).f, globals),
      Initial(ds, globals);
    StandsBegins(c, TOP, s, st, []);
    assert c.Env() == [];
    var t, m, own;
    n, t, m, own := ItemsRun(w, c, TOP, ds, s, st, [], fuel);
    var r := Meaning.Run(w, ds, globals, fuel);
    if r.Normal? {
      var d, past := c.To(k).(own := own), TOP.Past(|k.code|);
      StandsBegins(d, past, t, r.st, m);
      ReadyHere(d, t, r.st, m);
      KeepsSize(s, t, [], m);
      var x := ScriptReturns(w, c.h, t, r.st, m);
      StepsCompose(w, s, n, 2);
      n := n + 2;
    }
  }

  // ----- both ways -----

  ghost predicate RunHalts(w: World, ds: seq<Item>, globals: map<string, Datum>, n: nat, g: map<string, Datum>,
      out: seq<Datum>)
    requires MakeScript(ds).Accepted?
  {
    var r := RunOf(w, ds, globals, n);
    r.Halted? && r.s.cells.locals == [] && r.s.globals == g && r.s.output == out
  }

  ghost predicate RunFails(w: World, ds: seq<Item>, globals: map<string, Datum>, n: nat, g: map<string, Datum>,
      out: seq<Datum>)
    requires MakeScript(ds).Accepted?
  {
    var r := RunOf(w, ds, globals, n);
    r.Error? && r.s.globals == g && r.s.output == out
  }

  predicate Ends(w: World, ds: seq<Item>, globals: map<string, Datum>, fuel: nat, g: map<string, Datum>,
      out: seq<Datum>) {
    var r := Meaning.Run(w, ds, globals, fuel);
    r.Normal? && r.st.globals == g && r.st.output == out
  }

  predicate Crashes(w: World, ds: seq<Item>, globals: map<string, Datum>, fuel: nat, g: map<string, Datum>,
      out: seq<Datum>) {
    var r := Meaning.Run(w, ds, globals, fuel);
    r.Crashed? && r.st.globals == g && r.st.output == out
  }

  /** A run that has ended within `n` steps has the outcome of the evaluation whose fuel exceeds the steps. */
  lemma EndedRun(w: World, ds: seq<Item>, globals: map<string, Datum>, n: nat)
    requires Ordinary(ds) && Plainly(globals)
    ensures match RunOf(w, ds, globals, n)
      case Running(_) => true
      case Halted(s) => s.cells.locals == [] && Ends(w, ds, globals, n + 1, s.globals, s.output)
      case Error(s) => Crashes(w, ds, globals, n + 1, s.globals, s.output)
      case Stuck => false
  {
    hide Steps, MakeScript, ItemsTame, ItemsOutline, Compact, Meaning.Run;
    var m := ScriptRuns(w, ds, globals, n + 1);
    var s := Start(MakeScript(ds).f, globals);
    if !Steps(w, s, n).Running? {
      if n <= m { StepsEnded(w, s, n, m); } else if !Steps(w, s, m).Running? { StepsEnded(w, s, m, n); }
    }
  }

  /** Meaning preservation for scripts with functions, closures and recursion, both ways: the run halts, with an empty
      stack, exactly if the evaluation ends normally; it fails exactly if the evaluation fails; it leaves the same
      globals and the same output.  Otherwise both go on for ever, and no run is ever stuck. */
  lemma FunctionsMeaning(w: World, ds: seq<Item>, globals: map<string, Datum>, g: map<string, Datum>, out: seq<Datum>)
    requires Ordinary(ds) && Plainly(globals)
    ensures (exists n :: RunHalts(w, ds, globals, n, g, out)) <==> (exists fuel :: Ends(w, ds, globals, fuel, g, out))
    ensures (exists n :: RunFails(w, ds, globals, n, g, out)) <==>
      (exists fuel :: Crashes(w, ds, globals, fuel, g, out))
    ensures forall n :: !RunOf(w, ds, globals, n).Stuck?
  {
    hide Steps, MakeScript, ItemsTame, ItemsOutline, Compact, Meaning.Run, Ordinary;
    assert MakeScript(ds).Accepted? by { Accepts(ds); }
    forall n: nat
      ensures !RunOf(w, ds, globals, n).Stuck?
      ensures RunHalts(w, ds, globals, n, g, out) ==> Ends(w, ds, globals, n + 1, g, out)
      ensures RunFails(w, ds, globals, n, g, out) ==> Crashes(w, ds, globals, n + 1, g, out)
    {
      EndedRun(w, ds, globals, n);
    }
    forall fuel: nat
      ensures Ends(w, ds, globals, fuel, g, out) ==> exists n :: RunHalts(w, ds, globals, n, g, out)
      ensures Crashes(w, ds, globals, fuel, g, out) ==> exists n :: RunFails(w, ds, globals, n, g, out)
    {
      var n := ScriptRuns(w, ds, globals, fuel);
      assert Ends(w, ds, globals, fuel, g, out) ==> RunHalts(w, ds, globals, n, g, out);
      assert Crashes(w, ds, globals, fuel, g, out) ==> RunFails(w, ds, globals, n, g, out);
    }
  }

  lemma Accepts(ds: seq<Item>)
    requires Ordinary(ds)
    ensures MakeScript(ds).Accepted?
  {
  }
}
