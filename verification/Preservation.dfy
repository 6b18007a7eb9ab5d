/** Compiling a script and running its bytes means the same as evaluating the script. */
module Preservation {
  import opened Values
  import opened Syntax
  import opened Semantics
  import opened Bytecode
  import opened Codegen
  import opened Machine
  import opened Expressions
  import opened Scoping
  import opened Statements

  /** The machine before the first instruction: the script's own closure is in slot 0. */
  function Start(globals: map<string, Value>): Config {
    Config(0, [Script], globals, [])
  }

  function Outcome(pr: Primitives, ds: seq<Decl>, globals: map<string, Value>, fuel: nat): Result {
    ExecAll(pr, ds, Initial(globals), fuel)
  }

  ghost function Compiled(ds: seq<Decl>, pr: Primitives): Program
    requires GenScript(ds).Emit?
  {
    Program(GenScript(ds).code, GenScript(ds).pool, pr)
  }

  /** The result of a run of the script that has taken `n` steps. */
  ghost function RunOf(ds: seq<Decl>, pr: Primitives, globals: map<string, Value>, n: nat): Status
    requires GenScript(ds).Emit?
  {
    Steps(Compiled(ds, pr), Start(globals), n)
  }

  /** The implicit return of a script empties the stack, which `vm_run` takes for success. */
  lemma {:induction false} ReturnStep(p: Program, s: Config)
    requires Holds(p.code, s.ip, [OP_NIL, OP_RETURN]) && |s.stack| == 1
    ensures Steps(p, s, 2) == Halted(s.(ip := s.ip + 2, stack := []))
  {
    TwoBytes(p.code, s.ip, OP_NIL, OP_RETURN);
    var r := Step(p, s);
    assert Steps(p, s, 1) == r;
    assert Steps(p, r.s, 1) == Step(p, r.s);
    StepsCompose(p, s, 1, 1);
  }

  lemma Begin(globals: map<string, Value>)
    ensures Boundary(TOP_LEVEL.locals, 0, Start(globals), Initial(globals))
  {
    var locals := TOP_LEVEL.locals;
    assert locals[0] == Local("this", 0);
    assert SlotHolds(locals, Start(globals).stack, Initial(globals).scopes, 0);
  }

  /** Forward simulation, for every bound on the number of loop iterations. */
  lemma ScriptRuns(pr: Primitives, ds: seq<Decl>, globals: map<string, Value>, fuel: nat) returns (n: nat)
    requires GenScript(ds).Emit?
    ensures match Outcome(pr, ds, globals, fuel)
      case Normal(st) =>
        var r := RunOf(ds, pr, globals, n);
        r.Halted? && r.s.stack == [] && r.s.globals == st.globals && r.s.output == st.output
      case Failed(st) =>
        var r := RunOf(ds, pr, globals, n);
        r.Error? && r.s.globals == st.globals && r.s.output == st.output
      case OutOfFuel => RunOf(ds, pr, globals, n).Running? && n >= fuel
      case Continued(_) => false
  {
    hide Step, Steps, Match, Settled, GenDecls, ExecAll;
    var p, s, st0 := Compiled(ds, pr), Start(globals), Initial(globals);
    var g := GenDecls(ds, TOP_LEVEL, []);
    HoldsSplit(p.code, 0, g.code, [OP_NIL, OP_RETURN]);
    Begin(globals);
    var t: Config;
    n, t := DeclsSim(p, ds, TOP_LEVEL, [], s, st0, fuel);
    var r := ExecAll(pr, ds, st0, fuel);
    if r.Normal? {
      TopLevelSlots(ds, TOP_LEVEL, []);
      ReturnStep(p, t);
      StepsCompose(p, s, n, 2);
      n := n + 2;
    }
  }

  /** At the top level variables are globals: no slot is added. */
  lemma {:induction false} TopLevelSlots(ds: seq<Decl>, c: Context, pool: seq<Value>)
    requires c.level == 0 && GenDecls(ds, c, pool).DeclEmit?
    ensures GenDecls(ds, c, pool).locals == c.locals
    decreases ds
  {
    if ds != [] {
      TopLevelSlots(ds[..|ds| - 1], c, pool);
    }
  }

  ghost predicate RunHalts(pr: Primitives, ds: seq<Decl>, globals: map<string, Value>, n: nat, g: map<string, Value>,
      out: seq<Value>)
    requires GenScript(ds).Emit?
  {
    var r := RunOf(ds, pr, globals, n);
    r.Halted? && r.s.stack == [] && r.s.globals == g && r.s.output == out
  }

  ghost predicate RunFails(pr: Primitives, ds: seq<Decl>, globals: map<string, Value>, n: nat, g: map<string, Value>,
      out: seq<Value>)
    requires GenScript(ds).Emit?
  {
    var r := RunOf(ds, pr, globals, n);
    r.Error? && r.s.globals == g && r.s.output == out
  }

  predicate Ends(pr: Primitives, ds: seq<Decl>, globals: map<string, Value>, fuel: nat, g: map<string, Value>,
      out: seq<Value>) {
    var r := Outcome(pr, ds, globals, fuel);
    r.Normal? && r.st.globals == g && r.st.output == out
  }

  predicate Faults(pr: Primitives, ds: seq<Decl>, globals: map<string, Value>, fuel: nat, g: map<string, Value>,
      out: seq<Value>) {
    var r := Outcome(pr, ds, globals, fuel);
    r.Failed? && r.st.globals == g && r.st.output == out
  }

  /** Meaning preservation, both ways: a compiled script halts, with an empty stack, exactly if its
      evaluation ends normally; it fails exactly if its evaluation fails; it leaves the same
      globals and the same output.  Otherwise both go on for ever, and no run is ever stuck. */
  lemma ScriptMeaning(pr: Primitives, ds: seq<Decl>, globals: map<string, Value>, g: map<string, Value>,
      out: seq<Value>)
    requires GenScript(ds).Emit?
    ensures (exists n :: RunHalts(pr, ds, globals, n, g, out)) <==> (exists fuel :: Ends(pr, ds, globals, fuel, g, out))
    ensures (exists n :: RunFails(pr, ds, globals, n, g, out)) <==>
      (exists fuel :: Faults(pr, ds, globals, fuel, g, out))
    ensures forall n :: !RunOf(ds, pr, globals, n).Stuck?
  {
    hide Steps, ExecAll, GenScript;
    forall n: nat
      ensures !RunOf(ds, pr, globals, n).Stuck?
      ensures RunHalts(pr, ds, globals, n, g, out) ==> Ends(pr, ds, globals, n + 1, g, out)
      ensures RunFails(pr, ds, globals, n, g, out) ==> Faults(pr, ds, globals, n + 1, g, out)
    {
      EndedRun(pr, ds, globals, n);
    }
    forall fuel: nat
      ensures Ends(pr, ds, globals, fuel, g, out) ==> exists n :: RunHalts(pr, ds, globals, n, g, out)
      ensures Faults(pr, ds, globals, fuel, g, out) ==> exists n :: RunFails(pr, ds, globals, n, g, out)
    {
      var n := ScriptRuns(pr, ds, globals, fuel);
      assert Ends(pr, ds, globals, fuel, g, out) ==> RunHalts(pr, ds, globals, n, g, out);
      assert Faults(pr, ds, globals, fuel, g, out) ==> RunFails(pr, ds, globals, n, g, out);
    }
  }

  /** A run that has ended within `n` steps has the outcome of the evaluation whose fuel exceeds
      the steps. */
  lemma EndedRun(pr: Primitives, ds: seq<Decl>, globals: map<string, Value>, n: nat)
    requires GenScript(ds).Emit?
    ensures match RunOf(ds, pr, globals, n)
      case Running(_) => true
      case Halted(s) => s.stack == [] && Ends(pr, ds, globals, n + 1, s.globals, s.output)
      case Error(s) => Faults(pr, ds, globals, n + 1, s.globals, s.output)
      case Stuck => false
  {
    hide Steps, ExecAll, GenScript;
    var m := ScriptRuns(pr, ds, globals, n + 1);
    var p, s := Compiled(ds, pr), Start(globals);
    if !Steps(p, s, n).Running? {
      if n <= m { StepsEnded(p, s, n, m); } else if !Steps(p, s, m).Running? { StepsEnded(p, s, m, n); }
    }
  }
}
