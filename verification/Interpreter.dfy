/** What running a chunk does, and from tokens to effects: compiling and running a script does what evaluating its
    tree does. */
module Interpreter {
  import opened Bytecode
  import opened Values
  import opened Syntax
  import opened Codegen
  import opened Grammar
  import opened Machine
  import opened Placing
  import opened Preservation
  import Regular
  import SinglePass
  import VirtualMachine

  /** The tree of a source that compiles. */
  ghost predicate Compiles(tokens: seq<Token>) {
    ParseScript(tokens).Good? && GenScript(ParseScript(tokens).value).Emit?
  }

  /** Wherever compilation ends, the chunk holds the code of the tree.  `Regular.NestedScript` and
      `Regular.ScriptPlaced` say for which scripts this is so. */
  ghost predicate Intended(ds: seq<Decl>)
    requires GenScript(ds).Emit?
  {
    PlaceScript(ds).Done? ==> PlaceScript(ds).code == GenScript(ds).code
  }

  // ----- the chunk the compiler leaves -----

  ghost function ChunkRun(ds: seq<Decl>, pr: Primitives, globals: map<string, Value>, n: nat): Status
    requires GenScript(ds).Emit? && PlaceScript(ds).Done?
  {
    Steps(Program(PlaceScript(ds).code, GenScript(ds).pool, pr), Start(globals), n)
  }

  ghost predicate ChunkHalts(pr: Primitives, ds: seq<Decl>, globals: map<string, Value>, n: nat, g: map<string, Value>,
      out: seq<Value>)
    requires GenScript(ds).Emit? && PlaceScript(ds).Done?
  {
    var r := ChunkRun(ds, pr, globals, n);
    r.Halted? && r.s.stack == [] && r.s.globals == g && r.s.output == out
  }

  ghost predicate ChunkFails(pr: Primitives, ds: seq<Decl>, globals: map<string, Value>, n: nat, g: map<string, Value>,
      out: seq<Value>)
    requires GenScript(ds).Emit? && PlaceScript(ds).Done?
  {
    var r := ChunkRun(ds, pr, globals, n);
    r.Error? && r.s.globals == g && r.s.output == out
  }

  /** For tame scripts of less than 65535 bytes the compiler ends, and running the chunk it leaves is evaluating the
      tree: it halts, or fails, with some globals and output exactly if evaluation does. */
  lemma ChunkMeaning(pr: Primitives, ds: seq<Decl>, globals: map<string, Value>, g: map<string, Value>,
      out: seq<Value>)
    requires GenScript(ds).Emit? && Outlined(ds).Tame() && |GenScript(ds).code| < UINT16_MAX
    ensures PlaceScript(ds).Done?
    ensures (exists n :: ChunkHalts(pr, ds, globals, n, g, out)) <==>
      (exists fuel :: Ends(pr, ds, globals, fuel, g, out))
    ensures (exists n :: ChunkFails(pr, ds, globals, n, g, out)) <==>
      (exists fuel :: Faults(pr, ds, globals, fuel, g, out))
    ensures forall n :: !ChunkRun(ds, pr, globals, n).Stuck?
  {
    hide GenScript, PlaceScript, Outlined, Steps, Preservation.Outcome;
    Regular.TameScript(ds);
    ScriptMeaning(pr, ds, globals, g, out);
    forall n: nat
      ensures ChunkRun(ds, pr, globals, n) == RunOf(ds, pr, globals, n)
      ensures ChunkHalts(pr, ds, globals, n, g, out) <==> RunHalts(pr, ds, globals, n, g, out)
      ensures ChunkFails(pr, ds, globals, n, g, out) <==> RunFails(pr, ds, globals, n, g, out)
    {
    }
  }

  // ----- from tokens to effects -----

  /** `vm_interpret` on a script whose loops are compiled as intended and whose evaluation ends within
      `fuel` iterations of its loops.  `hung` says that the compiler of the original never returns; otherwise
      a source that does not compile has no effect and the status of a failure. */
  method Interpret(tokens: seq<Token>, pr: Primitives, initial: map<string, Value>, ghost fuel: nat)
    returns (hung: bool, status: int, globals: map<string, Value>, output: seq<Value>)
    requires Compiles(tokens) ==>
      Intended(ParseScript(tokens).value) && !Outcome(pr, ParseScript(tokens).value, initial, fuel).OutOfFuel?
    ensures Compiles(tokens) ==> (hung <==> PlaceScript(ParseScript(tokens).value).Unending?)
    ensures !Compiles(tokens) && !hung ==> status == -1 && globals == initial && output == []
    ensures Compiles(tokens) && !hung ==>
      var r := Outcome(pr, ParseScript(tokens).value, initial, fuel);
      && (r.Normal? || r.Failed?)
      && status == (if r.Normal? then 0 else -1)
      && globals == r.st.globals && output == r.st.output
  {
    hide GenScript, ParseScript, Outcome, Steps, PlaceScript;
    var failed, code, pool;
    hung, failed, code, pool := SinglePass.Compile(tokens);
    if hung || failed { return hung, -1, initial, []; }
    var program := Program(code, pool, pr);
    ghost var ds := ParseScript(tokens).value;
    assert GenScript(ds) == Code.Emit(code, pool);
    ghost var n := ScriptRuns(pr, ds, initial, fuel);
    assert RunOf(ds, pr, initial, n) == Steps(program, Start(initial), n);
    var vm := new VirtualMachine.Vm(program, Script, initial);
    status := vm.Run(n);
    globals, output := vm.globals, vm.output;
  }
}
