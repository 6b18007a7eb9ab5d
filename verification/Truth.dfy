/** Which values count as true, which are equal and what the operators give, said of running code. */
module Truth {
  import opened Values
  import opened Syntax
  import opened Semantics
  import opened Bytecode
  import opened Codegen
  import opened Machine
  import opened Expressions
  import opened Comparisons
  import opened Preservation

  // ----- operators on every pair of values -----

  /** Nil is equal to itself, booleans and strings are compared by what they are, numbers by rank; nothing else is
      equal. */
  predicate Alike(a: Value, b: Value) {
    match (a, b)
    case (Nil, Nil) => true
    case (Bool(x), Bool(y)) => x <==> y
    case (Str(s), Str(t)) => s == t
    case (Number(Ranked(m)), Number(Ranked(n))) => m == n
    case _ => false
  }

  lemma EqualityMeans(pr: Primitives, a: Value, b: Value)
    ensures OperatorRun(pr, Eq, a, b) == Some(Bool(Alike(a, b)))
    ensures OperatorRun(pr, Ne, a, b) == Some(Bool(!Alike(a, b)))
  {
    hide OperatorRun;
    OperatorRuns(pr, Eq, a, b);
    OperatorRuns(pr, Ne, a, b);
  }

  /** `+` joins two strings, and adds two numbers; every other operator but the equalities takes two numbers.  The left
      operand comes first. */
  lemma ArithmeticMeans(pr: Primitives, f: NumOp, a: Value, b: Value)
    ensures a.Number? && b.Number? ==>
      OperatorRun(pr, Arithmetic(f), a, b) == Some(Number(pr.arith(f, a.n, b.n)))
    ensures f == Plus && a.Str? && b.Str? ==> OperatorRun(pr, Arithmetic(f), a, b) == Some(Str(a.s + b.s))
    ensures (OperatorRun(pr, Arithmetic(f), a, b) == None) <==>
      !(a.Number? && b.Number?) && !(f == Plus && a.Str? && b.Str?)
  {
    hide OperatorRun;
    OperatorRuns(pr, Arithmetic(f), a, b);
  }

  lemma OrdersNeedNumbers(pr: Primitives, op: BinOp, a: Value, b: Value)
    requires op in [Lt, Gt, Le, Ge]
    ensures OperatorRun(pr, op, a, b).Some? <==> a.Number? && b.Number?
  {
    hide OperatorRun;
    OperatorRuns(pr, op, a, b);
  }

  // ----- which values are true -----

  /** Running the code of `!` gives true for nil and false, and false for everything else: every number, zero and
      not-a-number included, every string and every function is true. */
  lemma NotMeans(pr: Primitives, v: Value)
    ensures Steps(Program(UnaryCode(Not), [], pr), Config(0, [v], map[], []), 1) ==
      Running(Config(1, [Bool(v == Value.Nil || v == Bool(false))], map[], []))
  {
    var p, s := Program(UnaryCode(Not), [], pr), Config(0, [v], map[], []);
    assert Holds(p.code, 0, UnaryCode(Not));
    UnaryStep(p, Not, s);
  }

  function Chosen<T>(v: Value, whenTrue: T, whenFalse: T): T {
    if v == Value.Nil || v == Bool(false) then whenFalse else whenTrue
  }

  /** A conditional goes where its condition's value says. */
  lemma {:induction false} IfMeans(pr: Primitives, e: Expr, s: Stmt, t: Stmt, st: State, fuel: nat)
    requires Eval(pr, e, st).Done?
    ensures var r := Eval(pr, e, st);
      Exec(pr, IfElse(e, s, t), st, fuel) == Exec(pr, Chosen(r.v, s, t), r.st, fuel)
    ensures var r := Eval(pr, e, st);
      Exec(pr, IfThen(e, s), st, fuel) == Chosen(r.v, Exec(pr, s, r.st, fuel), Normal(r.st))
  {
  }

  /** `and` and `or` give the operand that decides. */
  lemma {:induction false} ShortMeans(pr: Primitives, a: Expr, b: Expr, st: State)
    requires Eval(pr, a, st).Done?
    ensures var r := Eval(pr, a, st);
      && Eval(pr, Conj(a, b), st) == Chosen(r.v, Eval(pr, b, r.st), r)
      && Eval(pr, Disj(a, b), st) == Chosen(r.v, r, Eval(pr, b, r.st))
  {
  }

  // ----- said of scripts that run -----

  predicate Script(s: Stmt) {
    GenScript([Statement(s)]).Emit?
  }

  ghost predicate Halts(pr: Primitives, s: Stmt, globals: map<string, Value>, g: map<string, Value>, out: seq<Value>)
    requires Script(s)
  {
    exists n :: RunHalts(pr, [Statement(s)], globals, n, g, out)
  }

  lemma {:induction false} OneStatement(pr: Primitives, s: Stmt, globals: map<string, Value>, fuel: nat)
    ensures Preservation.Outcome(pr, [Statement(s)], globals, fuel) == Exec(pr, s, Initial(globals), fuel)
  {
    hide Exec;
    var ds := [Statement(s)];
    assert ds[..0] == [];
    assert ExecAll(pr, [], Initial(globals), fuel) == Normal(Initial(globals));
    assert ExecAll(pr, ds[..|ds| - 1], Initial(globals), fuel) == Normal(Initial(globals));
    assert ExecAll(pr, ds, Initial(globals), fuel) == ExecDecl(pr, ds[0], Initial(globals), fuel);
  }

  /** Scripts that are evaluated alike run alike. */
  lemma SameRuns(pr: Primitives, a: Stmt, b: Stmt, globals: map<string, Value>, g: map<string, Value>,
      out: seq<Value>)
    requires Script(a) && Script(b)
    requires forall fuel :: Exec(pr, a, Initial(globals), fuel) == Exec(pr, b, Initial(globals), fuel)
    ensures Halts(pr, a, globals, g, out) <==> Halts(pr, b, globals, g, out)
  {
    hide Exec, GenScript;
    ScriptMeaning(pr, [Statement(a)], globals, g, out);
    ScriptMeaning(pr, [Statement(b)], globals, g, out);
    forall fuel: nat
      ensures Ends(pr, [Statement(a)], globals, fuel, g, out) <==> Ends(pr, [Statement(b)], globals, fuel, g, out)
    {
      OneStatement(pr, a, globals, fuel);
      OneStatement(pr, b, globals, fuel);
    }
  }

  /** Running `if (v) s else t` is running one of the two: `t` for nil and false, `s` for every other value. */
  lemma {:induction false} IfRuns(pr: Primitives, v: Value, s: Stmt, t: Stmt, globals: map<string, Value>,
      g: map<string, Value>, out: seq<Value>)
    requires Script(IfElse(Literal(v), s, t)) && Script(s) && Script(t)
    ensures Halts(pr, IfElse(Literal(v), s, t), globals, g, out) <==> Halts(pr, Chosen(v, s, t), globals, g, out)
  {
    hide Exec, GenScript, ExecAll;
    forall fuel: nat
      ensures Exec(pr, IfElse(Literal(v), s, t), Initial(globals), fuel)
        == Exec(pr, Chosen(v, s, t), Initial(globals), fuel)
    {
      assert Eval(pr, Literal(v), Initial(globals)) == Done(v, Initial(globals));
      IfMeans(pr, Literal(v), s, t, Initial(globals), fuel);
    }
    SameRuns(pr, IfElse(Literal(v), s, t), Chosen(v, s, t), globals, g, out);
  }

  /** What a script that prints a value that is known prints. */
  lemma {:induction false} PrintRuns(pr: Primitives, e: Expr, v: Value, globals: map<string, Value>)
    requires Script(PrintStmt(e)) && Eval(pr, e, Initial(globals)) == Done(v, Initial(globals))
    ensures Halts(pr, PrintStmt(e), globals, globals, [v])
  {
    hide GenScript, ExecAll, Eval;
    OneStatement(pr, PrintStmt(e), globals, 0);
    assert Exec(pr, PrintStmt(e), Initial(globals), 0) == Normal(Initial(globals).(output := [v]));
    assert Ends(pr, [Statement(PrintStmt(e))], globals, 0, globals, [v]);
    ScriptMeaning(pr, [Statement(PrintStmt(e))], globals, globals, [v]);
  }

  /** `print v and w;` prints `v` if it is nil or false, and otherwise `w`; `print v or w;` the other one. */
  lemma {:induction false} ShortRuns(pr: Primitives, v: Value, w: Value, globals: map<string, Value>)
    requires Script(PrintStmt(Conj(Literal(v), Literal(w)))) && Script(PrintStmt(Disj(Literal(v), Literal(w))))
    ensures Halts(pr, PrintStmt(Conj(Literal(v), Literal(w))), globals, globals, [Chosen(v, w, v)])
    ensures Halts(pr, PrintStmt(Disj(Literal(v), Literal(w))), globals, globals, [Chosen(v, v, w)])
  {
    hide GenScript, ExecAll, Exec, Script, Halts;
    var st := Initial(globals);
    ShortMeans(pr, Literal(v), Literal(w), st);
    PrintRuns(pr, Conj(Literal(v), Literal(w)), Chosen(v, w, v), globals);
    PrintRuns(pr, Disj(Literal(v), Literal(w)), Chosen(v, v, w), globals);
  }

  /** `while (v) s` ends at once for nil and false; for every other value it never ends normally. */
  lemma {:induction false} WhileRuns(pr: Primitives, v: Value, s: Stmt, globals: map<string, Value>,
      g: map<string, Value>, out: seq<Value>)
    requires Script(WhileLoop(Literal(v), s))
    ensures Halts(pr, WhileLoop(Literal(v), s), globals, g, out) <==>
      (v == Value.Nil || v == Bool(false)) && g == globals && out == []
  {
    hide GenScript, ExecAll, Exec;
    var ds, st := [Statement(WhileLoop(Literal(v), s))], Initial(globals);
    ScriptMeaning(pr, ds, globals, g, out);
    forall fuel: nat
      ensures Ends(pr, ds, globals, fuel, g, out) ==>
        (v == Value.Nil || v == Bool(false)) && g == globals && out == []
    {
      OneStatement(pr, WhileLoop(Literal(v), s), globals, fuel);
      WhileMeans(pr, v, s, st, fuel);
    }
    if v == Value.Nil || v == Bool(false) {
      OneStatement(pr, WhileLoop(Literal(v), s), globals, 1);
      WhileMeans(pr, v, s, st, 1);
      assert Ends(pr, ds, globals, 1, globals, []);
    }
  }

  lemma {:induction false} WhileMeans(pr: Primitives, v: Value, s: Stmt, st: State, fuel: nat)
    ensures var r := Exec(pr, WhileLoop(Literal(v), s), st, fuel);
      if v == Value.Nil || v == Bool(false) then r == if fuel == 0 then OutOfFuel else Normal(st) else !r.Normal?
    decreases fuel
  {
    if fuel > 0 {
      var entered := Semantics.Push(st);
      assert Eval(pr, Literal(v), entered) == Done(v, entered);
      assert Unwind(entered, |st.scopes|) == st by { assert entered.scopes[..|st.scopes|] == st.scopes; }
      if v != Value.Nil && v != Bool(false) {
        var q := UnwindResult(Exec(pr, s, entered, fuel), |st.scopes|);
        if q.Normal? || q.Continued? { WhileMeans(pr, v, s, q.st, fuel - 1); }
      }
    }
  }
}
