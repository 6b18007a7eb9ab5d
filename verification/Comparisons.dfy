/** Operators that are written with two instructions. */
module Comparisons {
  import opened Values
  import opened Syntax
  import opened Semantics
  import opened Bytecode
  import opened Codegen
  import opened Machine
  import opened Expressions

  /** The code of an operator run on two operands. */
  function OperatorRun(pr: Primitives, op: BinOp, a: Value, b: Value): Option<Value> {
    var code := BinaryCode(op);
    match Steps(Program(code, [], pr), Config(0, [a, b], map[], []), |code|)
    case Running(s) => if |s.stack| > 0 then Some(Top(s, 0)) else None
    case _ => None
  }

  predicate IsComparison(op: BinOp) {
    !op.Arithmetic?
  }

  /** What a comparison of numbers should say, as IEEE 754 has it: not-a-number is unequal to everything
      and on neither side of anything; all other numbers compare by rank. */
  function Intended(op: BinOp, a: Num, b: Num): bool
    requires IsComparison(op)
  {
    var comparable := a.Ranked? && b.Ranked?;
    match op
    case Eq => comparable && a.rank == b.rank
    case Ne => !comparable || a.rank != b.rank
    case Lt => comparable && a.rank < b.rank
    case Gt => comparable && a.rank > b.rank
    case Le => comparable && a.rank <= b.rank
    case Ge => comparable && a.rank >= b.rank
  }

  /** Running an operator's code on any two operands is evaluating the operator. */
  lemma OperatorRuns(pr: Primitives, op: BinOp, a: Value, b: Value)
    ensures OperatorRun(pr, op, a, b) == BinaryValue(pr, op, a, b)
  {
    hide Steps, BinaryValue, BinaryCode, BinaryOutcome;
    var code := BinaryCode(op);
    var p, s := Program(code, [], pr), Config(0, [a, b], map[], []);
    assert Holds(code, 0, code);
    var n := BinaryStep(p, op, s);
  }

  /** The code of a comparison says what the comparison should say exactly if it is not `<=` or `>=`
      or neither operand is not-a-number. */
  lemma OperatorsMean(pr: Primitives, op: BinOp, a: Num, b: Num)
    requires IsComparison(op)
    ensures OperatorRun(pr, op, Number(a), Number(b)) == Some(Bool(Intended(op, a, b))) <==>
      (op == Le || op == Ge ==> a.Ranked? && b.Ranked?)
  {
    hide OperatorRun;
    OperatorRuns(pr, op, Number(a), Number(b));
  }

  /** Where the code is wrong: `<=` and `>=` hold between not-a-number and everything. */
  lemma NotANumber(pr: Primitives, op: BinOp, a: Num)
    requires op == Le || op == Ge
    ensures OperatorRun(pr, op, Number(NaN), Number(a)) == OperatorRun(pr, op, Number(a), Number(NaN)) ==
      Some(Bool(true))
    ensures !Intended(op, NaN, a) && !Intended(op, a, NaN)
  {
    hide OperatorRun;
    OperatorRuns(pr, op, Number(NaN), Number(a));
    OperatorRuns(pr, op, Number(a), Number(NaN));
  }
}
