/** Run-time values of the language and the primitive operations on them. */
module Values {

  /** The names a program can write.  The spelling "this" is scanned as a keyword, so it never
      reaches the compiler as an identifier; the compiler uses it to name stack slot 0 of a script, and the
      empty name for that of a function. */
  type Ident = s: string | s != "this" && s != "" witness "x"

  /** A double: not-a-number, or its rank in the order of all the others. */
  datatype Num = NaN | Ranked(rank: int)

  predicate Less(a: Num, b: Num) {
    a.Ranked? && b.Ranked? && a.rank < b.rank
  }

  predicate Greater(a: Num, b: Num) {
    Less(b, a)
  }

  datatype Value =
    | Nil
    | Bool(b: bool)
    | Number(n: Num)
    | Str(s: string)
    | Native(id: nat)
    | Script

  /** What a variable holds where functions are values: closures are numbered in the order they are made. */
  datatype Datum = Basic(v: Value) | Closure(id: nat)

  datatype NumOp = Plus | Minus | Times | Divide | Modulo | ShiftLeft | ShiftRight

  /** The operations the machine delegates to the C number type and to the built-in functions.
      Every result of this project holds for every choice of them. */
  datatype Primitives = Primitives(
    arith: (NumOp, Num, Num) -> Num,
    negate: Num -> Num,
    native: (nat, seq<Value>) -> Value)

  predicate IsFalsey(v: Value) {
    v == Nil || v == Bool(false)
  }

  /** Strings are equal when their bytes are; every other object, and not-a-number, differs even
      from itself. */
  predicate ValueEqual(a: Value, b: Value) {
    a == b && !a.Native? && !a.Script? && a != Number(NaN)
  }

  datatype Option<+T> = None | Some(value: T)
}
