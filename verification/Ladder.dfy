/** The grammar of expressions written the usual way, one rule for each level of binding, each in terms of the next
    one, and the proof that the precedence parser reads exactly this grammar. */
module Ladder {
  import opened Values
  import opened Syntax
  import opened Grammar
  import RoundTrip

  /** The operators of each level, from the loosest to the tightest. */
  const EQUALITIES := [Eq, Ne]
  const COMPARISONS := [Lt, Gt, Le, Ge]
  const TERMS := [Arithmetic(Plus), Arithmetic(Minus), Arithmetic(ShiftLeft), Arithmetic(ShiftRight)]
  const FACTORS := [Arithmetic(Times), Arithmetic(Divide), Arithmetic(Modulo)]

  datatype Rung = Assignment | Disjunction | Conjunction | Equality | Comparison | Term | Factor | Prefixed

  /** Operands of a level are expressions of the next. */
  function Next(r: Rung): Rung {
    match r
    case Assignment => Disjunction
    case Disjunction => Conjunction
    case Conjunction => Equality
    case Equality => Comparison
    case Comparison => Term
    case Term => Factor
    case _ => Prefixed
  }

  function Height(r: Rung): nat {
    match r
    case Assignment => 8
    case Disjunction => 7
    case Conjunction => 6
    case Equality => 5
    case Comparison => 4
    case Term => 3
    case Factor => 2
    case Prefixed => 1
  }

  /** The binary operators of a level, which nest to the left. */
  predicate Joins(r: Rung, t: Token) {
    match r
    case Equality => t.Operator? && t.op in EQUALITIES
    case Comparison => t.Operator? && t.op in COMPARISONS
    case Term => t.Operator? && t.op in TERMS
    case Factor => t.Operator? && t.op in FACTORS
    case _ => false
  }

  // ----- the grammar -----

  function Read(r: Rung, ts: seq<Token>, i: nat): (p: Parsed<Expr>)
    ensures p.Good? ==> i < p.pos <= |ts|
    decreases |ts| - i, Height(r)
  {
    match r
    case Assignment =>
      if At(ts, i).Identifier? && At(ts, i + 1) == Token.Equal then
        var v := Read(Assignment, ts, i + 2);
        if v.Bad? then Bad else Good(Assign(ts[i].name, v.value), v.pos)
      else
        var e := Read(Disjunction, ts, i);
        if e.Good? && At(ts, e.pos) == Token.Equal then Bad else e
    case Disjunction =>
      var a := Read(Conjunction, ts, i);
      if a.Bad? || At(ts, a.pos) != Token.Or then a else
        var b := Read(Disjunction, ts, a.pos + 1);
        if b.Bad? then Bad else Good(Disj(a.value, b.value), b.pos)
    case Conjunction =>
      var a := Read(Equality, ts, i);
      if a.Bad? || At(ts, a.pos) != Token.And then a else
        var b := Read(Conjunction, ts, a.pos + 1);
        if b.Bad? then Bad else Good(Conj(a.value, b.value), b.pos)
    case Prefixed =>
      if At(ts, i) == Token.Bang then ReadUnary(Not, ts, i)
      else if At(ts, i) == Operator(Arithmetic(Minus)) then ReadUnary(Neg, ts, i)
      else
        var a := ReadPrimary(ts, i);
        if a.Bad? then Bad else ReadCalls(ts, a.pos, a.value)
    case _ =>
      var a := Read(Next(r), ts, i);
      if a.Bad? then Bad else ReadChain(r, ts, a.pos, a.value)
  }

  /** `left op operand op operand ...` of one level. */
  function ReadChain(r: Rung, ts: seq<Token>, i: nat, left: Expr): (p: Parsed<Expr>)
    requires i <= |ts| && Height(r) > 1
    ensures p.Good? ==> i <= p.pos <= |ts|
    decreases |ts| - i, 0
  {
    if !Joins(r, At(ts, i)) then Good(left, i) else
      var b := Read(Next(r), ts, i + 1);
      if b.Bad? then Bad else ReadChain(r, ts, b.pos, Binary(ts[i].op, left, b.value))
  }

  function ReadUnary(op: UnOp, ts: seq<Token>, i: nat): (p: Parsed<Expr>)
    requires i < |ts|
    ensures p.Good? ==> i < p.pos <= |ts|
    decreases |ts| - i, 0
  {
    var a := Read(Prefixed, ts, i + 1);
    if a.Bad? then Bad else Good(Unary(op, a.value), a.pos)
  }

  function ReadPrimary(ts: seq<Token>, i: nat): (p: Parsed<Expr>)
    ensures p.Good? ==> i < p.pos <= |ts|
    decreases |ts| - i, 0
  {
    match At(ts, i)
    case NumberLit(n) => Good(Literal(Number(Ranked(n))), i + 1)
    case StringLit(s) => Good(Literal(Str(s)), i + 1)
    case True => Good(Literal(Bool(true)), i + 1)
    case False => Good(Literal(Bool(false)), i + 1)
    case Nil => Good(Literal(Value.Nil), i + 1)
    case Identifier(x) => Good(Variable(x), i + 1)
    case LeftParen =>
      var e := Read(Assignment, ts, i + 1);
      if e.Bad? || At(ts, e.pos) != RightParen then Bad else Good(e.value, e.pos + 1)
    case _ => Bad
  }

  /** `f(...)(...)...`. */
  function ReadCalls(ts: seq<Token>, i: nat, f: Expr): (p: Parsed<Expr>)
    requires i <= |ts|
    ensures p.Good? ==> i <= p.pos <= |ts|
    decreases |ts| - i, 0
  {
    if At(ts, i) != LeftParen then Good(f, i)
    else if At(ts, i + 1) == RightParen then ReadCalls(ts, i + 2, Call(f, []))
    else
      var a := ReadArguments(ts, i + 1, []);
      if a.Bad? then Bad else ReadCalls(ts, a.pos, Call(f, a.value))
  }

  function ReadArguments(ts: seq<Token>, i: nat, before: seq<Expr>): (p: Parsed<seq<Expr>>)
    ensures p.Good? ==> i < p.pos <= |ts|
    decreases |ts| - i, 9
  {
    var e := Read(Assignment, ts, i);
    if e.Bad? then Bad
    else if At(ts, e.pos) == Comma then ReadArguments(ts, e.pos + 1, before + [e.value])
    else if At(ts, e.pos) == RightParen then Good(before + [e.value], e.pos + 1)
    else Bad
  }

  // ----- the precedence parser reads it -----

  function Precedence(r: Rung): (p: nat)
    ensures PREC_ASSIGNMENT <= p <= PREC_UNARY
  {
    9 - Height(r)
  }

  /** The parser stops before what binds less. */
  lemma {:induction false} Stops(ts: seq<Token>, i: nat, prec: nat, left: Expr)
    requires i <= |ts| && prec > PREC_NONE
    ensures var p := ParseInfix(ts, i, prec, left);
      p.Good? ==> RulePrec(At(ts, p.pos)) < prec && (prec == PREC_ASSIGNMENT ==> At(ts, p.pos) != Token.Equal)
    decreases |ts| - i
  {
    hide ParsePrec, ParseArgs, RightPrec, Combine;
    var t := At(ts, i);
    if RulePrec(t) >= prec {
      if t == LeftParen {
        var a := ParseArgs(ts, i + 1);
        if a.Good? { Stops(ts, a.pos, prec, Call(left, a.value)); }
      } else {
        var b := ParsePrec(ts, i + 1, RightPrec(t));
        if b.Good? { Stops(ts, b.pos, prec, Combine(t, left, b.value)); }
      }
    }
  }

  /** What binds tighter is read first. */
  lemma {:induction false} Splits(ts: seq<Token>, i: nat, prec: nat, left: Expr)
    requires i <= |ts| && prec > PREC_NONE
    ensures var p := ParseInfix(ts, i, prec + 1, left);
      ParseInfix(ts, i, prec, left) == if p.Bad? then Bad else ParseInfix(ts, p.pos, prec, p.value)
    decreases |ts| - i
  {
    hide ParsePrec, ParseArgs, RightPrec, Combine;
    var t := At(ts, i);
    if RulePrec(t) > prec {
      if t == LeftParen {
        var a := ParseArgs(ts, i + 1);
        if a.Good? { Splits(ts, a.pos, prec, Call(left, a.value)); }
      } else {
        var b := ParsePrec(ts, i + 1, RightPrec(t));
        if b.Good? { Splits(ts, b.pos, prec, Combine(t, left, b.value)); }
      }
    }
  }

  lemma {:induction false} SamePrefix(ts: seq<Token>, i: nat, p: nat, q: nat)
    requires (p > PREC_ASSIGNMENT && q > PREC_ASSIGNMENT) || !At(ts, i).Identifier? || At(ts, i + 1) != Token.Equal
    ensures ParsePrefix(ts, i, p) == ParsePrefix(ts, i, q)
  {
    hide ParsePrec;
  }

  /** One level in terms of the next. */
  lemma {:induction false} LevelSplits(ts: seq<Token>, i: nat, prec: nat)
    requires prec > PREC_NONE
    requires prec > PREC_ASSIGNMENT || !At(ts, i).Identifier? || At(ts, i + 1) != Token.Equal
    ensures var a := ParsePrec(ts, i, prec + 1);
      ParsePrec(ts, i, prec) == if a.Bad? then Bad else ParseInfix(ts, a.pos, prec, a.value)
    ensures var a := ParsePrec(ts, i, prec + 1); a.Good? ==> RulePrec(At(ts, a.pos)) <= prec
  {
    hide ParsePrefix, ParseInfix, RulePrec;
    SamePrefix(ts, i, prec, prec + 1);
    var p := ParsePrefix(ts, i, prec);
    if p.Good? {
      Splits(ts, p.pos, prec, p.value);
      Stops(ts, p.pos, prec + 1, p.value);
    }
  }

  lemma JoinsAt(r: Rung, t: Token)
    requires r.Equality? || r.Comparison? || r.Term? || r.Factor?
    ensures Joins(r, t) <==> RulePrec(t) == Precedence(r)
    ensures Joins(r, t) ==> RightPrec(t) == Precedence(Next(r)) && t.Operator?
  {
  }

  /** The precedence parser reads the grammar: at every level, from every place of every token list, the same tree up
      to the same place, or nothing. */
  lemma {:induction false} ReadsLevel(r: Rung, ts: seq<Token>, i: nat)
    ensures ParsePrec(ts, i, Precedence(r)) == Read(r, ts, i)
    decreases |ts| - i, Height(r)
  {
    hide ParsePrec, ParseInfix, Read, Joins, RulePrec;
    match r
    case Assignment => ReadsAssignment(ts, i);
    case Disjunction => ReadsShort(r, ts, i);
    case Conjunction => ReadsShort(r, ts, i);
    case Prefixed => ReadsPrefixed(ts, i);
    case _ =>
      ReadsLevel(Next(r), ts, i);
      LevelSplits(ts, i, Precedence(r));
      var a := Read(Next(r), ts, i);
      if a.Good? { ReadsChain(r, ts, a.pos, a.value); }
      ChainRule(r, ts, i);
  }

  lemma {:induction false} ChainRule(r: Rung, ts: seq<Token>, i: nat)
    requires r.Equality? || r.Comparison? || r.Term? || r.Factor?
    ensures var a := Read(Next(r), ts, i);
      Read(r, ts, i) == if a.Bad? then Bad else ReadChain(r, ts, a.pos, a.value)
  {
    hide ReadChain;
  }

  lemma {:induction false} ReadsChain(r: Rung, ts: seq<Token>, i: nat, left: Expr)
    requires r.Equality? || r.Comparison? || r.Term? || r.Factor?
    requires i <= |ts| && RulePrec(At(ts, i)) <= Precedence(r)
    ensures ParseInfix(ts, i, Precedence(r), left) == ReadChain(r, ts, i, left)
    decreases |ts| - i, 0
  {
    hide ParsePrec, Read, Joins, RulePrec, RightPrec;
    var t := At(ts, i);
    JoinsAt(r, t);
    if Joins(r, t) {
      ReadsLevel(Next(r), ts, i + 1);
      var b := Read(Next(r), ts, i + 1);
      if b.Good? {
        StopsAfter(ts, i + 1, Precedence(Next(r)));
        ReadsChain(r, ts, b.pos, Binary(t.op, left, b.value));
      }
      InfixRule(ts, i, Precedence(r), left);
    } else {
      InfixEnds(ts, i, Precedence(r), left);
    }
  }

  lemma {:induction false} StopsAfter(ts: seq<Token>, i: nat, prec: nat)
    requires prec > PREC_NONE
    ensures var a := ParsePrec(ts, i, prec); a.Good? ==> RulePrec(At(ts, a.pos)) < prec
    ensures var a := ParsePrec(ts, i, prec); a.Good? && prec == PREC_ASSIGNMENT ==> At(ts, a.pos) != Token.Equal
  {
    hide ParsePrefix, ParseInfix, RulePrec;
    var p := ParsePrefix(ts, i, prec);
    if p.Good? { Stops(ts, p.pos, prec, p.value); }
  }

  lemma {:induction false} InfixRule(ts: seq<Token>, i: nat, prec: nat, left: Expr)
    requires i <= |ts| && RulePrec(At(ts, i)) >= prec > PREC_NONE && At(ts, i) != LeftParen
    ensures var b := ParsePrec(ts, i + 1, RightPrec(At(ts, i)));
      ParseInfix(ts, i, prec, left) ==
        if b.Bad? then Bad else ParseInfix(ts, b.pos, prec, Combine(At(ts, i), left, b.value))
  {
    hide ParsePrec, RightPrec, Combine;
  }

  lemma {:induction false} InfixEnds(ts: seq<Token>, i: nat, prec: nat, left: Expr)
    requires i <= |ts| && RulePrec(At(ts, i)) < prec
    requires prec > PREC_ASSIGNMENT || At(ts, i) != Token.Equal
    ensures ParseInfix(ts, i, prec, left) == Good(left, i)
  {
  }

  lemma {:induction false} AssignmentRule(ts: seq<Token>, i: nat)
    ensures At(ts, i).Identifier? && At(ts, i + 1) == Token.Equal ==>
      var v := Read(Assignment, ts, i + 2);
      Read(Assignment, ts, i) == if v.Bad? then Bad else Good(Assign(At(ts, i).name, v.value), v.pos)
    ensures !At(ts, i).Identifier? || At(ts, i + 1) != Token.Equal ==>
      var e := Read(Disjunction, ts, i);
      Read(Assignment, ts, i) == if e.Good? && At(ts, e.pos) == Token.Equal then Bad else e
  {
  }

  lemma {:induction false} AssignmentStep(ts: seq<Token>, i: nat)
    requires At(ts, i).Identifier? && At(ts, i + 1) == Token.Equal
    requires var v := ParsePrec(ts, i + 2, PREC_ASSIGNMENT);
      v.Good? ==> RulePrec(At(ts, v.pos)) < PREC_ASSIGNMENT && At(ts, v.pos) != Token.Equal
    ensures var v := ParsePrec(ts, i + 2, PREC_ASSIGNMENT);
      ParsePrec(ts, i, PREC_ASSIGNMENT) == if v.Bad? then Bad else Good(Assign(At(ts, i).name, v.value), v.pos)
  {
    hide ParseInfix, RulePrec;
    var v := ParsePrec(ts, i + 2, PREC_ASSIGNMENT);
    if v.Good? { InfixEnds(ts, v.pos, PREC_ASSIGNMENT, Assign(At(ts, i).name, v.value)); }
  }

  lemma {:induction false} ReadsAssignment(ts: seq<Token>, i: nat)
    ensures ParsePrec(ts, i, PREC_ASSIGNMENT) == Read(Assignment, ts, i)
    decreases |ts| - i, Height(Assignment), 0
  {
    hide ParsePrec, ParseInfix, RulePrec, Read;
    AssignmentRule(ts, i);
    if At(ts, i).Identifier? && At(ts, i + 1) == Token.Equal {
      ReadsLevel(Assignment, ts, i + 2);
      StopsAfter(ts, i + 2, PREC_ASSIGNMENT);
      AssignmentStep(ts, i);
    } else {
      ReadsLevel(Disjunction, ts, i);
      LevelSplits(ts, i, PREC_ASSIGNMENT);
      var e := Read(Disjunction, ts, i);
      if e.Good? {
        StopsAfter(ts, i, PREC_OR);
        TopEnds(ts, e.pos, e.value);
      }
    }
  }

  lemma {:induction false} TopEnds(ts: seq<Token>, i: nat, left: Expr)
    requires i <= |ts| && RulePrec(At(ts, i)) < PREC_OR
    ensures ParseInfix(ts, i, PREC_ASSIGNMENT, left) == if At(ts, i) == Token.Equal then Bad else Good(left, i)
  {
  }

  lemma {:induction false} ShortRule(r: Rung, ts: seq<Token>, i: nat)
    requires r.Disjunction? || r.Conjunction?
    ensures var a := Read(Next(r), ts, i);
      Read(r, ts, i) ==
        if a.Bad? || At(ts, a.pos) != (if r.Disjunction? then Token.Or else Token.And) then a
        else
          var b := Read(r, ts, a.pos + 1);
          if b.Bad? then Bad
          else Good(if r.Disjunction? then Disj(a.value, b.value) else Conj(a.value, b.value), b.pos)
  {
  }

  /** `and` and `or` nest to the right. */
  lemma {:induction false} ReadsShort(r: Rung, ts: seq<Token>, i: nat)
    requires r.Disjunction? || r.Conjunction?
    ensures ParsePrec(ts, i, Precedence(r)) == Read(r, ts, i)
    decreases |ts| - i, Height(r), 0
  {
    hide ParsePrec, ParseInfix, Read;
    ShortRule(r, ts, i);
    ReadsLevel(Next(r), ts, i);
    LevelSplits(ts, i, Precedence(r));
    var a := Read(Next(r), ts, i);
    if a.Good? {
      var t := At(ts, a.pos);
      if RulePrec(t) == Precedence(r) {
        InfixRule(ts, a.pos, Precedence(r), a.value);
        ReadsLevel(r, ts, a.pos + 1);
        StopsAfter(ts, a.pos + 1, Precedence(r));
        var b := Read(r, ts, a.pos + 1);
        if b.Good? { InfixEnds(ts, b.pos, Precedence(r), Combine(t, a.value, b.value)); }
      } else {
        InfixEnds(ts, a.pos, Precedence(r), a.value);
      }
    }
  }

  lemma {:induction false} ReadsPrefixed(ts: seq<Token>, i: nat)
    ensures ParsePrec(ts, i, PREC_UNARY) == Read(Prefixed, ts, i)
    decreases |ts| - i, Height(Prefixed), 0
  {
    hide ParseInfix, RulePrec, ReadCalls;
    var t := At(ts, i);
    if t == Token.Bang || t == Operator(Arithmetic(Minus)) {
      ReadsLevel(Prefixed, ts, i + 1);
      StopsAfter(ts, i + 1, PREC_UNARY);
      var a := Read(Prefixed, ts, i + 1);
      if a.Good? {
        InfixEnds(ts, a.pos, PREC_UNARY, Unary(if t == Token.Bang then Not else Neg, a.value));
      }
    } else {
      if t == LeftParen { ReadsLevel(Assignment, ts, i + 1); }
      var a := ReadPrimary(ts, i);
      if a.Good? { ReadsCalls(ts, a.pos, a.value); }
    }
  }

  lemma {:induction false} ReadsCalls(ts: seq<Token>, i: nat, f: Expr)
    requires i <= |ts|
    ensures ParseInfix(ts, i, PREC_UNARY, f) == ReadCalls(ts, i, f)
    decreases |ts| - i, 0
  {
    hide ParsePrec, Read, ParseArgList, ReadArguments;
    if At(ts, i) == LeftParen {
      if At(ts, i + 1) == RightParen {
        ReadsCalls(ts, i + 2, Call(f, []));
      } else {
        ReadsArguments(ts, i + 1, []);
        var a := ReadArguments(ts, i + 1, []);
        if a.Good? { ReadsCalls(ts, a.pos, Call(f, a.value)); }
      }
    }
  }

  lemma {:induction false} ReadsArguments(ts: seq<Token>, i: nat, before: seq<Expr>)
    ensures ParseArgList(ts, i, before) == ReadArguments(ts, i, before)
    decreases |ts| - i, 9
  {
    hide ParsePrec, Read;
    ReadsLevel(Assignment, ts, i);
    var e := Read(Assignment, ts, i);
    if e.Good? && At(ts, e.pos) == Comma { ReadsArguments(ts, e.pos + 1, before + [e.value]); }
  }

  // ----- which operator binds tighter -----

  /** The binary operators, level by level, the loosest first. */
  const LEVELS := [EQUALITIES, COMPARISONS, TERMS, FACTORS]

  lemma LevelPrec(k: nat, op: BinOp)
    requires k < 4 && op in LEVELS[k]
    ensures OperatorPrec(op) == k + PREC_EQUALITY
  {
    var i :| 0 <= i < |LEVELS[k]| && LEVELS[k][i] == op;
  }

  lemma {:induction false} Leaf(ts: seq<Token>, i: nat, x: Ident, prec: nat)
    requires At(ts, i) == Identifier(x) && At(ts, i + 1) != Token.Equal && RulePrec(At(ts, i + 1)) < prec
    ensures ParsePrec(ts, i, prec) == Good(Variable(x), i + 1)
  {
  }

  /** Operands `a`, `b` and `c` with two operators between them, of which the second binds tighter, or is the same
      operator of a kind that nests to the right. */
  lemma {:induction false} SecondFirst(ts: seq<Token>, a: Ident, b: Ident, c: Ident)
    requires |ts| == 5 && ts[0] == Identifier(a) && ts[2] == Identifier(b) && ts[4] == Identifier(c)
    requires (ts[1].Operator? || ts[1] == Token.And || ts[1] == Token.Or)
    requires (ts[3].Operator? || ts[3] == Token.And || ts[3] == Token.Or)
    requires RulePrec(ts[3]) >= RightPrec(ts[1])
    ensures ParseExpr(ts, 0) == Good(Combine(ts[1], Variable(a), Combine(ts[3], Variable(b), Variable(c))), 5)
  {
    hide RightPrec, Combine;
    Ranges(ts[1]);
    Ranges(ts[3]);
    var right := Combine(ts[3], Variable(b), Variable(c));
    Leaf(ts, 4, c, RightPrec(ts[3]));
    InfixRule(ts, 3, RightPrec(ts[1]), Variable(b));
    InfixEnds(ts, 5, RightPrec(ts[1]), right);
    assert ParsePrec(ts, 2, RightPrec(ts[1])) == Good(right, 5) by { AfterLeaf(ts, 2, b, RightPrec(ts[1])); }
    InfixRule(ts, 1, PREC_ASSIGNMENT, Variable(a));
    InfixEnds(ts, 5, PREC_ASSIGNMENT, Combine(ts[1], Variable(a), right));
    AfterLeaf(ts, 0, a, PREC_ASSIGNMENT);
  }

  /** And of which the first does. */
  lemma {:induction false} FirstFirst(ts: seq<Token>, a: Ident, b: Ident, c: Ident)
    requires |ts| == 5 && ts[0] == Identifier(a) && ts[2] == Identifier(b) && ts[4] == Identifier(c)
    requires (ts[1].Operator? || ts[1] == Token.And || ts[1] == Token.Or)
    requires (ts[3].Operator? || ts[3] == Token.And || ts[3] == Token.Or)
    requires RulePrec(ts[3]) < RightPrec(ts[1])
    ensures ParseExpr(ts, 0) == Good(Combine(ts[3], Combine(ts[1], Variable(a), Variable(b)), Variable(c)), 5)
  {
    hide RightPrec, Combine;
    Ranges(ts[1]);
    Ranges(ts[3]);
    var left := Combine(ts[1], Variable(a), Variable(b));
    AfterLeaf(ts, 0, a, PREC_ASSIGNMENT);
    Leaf(ts, 2, b, RightPrec(ts[1]));
    InfixRule(ts, 1, PREC_ASSIGNMENT, Variable(a));
    Leaf(ts, 4, c, RightPrec(ts[3]));
    InfixRule(ts, 3, PREC_ASSIGNMENT, left);
    InfixEnds(ts, 5, PREC_ASSIGNMENT, Combine(ts[3], left, Variable(c)));
  }

  lemma Ranges(t: Token)
    requires t.Operator? || t == Token.And || t == Token.Or
    ensures PREC_OR <= RulePrec(t) <= RightPrec(t) <= PREC_UNARY
  {
  }

  lemma {:induction false} AfterLeaf(ts: seq<Token>, i: nat, x: Ident, prec: nat)
    requires i < |ts| && ts[i] == Identifier(x) && At(ts, i + 1) != Token.Equal
    ensures ParsePrec(ts, i, prec) == ParseInfix(ts, i + 1, prec, Variable(x))
  {
    hide ParseInfix;
  }

  /** Of two binary operators the one of the later level binds tighter, on either side; of two of the same level the
      first does. */
  lemma TighterOperator(a: Ident, b: Ident, c: Ident, k: nat, g: BinOp, l: nat, f: BinOp)
    requires k <= l < 4 && g in LEVELS[k] && f in LEVELS[l]
    ensures k < l ==>
      ParseExpr([Identifier(a), Operator(g), Identifier(b), Operator(f), Identifier(c)], 0)
        == Good(Binary(g, Variable(a), Binary(f, Variable(b), Variable(c))), 5)
    ensures ParseExpr([Identifier(a), Operator(f), Identifier(b), Operator(g), Identifier(c)], 0)
        == Good(Binary(g, Binary(f, Variable(a), Variable(b)), Variable(c)), 5)
  {
    hide ParsePrec;
    LevelPrec(k, g);
    LevelPrec(l, f);
    if k < l { SecondFirst([Identifier(a), Operator(g), Identifier(b), Operator(f), Identifier(c)], a, b, c); }
    FirstFirst([Identifier(a), Operator(f), Identifier(b), Operator(g), Identifier(c)], a, b, c);
  }

  /** Every binary operator binds tighter than `and`, and `and` tighter than `or`; chains of `and`, and of `or`, nest to
      the right. */
  lemma TighterThanShort(a: Ident, b: Ident, c: Ident, op: BinOp)
    ensures ParseExpr([Identifier(a), Token.And, Identifier(b), Operator(op), Identifier(c)], 0)
      == Good(Conj(Variable(a), Binary(op, Variable(b), Variable(c))), 5)
    ensures ParseExpr([Identifier(a), Operator(op), Identifier(b), Token.And, Identifier(c)], 0)
      == Good(Conj(Binary(op, Variable(a), Variable(b)), Variable(c)), 5)
    ensures ParseExpr([Identifier(a), Token.Or, Identifier(b), Token.And, Identifier(c)], 0)
      == Good(Disj(Variable(a), Conj(Variable(b), Variable(c))), 5)
    ensures ParseExpr([Identifier(a), Token.And, Identifier(b), Token.Or, Identifier(c)], 0)
      == Good(Disj(Conj(Variable(a), Variable(b)), Variable(c)), 5)
    ensures ParseExpr([Identifier(a), Token.And, Identifier(b), Token.And, Identifier(c)], 0)
      == Good(Conj(Variable(a), Conj(Variable(b), Variable(c))), 5)
    ensures ParseExpr([Identifier(a), Token.Or, Identifier(b), Token.Or, Identifier(c)], 0)
      == Good(Disj(Variable(a), Disj(Variable(b), Variable(c))), 5)
  {
    hide ParsePrec;
    SecondFirst([Identifier(a), Token.And, Identifier(b), Operator(op), Identifier(c)], a, b, c);
    FirstFirst([Identifier(a), Operator(op), Identifier(b), Token.And, Identifier(c)], a, b, c);
    SecondFirst([Identifier(a), Token.Or, Identifier(b), Token.And, Identifier(c)], a, b, c);
    FirstFirst([Identifier(a), Token.And, Identifier(b), Token.Or, Identifier(c)], a, b, c);
    SecondFirst([Identifier(a), Token.And, Identifier(b), Token.And, Identifier(c)], a, b, c);
    SecondFirst([Identifier(a), Token.Or, Identifier(b), Token.Or, Identifier(c)], a, b, c);
  }

  /** Negation and calls bind tighter than every binary operator, and a call tighter than a negation. */
  lemma {:induction false} TightestFirst(a: Ident, b: Ident, op: BinOp)
    ensures ParseExpr([Operator(Arithmetic(Minus)), Identifier(a), Operator(op), Identifier(b)], 0)
      == Good(Binary(op, Unary(Neg, Variable(a)), Variable(b)), 4)
    ensures ParseExpr([Token.Bang, Identifier(a), Operator(op), Identifier(b)], 0)
      == Good(Binary(op, Unary(Not, Variable(a)), Variable(b)), 4)
    ensures ParseExpr([Identifier(a), Operator(op), Identifier(b), LeftParen, RightParen], 0)
      == Good(Binary(op, Variable(a), Call(Variable(b), [])), 5)
    ensures ParseExpr([Token.Bang, Identifier(a), LeftParen, RightParen], 0)
      == Good(Unary(Not, Call(Variable(a), [])), 4)
  {
    UnaryFirst(Operator(Arithmetic(Minus)), Neg, a, b, op);
    UnaryFirst(Token.Bang, Not, a, b, op);
    CallFirst(a, b, op);
    var ts := [Token.Bang, Identifier(a), LeftParen, RightParen];
    CallEnds(ts, 2, PREC_UNARY, Variable(a));
    AfterLeaf(ts, 1, a, PREC_UNARY);
    AfterUnary(ts, Token.Bang, Not, Call(Variable(a), []), 4);
    InfixEnds(ts, 4, PREC_ASSIGNMENT, Unary(Not, Call(Variable(a), [])));
  }

  lemma {:induction false} AfterUnary(ts: seq<Token>, t: Token, uop: UnOp, e: Expr, j: nat)
    requires (t == Token.Bang && uop == Not) || (t == Operator(Arithmetic(Minus)) && uop == Neg)
    requires ts != [] && ts[0] == t && ParsePrec(ts, 1, PREC_UNARY) == Good(e, j)
    ensures ParseExpr(ts, 0) == ParseInfix(ts, j, PREC_ASSIGNMENT, Unary(uop, e))
  {
    RoundTrip.UnaryParse(ts, 0, PREC_ASSIGNMENT, uop, e, j);
  }

  lemma {:induction false} AfterEqual(ts: seq<Token>, i: nat, x: Ident, e: Expr)
    requires i + 1 < |ts| && ts[i] == Identifier(x) && ts[i + 1] == Token.Equal
    requires ParsePrec(ts, i + 2, PREC_ASSIGNMENT) == Good(e, |ts|)
    ensures ParsePrec(ts, i, PREC_ASSIGNMENT) == Good(Assign(x, e), |ts|)
  {
    InfixEnds(ts, |ts|, PREC_ASSIGNMENT, Assign(x, e));
  }

  lemma {:induction false} CallEnds(ts: seq<Token>, i: nat, prec: nat, f: Expr)
    requires |ts| == i + 2 && ts[i] == LeftParen && ts[i + 1] == RightParen && PREC_ASSIGNMENT < prec <= PREC_UNARY
    ensures ParseInfix(ts, i, prec, f) == Good(Call(f, []), i + 2)
  {
    InfixEnds(ts, i + 2, prec, Call(f, []));
  }

  lemma {:induction false} CallFirst(a: Ident, b: Ident, op: BinOp)
    ensures ParseExpr([Identifier(a), Operator(op), Identifier(b), LeftParen, RightParen], 0)
      == Good(Binary(op, Variable(a), Call(Variable(b), [])), 5)
  {
    hide ParsePrec, ParseInfix;
    var ts := [Identifier(a), Operator(op), Identifier(b), LeftParen, RightParen];
    var prec := RightPrec(ts[1]);
    CallEnds(ts, 3, prec, Variable(b));
    AfterLeaf(ts, 2, b, prec);
    InfixRule(ts, 1, PREC_ASSIGNMENT, Variable(a));
    InfixEnds(ts, 5, PREC_ASSIGNMENT, Binary(op, Variable(a), Call(Variable(b), [])));
    AfterLeaf(ts, 0, a, PREC_ASSIGNMENT);
  }

  lemma {:induction false} UnaryFirst(t: Token, uop: UnOp, a: Ident, b: Ident, op: BinOp)
    requires (t == Token.Bang && uop == Not) || (t == Operator(Arithmetic(Minus)) && uop == Neg)
    ensures ParseExpr([t, Identifier(a), Operator(op), Identifier(b)], 0)
      == Good(Binary(op, Unary(uop, Variable(a)), Variable(b)), 4)
  {
    hide ParseInfix;
    var ts := [t, Identifier(a), Operator(op), Identifier(b)];
    Leaf(ts, 1, a, PREC_UNARY);
    AfterUnary(ts, t, uop, Variable(a), 2);
    Leaf(ts, 3, b, RightPrec(ts[2]));
    InfixRule(ts, 2, PREC_ASSIGNMENT, Unary(uop, Variable(a)));
    InfixEnds(ts, 4, PREC_ASSIGNMENT, Binary(op, Unary(uop, Variable(a)), Variable(b)));
  }

  /** Assignment takes everything to its right, and its target is a name standing alone. */
  lemma {:induction false} LoosestLast(a: Ident, b: Ident, c: Ident, op: BinOp)
    ensures ParseExpr([Identifier(a), Token.Equal, Identifier(b), Operator(op), Identifier(c)], 0)
      == Good(Assign(a, Binary(op, Variable(b), Variable(c))), 5)
    ensures ParseExpr([Identifier(a), Token.Equal, Identifier(b), Token.Or, Identifier(c)], 0)
      == Good(Assign(a, Disj(Variable(b), Variable(c))), 5)
    ensures ParseExpr([Identifier(a), Token.Equal, Identifier(b), Token.Equal, Identifier(c)], 0)
      == Good(Assign(a, Assign(b, Variable(c))), 5)
    ensures ParseExpr([Identifier(a), Operator(op), Identifier(b), Token.Equal, Identifier(c)], 0) == Bad
    ensures ParseExpr([Identifier(a), Token.Or, Identifier(b), Token.Equal, Identifier(c)], 0) == Bad
  {
    hide ParsePrec;
    AssignsAll(a, b, c, Operator(op));
    AssignsAll(a, b, c, Token.Or);
    AssignsTwice(a, b, c);
    NoTarget(a, b, c, Operator(op));
    NoTarget(a, b, c, Token.Or);
  }

  lemma {:induction false} AssignsAll(a: Ident, b: Ident, c: Ident, t: Token)
    requires t.Operator? || t == Token.And || t == Token.Or
    ensures ParseExpr([Identifier(a), Token.Equal, Identifier(b), t, Identifier(c)], 0)
      == Good(Assign(a, Combine(t, Variable(b), Variable(c))), 5)
  {
    hide ParseInfix, ParsePrec, Combine, RightPrec;
    var ts := [Identifier(a), Token.Equal, Identifier(b), t, Identifier(c)];
    Ranges(t);
    AfterLeaf(ts, 2, b, PREC_ASSIGNMENT);
    Leaf(ts, 4, c, RightPrec(t));
    InfixRule(ts, 3, PREC_ASSIGNMENT, Variable(b));
    InfixEnds(ts, 5, PREC_ASSIGNMENT, Combine(t, Variable(b), Variable(c)));
    AfterEqual(ts, 0, a, Combine(t, Variable(b), Variable(c)));
  }

  lemma {:induction false} AssignsTwice(a: Ident, b: Ident, c: Ident)
    ensures ParseExpr([Identifier(a), Token.Equal, Identifier(b), Token.Equal, Identifier(c)], 0)
      == Good(Assign(a, Assign(b, Variable(c))), 5)
  {
    var ts := [Identifier(a), Token.Equal, Identifier(b), Token.Equal, Identifier(c)];
    Leaf(ts, 4, c, PREC_ASSIGNMENT);
    AfterEqual(ts, 2, b, Variable(c));
    AfterEqual(ts, 0, a, Assign(b, Variable(c)));
  }

  lemma {:induction false} NoTarget(a: Ident, b: Ident, c: Ident, t: Token)
    requires t.Operator? || t == Token.And || t == Token.Or
    ensures ParseExpr([Identifier(a), t, Identifier(b), Token.Equal, Identifier(c)], 0) == Bad
  {
    hide Combine, RightPrec;
    var ts := [Identifier(a), t, Identifier(b), Token.Equal, Identifier(c)];
    Ranges(t);
    SamePrefixHere(ts, b, RightPrec(t));
    InfixEnds(ts, 3, RightPrec(t), Variable(b));
    InfixRule(ts, 1, PREC_ASSIGNMENT, Variable(a));
    AfterLeaf(ts, 0, a, PREC_ASSIGNMENT);
  }

  lemma {:induction false} SamePrefixHere(ts: seq<Token>, b: Ident, prec: nat)
    requires |ts| == 5 && ts[2] == Identifier(b) && prec > PREC_ASSIGNMENT
    ensures ParsePrec(ts, 2, prec) == ParseInfix(ts, 3, prec, Variable(b))
  {
    hide ParseInfix;
  }
}
