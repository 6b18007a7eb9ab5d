/** Writing an expression with as few parentheses as the precedences allow, and reading it back. */
module RoundTrip {
  import opened Values
  import opened Syntax
  import opened Grammar

  /** The precedence level of a tree's outermost construct. */
  function Level(e: Expr): (r: nat)
    ensures PREC_ASSIGNMENT <= r <= PREC_PRIMARY
  {
    match e
    case Assign(_, _) => PREC_ASSIGNMENT
    case Disj(_, _) => PREC_OR
    case Conj(_, _) => PREC_AND
    case Binary(op, _, _) => OperatorPrec(op)
    case Unary(_, _) => PREC_UNARY
    case Call(_, _) => PREC_CALL
    case _ => PREC_PRIMARY
  }

  /** Only values that have a literal syntax occur in the tree. */
  predicate Writable(e: Expr)
    decreases e
  {
    match e
    case Literal(v) => !v.Native? && !v.Script? && v != Number(NaN)
    case Variable(_) => true
    case Assign(_, a) => Writable(a)
    case Unary(_, a) => Writable(a)
    case Binary(_, a, b) => Writable(a) && Writable(b)
    case Conj(a, b) => Writable(a) && Writable(b)
    case Disj(a, b) => Writable(a) && Writable(b)
    case Call(f, args) => Writable(f) && forall i :: 0 <= i < |args| ==> Writable(args[i])
  }

  function LiteralToken(v: Value): Token {
    match v
    case Number(Ranked(n)) => NumberLit(n)
    case Str(s) => StringLit(s)
    case Bool(b) => if b then True else False
    case _ => Token.Nil
  }

  /** Parentheses only where the tree binds less tightly than its place requires. */
  function Render(e: Expr, place: nat): seq<Token>
    decreases e, 1
  {
    if Level(e) < place then [LeftParen] + Bare(e) + [RightParen] else Bare(e)
  }

  function Bare(e: Expr): seq<Token>
    decreases e, 0
  {
    match e
    case Literal(v) => [LiteralToken(v)]
    case Variable(x) => [Identifier(x)]
    case Assign(x, a) => [Identifier(x), Equal] + Render(a, PREC_ASSIGNMENT)
    case Unary(Not, a) => [Bang] + Render(a, PREC_UNARY)
    case Unary(Neg, a) => [Operator(Arithmetic(Minus))] + Render(a, PREC_UNARY)
    case Binary(op, a, b) => Render(a, OperatorPrec(op)) + [Operator(op)] + Render(b, OperatorPrec(op) + 1)
    case Conj(a, b) => Render(a, PREC_AND + 1) + [And] + Render(b, PREC_AND)
    case Disj(a, b) => Render(a, PREC_OR + 1) + [Or] + Render(b, PREC_OR)
    case Call(f, args) => Render(f, PREC_CALL) + [LeftParen] + RenderArgs(args) + [RightParen]
  }

  function RenderArgs(args: seq<Expr>): seq<Token>
    decreases args, 0
  {
    if args == [] then []
    else if |args| == 1 then Render(args[0], PREC_ASSIGNMENT)
    else Render(args[0], PREC_ASSIGNMENT) + [Comma] + RenderArgs(args[1..])
  }

  /** The precedence from which on a following operator would be taken into the last operand. */
  function OpenTo(e: Expr): nat {
    match e
    case Assign(_, _) => PREC_ASSIGNMENT
    case Disj(_, _) => PREC_OR
    case Conj(_, _) => PREC_AND
    case Binary(op, _, _) => OperatorPrec(op) + 1
    case Unary(_, _) => PREC_UNARY
    case _ => PREC_PRIMARY + 1
  }

  /** `part` stands in the token list from position `i` on. */
  ghost predicate Standing(ts: seq<Token>, i: nat, part: seq<Token>) {
    i + |part| <= |ts| && ts[i..i + |part|] == part
  }

  lemma StandingSplit(ts: seq<Token>, i: nat, a: seq<Token>, b: seq<Token>)
    requires Standing(ts, i, a + b)
    ensures Standing(ts, i, a) && Standing(ts, i + |a|, b)
  {
    var w := ts[i..i + |a + b|];
    assert ts[i..i + |a|] == w[..|a|] == a;
    assert ts[i + |a|..i + |a| + |b|] == w[|a|..] == b;
  }

  lemma StandingHead(ts: seq<Token>, i: nat, t: Token, rest: seq<Token>)
    requires Standing(ts, i, [t] + rest)
    ensures At(ts, i) == t && Standing(ts, i + 1, rest)
  {
    StandingSplit(ts, i, [t], rest);
    assert ts[i] == ts[i..i + 1][0];
  }

  /** What may follow a rendered expression without being taken into it. */
  predicate Closes(t: Token, open: nat) {
    t != Equal && RulePrec(t) < open
  }

  // ----- single steps of the parser -----

  lemma InfixStep(ts: seq<Token>, i: nat, prec: nat, left: Expr, t: Token)
    requires At(ts, i) == t && (t.Operator? || t == And || t == Or) && prec <= RulePrec(t) && i <= |ts|
    requires ParsePrec(ts, i + 1, RightPrec(t)).Good?
    ensures var r := ParsePrec(ts, i + 1, RightPrec(t));
      ParseInfix(ts, i, prec, left) == ParseInfix(ts, r.pos, prec, Combine(t, left, r.value))
  {
  }

  lemma InfixStop(ts: seq<Token>, i: nat, prec: nat, left: Expr)
    requires i <= |ts| && Closes(At(ts, i), prec)
    ensures ParseInfix(ts, i, prec, left) == Good(left, i)
  {
  }

  lemma CallStop(ts: seq<Token>, i: nat, prec: nat, left: Expr, args: seq<Expr>, j: nat)
    requires i <= |ts| && At(ts, i) == LeftParen && prec <= PREC_CALL
    requires ParseArgs(ts, i + 1) == Good(args, j)
    ensures ParseInfix(ts, i, prec, left) == ParseInfix(ts, j, prec, Call(left, args))
  {
  }

  lemma GroupStep(ts: seq<Token>, i: nat, prec: nat, e: Expr, j: nat)
    requires At(ts, i) == LeftParen && ParsePrec(ts, i + 1, PREC_ASSIGNMENT) == Good(e, j) && At(ts, j) == RightParen
    ensures j < |ts| && ParsePrec(ts, i, prec) == ParseInfix(ts, j + 1, prec, e)
  {
  }

  lemma UnaryParse(ts: seq<Token>, i: nat, prec: nat, op: UnOp, a: Expr, j: nat)
    requires At(ts, i) == (if op == Not then Bang else Operator(Arithmetic(Minus)))
    requires ParsePrec(ts, i + 1, PREC_UNARY) == Good(a, j)
    ensures j <= |ts| && ParsePrec(ts, i, prec) == ParseInfix(ts, j, prec, Unary(op, a))
  {
  }

  lemma AssignParse(ts: seq<Token>, i: nat, x: Ident, a: Expr, j: nat)
    requires At(ts, i) == Identifier(x) && At(ts, i + 1) == Equal
    requires ParsePrec(ts, i + 2, PREC_ASSIGNMENT) == Good(a, j)
    ensures j <= |ts| && ParsePrec(ts, i, PREC_ASSIGNMENT) == ParseInfix(ts, j, PREC_ASSIGNMENT, Assign(x, a))
  {
  }

  /** Reading a rendered expression puts the parser where its infix loop would be with the whole
      tree as left operand. */
  lemma {:induction false} ReadRendered(ts: seq<Token>, i: nat, e: Expr, place: nat, prec: nat)
    requires Writable(e) && PREC_ASSIGNMENT <= prec <= place <= PREC_PRIMARY
    requires Standing(ts, i, Render(e, place))
    requires Level(e) >= place ==> Closes(At(ts, i + |Render(e, place)|), OpenTo(e))
    ensures ParsePrec(ts, i, prec) == ParseInfix(ts, i + |Render(e, place)|, prec, e)
    decreases e, 2
  {
    hide ParsePrec, ParseInfix, Standing, Writable;
    if Level(e) < place {
      var inner := Bare(e);
      assert Render(e, place) == [LeftParen] + (inner + [RightParen]);
      hide Bare, Render;
      StandingHead(ts, i, LeftParen, inner + [RightParen]);
      StandingSplit(ts, i + 1, inner, [RightParen]);
      ReadToken(ts, i + 1 + |inner|, RightParen);
      OpenLevels(e);
      ReadBare(ts, i + 1, e, PREC_ASSIGNMENT);
      InfixStop(ts, i + 1 + |inner|, PREC_ASSIGNMENT, e);
      GroupStep(ts, i, prec, e, i + 1 + |inner|);
    } else {
      hide Bare;
      ReadBare(ts, i, e, prec);
    }
  }

  lemma {:induction false} ReadBare(ts: seq<Token>, i: nat, e: Expr, prec: nat)
    requires Writable(e) && PREC_ASSIGNMENT <= prec <= Level(e)
    requires Standing(ts, i, Bare(e))
    requires Closes(At(ts, i + |Bare(e)|), OpenTo(e))
    ensures ParsePrec(ts, i, prec) == ParseInfix(ts, i + |Bare(e)|, prec, e)
    decreases e, 1
  {
    hide ParsePrec, ParseInfix, Bare, Standing;
    match e
    case Literal(_) => ReadAtom(ts, i, e, prec);
    case Variable(_) => ReadAtom(ts, i, e, prec);
    case Assign(x, a) => ReadAssign(ts, i, x, a, prec);
    case Unary(op, a) => ReadUnary(ts, i, op, a, prec);
    case Binary(op, a, b) => ReadInfix(ts, i, e, Operator(op), a, b, prec);
    case Conj(a, b) => ReadInfix(ts, i, e, And, a, b, prec);
    case Disj(a, b) => ReadInfix(ts, i, e, Or, a, b, prec);
    case Call(f, args) => ReadCall(ts, i, f, args, prec);
  }

  /** One token is the whole expression. */
  lemma ReadAtom(ts: seq<Token>, i: nat, e: Expr, prec: nat)
    requires e.Literal? || e.Variable?
    requires Writable(e) && PREC_ASSIGNMENT <= prec <= Level(e) && Standing(ts, i, Bare(e))
    requires Closes(At(ts, i + |Bare(e)|), OpenTo(e))
    ensures ParsePrec(ts, i, prec) == ParseInfix(ts, i + |Bare(e)|, prec, e)
  {
    ReadToken(ts, i, if e.Literal? then LiteralToken(e.v) else Identifier(e.name));
    hide ParseInfix;
  }

  lemma ReadToken(ts: seq<Token>, i: nat, t: Token)
    requires Standing(ts, i, [t])
    ensures At(ts, i) == t && i < |ts|
  {
    assert [t] + [] == [t];
    StandingHead(ts, i, t, []);
  }

  lemma {:induction false} ReadAssign(ts: seq<Token>, i: nat, x: Ident, a: Expr, prec: nat)
    requires Writable(a) && prec == PREC_ASSIGNMENT
    requires Standing(ts, i, Bare(Assign(x, a)))
    requires Closes(At(ts, i + |Bare(Assign(x, a))|), PREC_ASSIGNMENT)
    ensures ParsePrec(ts, i, prec) == ParseInfix(ts, i + |Bare(Assign(x, a))|, prec, Assign(x, a))
    decreases Assign(x, a), 0
  {
    hide Standing, Render, Bare, ParsePrec, ParseInfix, Writable, Level, OpenTo, RulePrec;
    AssignShape(x, a);
    var r := Render(a, PREC_ASSIGNMENT);
    StandingHead(ts, i, Identifier(x), [Equal] + r);
    StandingHead(ts, i + 1, Equal, r);
    StandingEnd(ts, i + 2, r);
    OpenLevels(a);
    ReadRendered(ts, i + 2, a, PREC_ASSIGNMENT, PREC_ASSIGNMENT);
    InfixStop(ts, i + 2 + |r|, PREC_ASSIGNMENT, a);
    AssignParse(ts, i, x, a, i + 2 + |r|);
  }

  lemma StandingEnd(ts: seq<Token>, i: nat, part: seq<Token>)
    requires Standing(ts, i, part)
    ensures i + |part| <= |ts|
  {
  }

  lemma {:induction false} ReadUnary(ts: seq<Token>, i: nat, op: UnOp, a: Expr, prec: nat)
    requires Writable(a) && PREC_ASSIGNMENT <= prec <= PREC_UNARY
    requires Standing(ts, i, Bare(Unary(op, a)))
    requires Closes(At(ts, i + |Bare(Unary(op, a))|), PREC_UNARY)
    ensures ParsePrec(ts, i, prec) == ParseInfix(ts, i + |Bare(Unary(op, a))|, prec, Unary(op, a))
    decreases Unary(op, a), 0
  {
    hide Standing, Render, Bare, ParsePrec, ParseInfix, Writable, Level, OpenTo, RulePrec;
    UnaryShape(op, a);
    var r := Render(a, PREC_UNARY);
    var t := if op == Not then Bang else Operator(Arithmetic(Minus));
    StandingHead(ts, i, t, r);
    StandingEnd(ts, i + 1, r);
    OpenLevels(a);
    ReadRendered(ts, i + 1, a, PREC_UNARY, PREC_UNARY);
    InfixStop(ts, i + 1 + |r|, PREC_UNARY, a);
    UnaryParse(ts, i, prec, op, a, i + 1 + |r|);
  }

  lemma {:induction false} ReadInfix(ts: seq<Token>, i: nat, e: Expr, t: Token, a: Expr, b: Expr, prec: nat)
    requires (t.Operator? && e == Binary(t.op, a, b)) || (t == And && e == Conj(a, b)) || (t == Or && e == Disj(a, b))
    requires Writable(e) && PREC_ASSIGNMENT <= prec <= Level(e)
    requires Standing(ts, i, Bare(e))
    requires Closes(At(ts, i + |Bare(e)|), OpenTo(e))
    ensures ParsePrec(ts, i, prec) == ParseInfix(ts, i + |Bare(e)|, prec, e)
    decreases e, 0
  {
    hide Standing, Render, Bare, ParsePrec, ParseInfix, Writable, Combine, Level, OpenTo, RulePrec, OperatorPrec,
      RightPrec;
    InfixShape(e, t, a, b);
    var leftPlace := LeftPlace(t);
    var ra, rb := Render(a, leftPlace), Render(b, RightPrec(t));
    if Level(a) >= leftPlace { LeftOpen(a, t); }
    StandingSplit(ts, i, ra, [t] + rb);
    StandingHead(ts, i + |ra|, t, rb);
    StandingEnd(ts, i + |ra| + 1, rb);
    OpenLevels(a);
    OpenLevels(b);
    var j := i + |ra| + 1 + |rb|;
    ReadRendered(ts, i, a, leftPlace, prec);
    ReadRendered(ts, i + |ra| + 1, b, RightPrec(t), RightPrec(t));
    InfixStop(ts, j, RightPrec(t), b);
    InfixStep(ts, i + |ra|, prec, a, t);
  }

  /** The place of the left operand of an infix token. */
  function LeftPlace(t: Token): nat {
    if t.Operator? then RulePrec(t) else RulePrec(t) + 1
  }

  /** An operator ends its left operand. */
  lemma LeftOpen(a: Expr, t: Token)
    requires t.Operator? || t == And || t == Or
    requires Level(a) >= LeftPlace(t)
    ensures Closes(t, OpenTo(a))
  {
  }

  lemma InfixShape(e: Expr, t: Token, a: Expr, b: Expr)
    requires (t.Operator? && e == Binary(t.op, a, b)) || (t == And && e == Conj(a, b)) || (t == Or && e == Disj(a, b))
    ensures Bare(e) == Render(a, LeftPlace(t)) + ([t] + Render(b, RightPrec(t)))
    ensures Combine(t, a, b) == e && OpenTo(e) == RightPrec(t) && RulePrec(t) == Level(e)
    ensures Writable(e) == (Writable(a) && Writable(b))
    ensures PREC_OR <= Level(e) <= LeftPlace(t) <= PREC_FACTOR && PREC_OR <= RightPrec(t) <= PREC_UNARY
  {
    hide ParsePrec, ParseInfix;
  }

  lemma AssignShape(x: Ident, a: Expr)
    ensures Bare(Assign(x, a)) == [Identifier(x)] + ([Equal] + Render(a, PREC_ASSIGNMENT))
  {
  }

  lemma UnaryShape(op: UnOp, a: Expr)
    ensures Bare(Unary(op, a)) ==
      [if op == Not then Bang else Operator(Arithmetic(Minus))] + Render(a, PREC_UNARY)
  {
  }

  lemma CallShape(f: Expr, args: seq<Expr>)
    ensures Bare(Call(f, args)) == Render(f, PREC_CALL) + ([LeftParen] + (RenderArgs(args) + [RightParen]))
    ensures Writable(Call(f, args)) ==> Writable(f) && forall k :: 0 <= k < |args| ==> Writable(args[k])
    ensures Level(f) >= PREC_CALL ==> Closes(LeftParen, OpenTo(f))
  {
  }

  lemma ArgsShape(args: seq<Expr>)
    requires |args| > 1
    ensures RenderArgs(args) + [RightParen] ==
      Render(args[0], PREC_ASSIGNMENT) + ([Comma] + (RenderArgs(args[1..]) + [RightParen]))
  {
  }

  lemma OpenLevels(e: Expr)
    ensures OpenTo(e) >= Level(e)
    ensures e.Binary? || e.Call? || Level(e) == PREC_PRIMARY ==> OpenTo(e) > Level(e)
  {
  }

  lemma {:induction false} ReadCall(ts: seq<Token>, i: nat, f: Expr, args: seq<Expr>, prec: nat)
    requires Writable(Call(f, args)) && PREC_ASSIGNMENT <= prec <= PREC_CALL
    requires Standing(ts, i, Bare(Call(f, args)))
    ensures ParsePrec(ts, i, prec) == ParseInfix(ts, i + |Bare(Call(f, args))|, prec, Call(f, args))
    decreases Call(f, args), 0
  {
    hide Standing, Render, Bare, ParsePrec, ParseInfix, RenderArgs, ParseArgs, Writable, Level, OpenTo, RulePrec;
    CallShape(f, args);
    var rf, ra := Render(f, PREC_CALL), RenderArgs(args);
    var j := i + |rf| + 1;
    StandingSplit(ts, i, rf, [LeftParen] + (ra + [RightParen]));
    StandingHead(ts, i + |rf|, LeftParen, ra + [RightParen]);
    StandingEnd(ts, i, rf);
    OpenLevels(f);
    ReadRendered(ts, i, f, PREC_CALL, prec);
    ReadArguments(ts, j, args);
    CallStop(ts, i + |rf|, prec, f, args, j + |ra| + 1);
  }

  lemma {:induction false} ReadArguments(ts: seq<Token>, i: nat, args: seq<Expr>)
    requires forall k :: 0 <= k < |args| ==> Writable(args[k])
    requires Standing(ts, i, RenderArgs(args) + [RightParen])
    ensures ParseArgs(ts, i) == Good(args, i + |RenderArgs(args)| + 1)
    decreases args, 4
  {
    hide Standing, Render, ParsePrec, ParseArgList, Writable;
    var ra := RenderArgs(args);
    if args == [] {
      assert ra + [RightParen] == [RightParen];
      ReadToken(ts, i, RightParen);
    } else {
      ReadArgs(ts, i, args, []);
      assert [] + args == args;
      FirstToken(args[0], PREC_ASSIGNMENT);
      StandingSplit(ts, i, ra, [RightParen]);
      assert ra == [ra[0]] + ra[1..];
      StandingHead(ts, i, ra[0], ra[1..]);
    }
  }

  /** No expression starts with a closing parenthesis. */
  lemma {:induction false} FirstToken(e: Expr, place: nat)
    ensures |Render(e, place)| > 0 && Render(e, place)[0] != RightParen
    decreases e, 1
  {
    match e
    case Literal(_) =>
    case Variable(_) =>
    case Assign(_, _) =>
    case Unary(_, _) =>
    case Binary(op, a, _) => FirstToken(a, OperatorPrec(op));
    case Conj(a, _) => FirstToken(a, PREC_AND + 1);
    case Disj(a, _) => FirstToken(a, PREC_OR + 1);
    case Call(f, _) => FirstToken(f, PREC_CALL);
  }

  lemma {:induction false} ReadArgs(ts: seq<Token>, i: nat, args: seq<Expr>, acc: seq<Expr>)
    requires |args| > 0 && forall k :: 0 <= k < |args| ==> Writable(args[k])
    requires Standing(ts, i, RenderArgs(args) + [RightParen])
    ensures ParseArgList(ts, i, acc) == Good(acc + args, i + |RenderArgs(args)| + 1)
    decreases args, 3
  {
    hide Standing, Render, ParsePrec, ParseInfix, Writable, Level, OpenTo, Bare;
    var r := Render(args[0], PREC_ASSIGNMENT);
    OpenLevels(args[0]);
    if |args| == 1 {
      StandingSplit(ts, i, r, [RightParen]);
      ReadToken(ts, i + |r|, RightParen);
      ReadRendered(ts, i, args[0], PREC_ASSIGNMENT, PREC_ASSIGNMENT);
      InfixStop(ts, i + |r|, PREC_ASSIGNMENT, args[0]);
      assert acc + [args[0]] == acc + args;
    } else {
      ReadMoreArgs(ts, i, args, acc);
    }
  }

  lemma {:induction false} ReadMoreArgs(ts: seq<Token>, i: nat, args: seq<Expr>, acc: seq<Expr>)
    requires |args| > 1 && forall k :: 0 <= k < |args| ==> Writable(args[k])
    requires Standing(ts, i, RenderArgs(args) + [RightParen])
    ensures ParseArgList(ts, i, acc) == Good(acc + args, i + |RenderArgs(args)| + 1)
    decreases args, 2
  {
    hide Standing, Render, ParsePrec, ParseInfix, RenderArgs, Writable, Level, OpenTo, Bare;
    var r, rest := Render(args[0], PREC_ASSIGNMENT), RenderArgs(args[1..]);
    ArgsShape(args);
    OpenLevels(args[0]);
    StandingSplit(ts, i, r, [Comma] + (rest + [RightParen]));
    StandingHead(ts, i + |r|, Comma, rest + [RightParen]);
    StandingEnd(ts, i, r);
    ReadRendered(ts, i, args[0], PREC_ASSIGNMENT, PREC_ASSIGNMENT);
    InfixStop(ts, i + |r|, PREC_ASSIGNMENT, args[0]);
    ReadArgs(ts, i + |r| + 1, args[1..], acc + [args[0]]);
    assert acc + [args[0]] + args[1..] == acc + args;
  }

  /** The round trip: a rendered expression, followed by anything that cannot extend it, is read
      back as the same tree, consuming exactly its own tokens. */
  lemma {:induction false} PrattRoundTrip(pre: seq<Token>, e: Expr, prec: nat, post: seq<Token>)
    requires Writable(e) && PREC_ASSIGNMENT <= prec <= PREC_PRIMARY
    requires Closes(At(post, 0), prec)
    ensures ParsePrec(pre + Render(e, prec) + post, |pre|, prec) == Good(e, |pre| + |Render(e, prec)|)
  {
    hide Render, ParsePrec, ParseInfix, Writable, Level, OpenTo, RulePrec;
    var r := Render(e, prec);
    var ts := pre + r + post;
    Middle(pre, r, post);
    OpenLevels(e);
    ReadRendered(ts, |pre|, e, prec, prec);
    InfixStop(ts, |pre| + |r|, prec, e);
  }

  lemma Middle(pre: seq<Token>, r: seq<Token>, post: seq<Token>)
    ensures var ts := pre + r + post;
      ts[|pre|..|pre| + |r|] == r && At(ts, |pre| + |r|) == At(post, 0)
  {
  }
}
