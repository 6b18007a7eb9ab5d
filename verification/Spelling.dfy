/** How lexemes are spelled.  A table of texts and three forms say which texts are lexemes and of which kind; the
    scanner takes the longest one that is there, and it is of that kind. */
module Spelling {
  import opened Lexing
  import Tiling

  // ----- which texts are lexemes -----

  /** The text of an operator, a mark of punctuation or a keyword. */
  function Fixed(k: Kind): string {
    match k
    case LeftParen => "("
    case RightParen => ")"
    case LeftBrace => "{"
    case RightBrace => "}"
    case LeftBracket => "["
    case RightBracket => "]"
    case Comma => ","
    case Dot => "."
    case Minus => "-"
    case Plus => "+"
    case Semicolon => ";"
    case Slash => "/"
    case Star => "*"
    case Percent => "%"
    case Bang => "!"
    case BangEqual => "!="
    case Equal => "="
    case EqualEqual => "=="
    case Greater => ">"
    case GreaterGreater => ">>"
    case GreaterEqual => ">="
    case Less => "<"
    case LessLess => "<<"
    case LessEqual => "<="
    case Caret => "^"
    case Tilde => "~"
    case And => "and"
    case Class => "class"
    case Else => "else"
    case False => "false"
    case For => "for"
    case Break => "break"
    case Continue => "continue"
    case Func => "func"
    case If => "if"
    case Nil => "nil"
    case Or => "or"
    case Print => "print"
    case Return => "return"
    case Super => "super"
    case This => "this"
    case True => "true"
    case Var => "var"
    case While => "while"
    case _ => ""
  }

  predicate Digit(c: char) { '0' <= c <= '9' }

  predicate Letter(c: char) { 'a' <= c <= 'z' || 'A' <= c <= 'Z' || c == '_' }

  predicate HexDigit(c: char) { Digit(c) || 'a' <= c <= 'f' || 'A' <= c <= 'F' }

  /** Letters and digits, the first no digit. */
  predicate WordForm(w: string) {
    w != "" && Letter(w[0]) && forall i :: 0 <= i < |w| ==> Letter(w[i]) || Digit(w[i])
  }

  /** From one quote to the next. */
  predicate StringForm(w: string) {
    |w| >= 2 && w[0] == '"' && w[|w| - 1] == '"' && forall i :: 0 < i < |w| - 1 ==> w[i] != '"'
  }

  predicate Digits(w: string, i: nat, j: nat)
    requires j <= |w|
  {
    forall p :: i <= p < j ==> Digit(w[p])
  }

  predicate BinaryForm(w: string) {
    |w| >= 2 && w[0] == '0' && (w[1] == 'b' || w[1] == 'B') && forall p :: 2 <= p < |w| ==> w[p] == '0' || w[p] == '1'
  }

  predicate HexForm(w: string) {
    |w| >= 2 && w[0] == '0' && (w[1] == 'x' || w[1] == 'X') && forall p :: 2 <= p < |w| ==> HexDigit(w[p])
  }

  /** `e`, perhaps a sign, and digits up to the end. */
  predicate Exponent(w: string, j: nat) {
    && j < |w| && w[j] == 'e'
    && var k := if j + 1 < |w| && (w[j + 1] == '+' || w[j + 1] == '-') then j + 2 else j + 1;
      k < |w| && Digits(w, k, |w|)
  }

  /** Digits up to `i`, with a point and more digits up to `j` if that is further on, and perhaps an exponent. */
  predicate Decimal(w: string, i: nat, j: nat) {
    && 0 < i <= j <= |w| && Digits(w, 0, i)
    && (i < j ==> i + 1 < j && w[i] == '.' && Digits(w, i + 1, j))
    && (j < |w| ==> Exponent(w, j))
  }

  ghost predicate DecimalForm(w: string) {
    exists i, j :: Decimal(w, i, j)
  }

  /** `w` is a lexeme of kind `k`. */
  ghost predicate Lexeme(k: Kind, w: string) {
    match k
    case Error => false
    case Eof => false
    case Identifier => WordForm(w) && forall l :: Fixed(l) != w
    case String => StringForm(w)
    case Number => BinaryForm(w) || HexForm(w) || DecimalForm(w)
    case _ => w == Fixed(k)
  }

  /** The first `n` characters are a lexeme, and no more of them are. */
  ghost predicate Longest(k: Kind, s: string, n: nat) {
    && 0 < n <= |s| && Lexeme(k, s[..n])
    && forall m, l :: n < m <= |s| ==> !Lexeme(l, s[..m])
  }

  // ----- a text is a lexeme of one kind -----

  /** A fixed text begins with no digit and no quote; if it begins with a letter it is a word, and otherwise it has one
      character, or two of which the second is `=` or the first again. */
  lemma FixedForm(k: Kind)
    requires Fixed(k) != ""
    ensures var w := Fixed(k);
      && !Digit(w[0]) && w[0] != '"'
      && (Letter(w[0]) ==> WordForm(w) && |w| > 1 && k == KeywordOf(|w|, w[0], w[1]))
      && (!Letter(w[0]) ==> |w| <= 2 && LexSymbol(w) == (k, |w|))
  {
    hide Fixed, WordForm, KeywordOf, LexSymbol;
    if Letter(Fixed(k)[0]) {
      KeywordForm(k);
    } else {
      SymbolForm(k);
    }
  }

  lemma KeywordForm(k: Kind)
    requires Fixed(k) != "" && Letter(Fixed(k)[0])
    ensures var w := Fixed(k); WordForm(w) && |w| > 1 && k == KeywordOf(|w|, w[0], w[1])
  {
    hide Fixed;
    KeywordStart(k);
    KeywordLetters(k);
  }

  lemma KeywordStart(k: Kind)
    requires Fixed(k) != "" && Letter(Fixed(k)[0])
    ensures var w := Fixed(k); |w| > 1 && k == KeywordOf(|w|, w[0], w[1])
  {
  }

  lemma KeywordLetters(k: Kind)
    requires Fixed(k) != "" && Letter(Fixed(k)[0])
    ensures var w := Fixed(k);
      && |w| <= 8 && (|w| > 1 ==> Letter(w[1])) && (|w| > 2 ==> Letter(w[2])) && (|w| > 3 ==> Letter(w[3]))
      && (|w| > 4 ==> Letter(w[4])) && (|w| > 5 ==> Letter(w[5])) && (|w| > 6 ==> Letter(w[6]))
      && (|w| > 7 ==> Letter(w[7]))
  {
  }

  lemma SymbolForm(k: Kind)
    requires Fixed(k) != "" && !Letter(Fixed(k)[0])
    ensures var w := Fixed(k); !Digit(w[0]) && w[0] != '"' && |w| <= 2 && LexSymbol(w) == (k, |w|)
  {
  }

  /** Keywords differ in their length or in one of their first two letters. */
  function KeywordOf(n: nat, c: char, d: char): Kind {
    match n
    case 2 => if c == 'i' then If else Or
    case 3 => if c == 'a' then And else if c == 'f' then For else if c == 'n' then Nil else Var
    case 4 => if c == 'e' then Else else if c == 'f' then Func else if d == 'h' then This else True
    case 5 =>
      if c == 'c' then Class
      else if c == 'f' then False
      else if c == 'b' then Break
      else if c == 'p' then Print
      else if c == 's' then Super
      else While
    case 6 => Return
    case _ => Continue
  }

  /** What a lexeme's first character says about its kind. */
  lemma FirstCharacter(k: Kind, w: string)
    requires Lexeme(k, w)
    ensures w != ""
    ensures Letter(w[0]) ==> WordForm(w) && (k == Identifier || w == Fixed(k))
    ensures Digit(w[0]) <==> k == Number
    ensures w[0] == '"' <==> k == String
    ensures !Letter(w[0]) && !Digit(w[0]) && w[0] != '"' ==> w == Fixed(k)
  {
    hide Fixed;
    if k !in [Identifier, String, Number] {
      NoneEmpty(k);
      FixedForm(k);
    }
  }

  lemma NoneEmpty(k: Kind)
    requires k !in [Error, Eof, Identifier, String, Number]
    ensures Fixed(k) != ""
  {
  }

  lemma FixedOnce(k: Kind, l: Kind)
    requires Fixed(k) == Fixed(l) != ""
    ensures k == l
  {
    hide *;
    FixedBack(k);
    FixedBack(l);
  }

  /** The kind of a fixed text. */
  function KindOf(w: string): Kind {
    if w == "" then Eof
    else if !Letter(w[0]) then LexSymbol(w).0
    else if |w| > 1 then KeywordOf(|w|, w[0], w[1]) else Identifier
  }

  lemma FixedBack(k: Kind)
    requires Fixed(k) != ""
    ensures KindOf(Fixed(k)) == k
  {
    hide Fixed, LexSymbol, KeywordOf, WordForm;
    FixedForm(k);
  }

  /** No text is a lexeme of two kinds. */
  lemma OneKind(k: Kind, l: Kind, w: string)
    requires Lexeme(k, w) && Lexeme(l, w)
    ensures k == l
  {
    hide Fixed;
    FirstCharacter(k, w);
    FirstCharacter(l, w);
    if w == Fixed(k) && w == Fixed(l) { FixedOnce(k, l); }
  }

  /** A span is a run of characters of a class, and the next one is not. */
  lemma Spanned(p: char -> bool, s: string, i: nat)
    requires i <= |s|
    ensures var n := i + Span(p, s[i..]);
      (forall q :: i <= q < n ==> p(s[q])) && (n < |s| ==> !p(s[n]))
  {
    var n := i + Span(p, s[i..]);
    forall q | i <= q < n
      ensures p(s[q])
    {
      assert s[i..][q - i] == s[q];
    }
    assert n < |s| ==> s[i..][n - i] == s[n];
  }

  // ----- words -----

  lemma WordSpelled(w: string)
    requires WordForm(w)
    ensures Lexeme(WordKind(w), w)
  {
    hide WordKind, Fixed;
    forall l | Fixed(l) == w
      ensures WordKind(w) == l && l != Identifier
    {
      Keyword(l);
    }
    if WordKind(w) != Identifier {
      KindSpelled(w);
      FixedLexeme(WordKind(w), w);
    }
  }

  lemma KindSpelled(w: string)
    requires WordKind(w) != Identifier
    ensures Spells(w, Fixed(WordKind(w)))
  {
    hide Spells;
  }

  lemma FixedLexeme(k: Kind, w: string)
    requires w != "" && w == Fixed(k)
    ensures Lexeme(k, w)
  {
  }

  /** Every fixed text that begins with a letter is a keyword. */
  lemma Keyword(l: Kind)
    requires Fixed(l) != "" && Letter(Fixed(l)[0])
    ensures WordKind(Fixed(l)) == l && l != Identifier
  {
    hide WordKind, Fixed;
    var w := Fixed(l);
    if WordKind(w) == Identifier {
      NotSpelled(w, l);
    } else {
      KindSpelled(w);
      FixedOnce(WordKind(w), l);
    }
    FixedOnly(l);
  }

  lemma NotSpelled(w: string, l: Kind)
    requires WordKind(w) == Identifier && Fixed(l) != "" && Letter(Fixed(l)[0])
    ensures w != Fixed(l)
  {
    hide WordKind, Spells;
    NoKeyword(w);
    Itself(w);
  }

  lemma Itself(w: string)
    ensures Spells(w, w)
  {
  }

  lemma NoKeyword(w: string)
    requires WordKind(w) == Identifier
    ensures !Spells(w, "and")
    ensures !Spells(w, "break")
    ensures !Spells(w, "continue")
    ensures !Spells(w, "class")
    ensures !Spells(w, "else")
    ensures !Spells(w, "false")
    ensures !Spells(w, "for")
    ensures !Spells(w, "func")
    ensures !Spells(w, "if")
    ensures !Spells(w, "nil")
    ensures !Spells(w, "or")
    ensures !Spells(w, "print")
    ensures !Spells(w, "return")
    ensures !Spells(w, "super")
    ensures !Spells(w, "this")
    ensures !Spells(w, "true")
    ensures !Spells(w, "var")
    ensures !Spells(w, "while")
  {
    hide Spells;
  }

  lemma LexWord(s: string)
    requires s != "" && Letter(s[0])
    ensures Longest(Lex(s).0, s, Lex(s).1)
  {
    hide Lexeme, WordKind, Fixed;
    var n := 1 + Span(IsWord, s[1..]);
    assert Lex(s) == (WordKind(s[..n]), n);
    forall i | 0 <= i < n
      ensures Letter(s[..n][i]) || Digit(s[..n][i])
    {
      if i > 0 { assert IsWord(s[1..][i - 1]); }
    }
    WordSpelled(s[..n]);
    forall m, l | n < m <= |s|
      ensures !Lexeme(l, s[..m])
    {
      assert !IsWord(s[1..][n - 1]);
      assert !WordForm(s[..m]) by { assert s[..m][n] == s[n]; }
      if Lexeme(l, s[..m]) { FirstCharacter(l, s[..m]); }
    }
  }

  // ----- strings -----

  lemma LexQuoted(s: string)
    requires s != "" && s[0] == '"'
    ensures Lex(s).0 != Error ==> Longest(Lex(s).0, s, Lex(s).1)
    ensures Lex(s).0 == Error ==> forall m, l :: 0 < m <= |s| ==> !Lexeme(l, s[..m])
  {
    hide Fixed;
    var k := 1 + Span(InString, s[1..]);
    assert forall i :: 0 < i < k ==> s[i] != '"' by {
      forall i | 0 < i < k
        ensures s[i] != '"'
      {
        assert InString(s[1..][i - 1]);
      }
    }
    if k < |s| {
      assert !InString(s[1..][k - 1]);
      assert StringForm(s[..k + 1]);
    }
    forall m, l | 0 < m <= |s| && (k == |s| || m > k + 1)
      ensures !Lexeme(l, s[..m])
    {
      assert !StringForm(s[..m]) by {
        assert s[..m][m - 1] == s[m - 1];
        assert k < |s| ==> s[..m][k] == s[k];
      }
      if Lexeme(l, s[..m]) { FirstCharacter(l, s[..m]); }
    }
  }

  // ----- operators and punctuation -----

  lemma LexFixed(s: string)
    requires s != "" && !Letter(s[0]) && !Digit(s[0]) && s[0] != '"'
    ensures Lex(s).0 != Error ==> Longest(Lex(s).0, s, Lex(s).1)
    ensures Lex(s).0 == Error ==> forall m, l :: 0 < m <= |s| ==> !Lexeme(l, s[..m])
  {
    hide Lexeme;
    var (k, n) := LexSymbol(s);
    assert Lex(s) == (k, n);
    SymbolSpelled(s);
    if k != Error { assert Lexeme(k, s[..n]) by { FixedLexeme(k, s[..n]); } }
    forall m, l | 0 < m <= |s| && (k == Error || m > n)
      ensures !Lexeme(l, s[..m])
    {
      if Lexeme(l, s[..m]) {
        FirstCharacter(l, s[..m]);
        SymbolLonger(s, m, l);
      }
    }
  }

  lemma SymbolSpelled(s: string)
    requires s != ""
    ensures LexSymbol(s).0 != Error ==> s[..LexSymbol(s).1] == Fixed(LexSymbol(s).0)
  {
    hide LexSymbol;
    SymbolText(s);
    assert s[..1] == [s[0]];
    assert |s| > 1 ==> s[..2] == [s[0], s[1]];
  }

  lemma SymbolText(s: string)
    requires s != ""
    ensures var (k, n) := LexSymbol(s);
      k != Error ==> n <= 2 && Fixed(k) == if n == 1 then [s[0]] else [s[0], At(s, 1)]
  {
    hide LexSymbol, Fixed;
    if s[0] in ['!', '=', '<', '>'] {
      OperatorText(s);
    } else if s[0] in ['(', ')', '{', '}', '[', ']', ';', ','] {
      BracketText(s);
    } else {
      MarkText(s);
    }
  }

  lemma OperatorText(s: string)
    requires s != "" && s[0] in ['!', '=', '<', '>']
    ensures var (k, n) := LexSymbol(s);
      k != Error ==> n <= 2 && Fixed(k) == if n == 1 then [s[0]] else [s[0], At(s, 1)]
  {
    hide Fixed;
    EqualityTexts();
    OrderTexts();
  }

  lemma EqualityTexts()
    ensures Fixed(Bang) == ['!'] && Fixed(BangEqual) == ['!', '=']
    ensures Fixed(Equal) == ['='] && Fixed(EqualEqual) == ['=', '=']
  {
  }

  lemma OrderTexts()
    ensures Fixed(Less) == ['<'] && Fixed(LessEqual) == ['<', '='] && Fixed(LessLess) == ['<', '<']
    ensures Fixed(Greater) == ['>'] && Fixed(GreaterEqual) == ['>', '='] && Fixed(GreaterGreater) == ['>', '>']
  {
  }

  lemma BracketText(s: string)
    requires s != "" && s[0] in ['(', ')', '{', '}', '[', ']', ';', ',']
    ensures var (k, n) := LexSymbol(s); k != Error ==> n == 1 && Fixed(k) == [s[0]]
  {
  }

  lemma MarkText(s: string)
    requires s != "" && s[0] !in ['!', '=', '<', '>', '(', ')', '{', '}', '[', ']', ';', ',']
    ensures var (k, n) := LexSymbol(s); k != Error ==> n == 1 && Fixed(k) == [s[0]]
  {
  }

  lemma SymbolLonger(s: string, m: nat, l: Kind)
    requires 0 < m <= |s| && s[..m] == Fixed(l) && !Letter(s[0])
    ensures LexSymbol(s).0 != Error && m <= LexSymbol(s).1
  {
    hide Fixed;
    FixedForm(l);
    var w := s[..m];
    assert w[0] == s[0] && (m == 2 ==> w[1] == s[1]);
    FixedOnly(l);
  }

  // ----- numbers -----

  /** A number that cannot end where it does: a binary literal before another digit, digits before a point or an `e`, or
      a fraction before an `e`. */
  ghost predicate CutShort(s: string, n: nat) {
    && n < |s|
    && var w := s[..n];
      || (BinaryForm(w) && Digit(s[n]))
      || exists i :: Decimal(w, i, n) && (s[n] == 'e' || (i == n && s[n] == '.'))
  }

  lemma NumberStarts(s: string, m: nat, l: Kind)
    requires s != "" && Digit(s[0]) && 0 < m <= |s| && Lexeme(l, s[..m])
    ensures l == Number
  {
    hide Lexeme, Fixed;
    assert s[..m][0] == s[0];
    FirstCharacter(l, s[..m]);
  }

  lemma NoneLonger(s: string, n: nat)
    requires s != "" && Digit(s[0]) && 0 < n <= |s| && Lexeme(Number, s[..n])
    requires forall m :: n < m <= |s| ==> !BinaryForm(s[..m]) && !HexForm(s[..m]) && !DecimalForm(s[..m])
    ensures Longest(Number, s, n)
  {
    hide BinaryForm, HexForm, DecimalForm, Fixed;
    forall m, l | n < m <= |s|
      ensures !Lexeme(l, s[..m])
    {
      if Lexeme(l, s[..m]) { NumberStarts(s, m, l); }
    }
  }

  /** The form of a literal with a base. */
  lemma BasePrefix(s: string, m: nat)
    requires |s| >= 2 && s[0] == '0' && s[1] in "bBxX" && 2 <= m <= |s|
    ensures !DecimalForm(s[..m])
    ensures BinaryForm(s[..m]) ==> s[1] in "bB" && forall p :: 2 <= p < m ==> s[p] == '0' || s[p] == '1'
    ensures HexForm(s[..m]) ==> s[1] in "xX" && forall p :: 2 <= p < m ==> HexDigit(s[p])
  {
    var w := s[..m];
    assert forall p :: 0 <= p < m ==> w[p] == s[p];
    forall i, j
      ensures !Decimal(w, i, j)
    {
      hide BinaryForm, HexForm;
      assert !Digit(w[1]);
    }
  }

  lemma LexBinary(s: string)
    requires |s| >= 2 && s[0] == '0' && s[1] in "bB"
    ensures var (k, n) := Lex(s);
      && Longest(Number, s, n) && (k == Number || k == Error)
      && (k == Error <==> CutShort(s, n))
  {
    hide Lexeme, DecimalForm, Decimal;
    var n := 2 + Span(IsBinary, s[2..]);
    assert Lex(s) == (if IsDigit(At(s, n)) then Error else Number, n);
    assert BinaryForm(s[..n]) by {
      Spanned(IsBinary, s, 2);
    }
    assert Lexeme(Number, s[..n]) by { BinaryNumber(s[..n]); }
    Spanned(IsBinary, s, 2);
    forall m | n < m <= |s|
      ensures !BinaryForm(s[..m]) && !HexForm(s[..m]) && !DecimalForm(s[..m])
    {
      BasePrefix(s, m);
    }
    NoneLonger(s, n);
    BasePrefix(s, n);
    NoDecimal(s[..n]);
  }

  lemma BinaryNumber(w: string)
    ensures BinaryForm(w) || HexForm(w) || DecimalForm(w) ==> Lexeme(Number, w)
  {
  }

  lemma NoDecimal(w: string)
    requires !DecimalForm(w)
    ensures forall i, j :: !Decimal(w, i, j)
  {
  }

  lemma LexHex(s: string)
    requires |s| >= 2 && s[0] == '0' && s[1] in "xX"
    ensures var (k, n) := Lex(s); k == Number && Longest(Number, s, n) && !CutShort(s, n)
  {
    hide Lexeme, DecimalForm, Decimal;
    var n := 2 + Span(IsHex, s[2..]);
    assert Lex(s) == (Number, n);
    assert HexForm(s[..n]) by {
      Spanned(IsHex, s, 2);
    }
    assert Lexeme(Number, s[..n]) by { BinaryNumber(s[..n]); }
    Spanned(IsHex, s, 2);
    forall m | n < m <= |s|
      ensures !BinaryForm(s[..m]) && !HexForm(s[..m]) && !DecimalForm(s[..m])
    {
      BasePrefix(s, m);
    }
    NoneLonger(s, n);
    BasePrefix(s, n);
    NoDecimal(s[..n]);
  }

  /** Every longer number has the same digits and the same fraction. */
  ghost predicate Settled(s: string, i: nat, j: nat) {
    && 0 < i <= j <= |s| && Decimal(s[..j], i, j)
    && forall m, i', j' :: j < m <= |s| && Decimal(s[..m], i', j') ==> i' == i && j' == j
  }

  /** No literal with a base. */
  predicate Plain(s: string) {
    s != "" && Digit(s[0]) && (s[0] == '0' && |s| > 1 ==> s[1] !in "bBxX")
  }

  lemma PlainPrefix(s: string, m: nat)
    requires Plain(s) && 0 < m <= |s|
    ensures !BinaryForm(s[..m]) && !HexForm(s[..m])
  {
    assert forall p :: 0 <= p < m ==> s[..m][p] == s[p];
  }

  /** A number may end after its fraction if no exponent follows. */
  lemma EndsPlain(s: string, i: nat, j: nat)
    requires Plain(s) && Settled(s, i, j)
    requires forall m :: j < m <= |s| ==> !Exponent(s[..m], j)
    ensures Longest(Number, s, j)
  {
    hide Lexeme, Exponent, BinaryForm, HexForm;
    forall m | j < m <= |s|
      ensures !BinaryForm(s[..m]) && !HexForm(s[..m]) && !DecimalForm(s[..m])
    {
      PlainPrefix(s, m);
    }
    BinaryNumber(s[..j]);
    NoneLonger(s, j);
  }

  lemma LexExponents(s: string, i: nat, j: nat)
    requires Plain(s) && Settled(s, i, j) && (i == j ==> At(s, j) != '.')
    ensures var (k, n) := LexExponent(s, j);
      && (k == Number || k == Error)
      && (k == Number ==> Longest(Number, s, n) && !CutShort(s, n))
      && (k == Error ==> Longest(Number, s, j) && CutShort(s, j))
  {
    hide Lexeme, Longest, BinaryForm, HexForm;
    if At(s, j) != 'e' {
      assert forall m :: j < m <= |s| ==> s[..m][j] == s[j];
      EndsPlain(s, i, j);
      NotCutShort(s, i, j);
    } else {
      var k := if At(s, j + 1) == '+' || At(s, j + 1) == '-' then j + 2 else j + 1;
      if IsDigit(At(s, k)) {
        WithExponent(s, i, j, k);
      } else {
        forall m | j < m <= |s|
          ensures !Exponent(s[..m], j)
        {
          assert forall p :: 0 <= p < m ==> s[..m][p] == s[p];
        }
        EndsPlain(s, i, j);
        assert Decimal(s[..j], i, j) && s[j] == 'e';
      }
    }
  }

  lemma NotCutShort(s: string, i: nat, j: nat)
    requires Plain(s) && Settled(s, i, j) && At(s, j) != 'e' && (i == j ==> At(s, j) != '.')
    ensures !CutShort(s, j)
  {
    if j < |s| {
      PlainPrefix(s, j);
      assert i < j ==> !Digit(s[..j][i]);
    }
  }

  lemma WithExponent(s: string, i: nat, j: nat, k: nat)
    requires Plain(s) && Settled(s, i, j) && At(s, j) == 'e' && j < |s|
    requires k == (if At(s, j + 1) == '+' || At(s, j + 1) == '-' then j + 2 else j + 1) && IsDigit(At(s, k))
    ensures var n := k + Span(IsDigit, s[k..]); Longest(Number, s, n) && !CutShort(s, n)
  {
    hide Lexeme, BinaryForm, HexForm;
    var n := k + Span(IsDigit, s[k..]);
    Spanned(IsDigit, s, k);
    assert forall p :: 0 <= p < n ==> s[..n][p] == s[p];
    assert Exponent(s[..n], j);
    assert forall p :: 0 <= p < j ==> s[..j][p] == s[p];
    assert Decimal(s[..n], i, j);
    BinaryNumber(s[..n]);
    forall m | n < m <= |s|
      ensures !BinaryForm(s[..m]) && !HexForm(s[..m]) && !DecimalForm(s[..m])
    {
      PlainPrefix(s, m);
      assert forall p :: 0 <= p < m ==> s[..m][p] == s[p];
      assert !Exponent(s[..m], j) by { assert !Digit(s[n]); }
    }
    NoneLonger(s, n);
    PlainPrefix(s, n);
    assert forall i': nat :: !Decimal(s[..n], i', n);
  }

  /** The digits of a number, and its fraction if it has one. */
  lemma LexDigits(s: string)
    requires Plain(s)
    ensures var (k, n) := LexDecimal(s);
      && (k == Number || k == Error)
      && (k == Number ==> Longest(Number, s, n) && !CutShort(s, n))
      && (k == Error ==> exists n' :: Longest(Number, s, n') && CutShort(s, n'))
  {
    hide Lexeme, Longest, BinaryForm, HexForm, CutShort, Exponent, Settled, Decimal, LexExponent, Digits;
    var i := 1 + Span(IsDigit, s[1..]);
    AllDigits(s, i);
    if At(s, i) != '.' {
      WithoutFraction(s, i);
      LexExponents(s, i, i);
    } else if IsDigit(At(s, i + 1)) {
      var j := i + 1 + Span(IsDigit, s[i + 1..]);
      WithFraction(s, i, j);
      LexExponents(s, i, j);
    } else {
      WithoutFraction(s, i);
      assert forall m :: i < m <= |s| ==> !Exponent(s[..m], i) by { NoExponent(s, i); }
      EndsPlain(s, i, i);
      assert CutShort(s, i) by { PointCuts(s, i); }
    }
  }

  lemma NoExponent(s: string, i: nat)
    requires i < |s| && s[i] != 'e'
    ensures forall m :: i < m <= |s| ==> !Exponent(s[..m], i)
  {
  }

  lemma PointCuts(s: string, i: nat)
    requires i < |s| && s[i] == '.' && Settled(s, i, i)
    ensures CutShort(s, i)
  {
  }

  lemma AllDigits(s: string, i: nat)
    requires Plain(s) && i == 1 + Span(IsDigit, s[1..])
    ensures i <= |s| && Digits(s, 0, i) && !Digit(At(s, i))
  {
    assert i < |s| ==> !IsDigit(s[1..][i - 1]);
    forall p | 0 <= p < i
      ensures Digit(s[p])
    {
      if p > 0 { assert IsDigit(s[1..][p - 1]); }
    }
  }

  /** The digits before the point are all there are. */
  lemma SameDigits(s: string, i: nat, m: nat, i': nat, j': nat)
    requires i <= |s| && Digits(s, 0, i) && !Digit(At(s, i)) && i < m <= |s| && Decimal(s[..m], i', j')
    ensures i' == i
  {
    assert forall p :: 0 <= p < m ==> s[..m][p] == s[p];
  }

  lemma WithoutFraction(s: string, i: nat)
    requires Plain(s) && i == 1 + Span(IsDigit, s[1..]) && i <= |s| && Digits(s, 0, i) && !Digit(At(s, i))
    requires At(s, i) == '.' ==> !Digit(At(s, i + 1))
    ensures Settled(s, i, i)
  {
    hide Exponent;
    assert forall p :: 0 <= p < i ==> s[..i][p] == s[p];
    forall m, i': nat, j': nat | i < m <= |s| && Decimal(s[..m], i', j')
      ensures i' == i && j' == i
    {
      SameDigits(s, i, m, i', j');
      assert forall p :: 0 <= p < m ==> s[..m][p] == s[p];
    }
  }

  lemma WithFraction(s: string, i: nat, j: nat)
    requires Plain(s) && i <= |s| && Digits(s, 0, i) && !Digit(At(s, i))
    requires i + 1 < |s| && s[i] == '.' && Digit(s[i + 1]) && j == i + 1 + Span(IsDigit, s[i + 1..])
    ensures Settled(s, i, j)
  {
    Spanned(IsDigit, s, i + 1);
    assert forall p :: 0 <= p < j ==> s[..j][p] == s[p];
    forall m, i': nat, j': nat | j < m <= |s| && Decimal(s[..m], i', j')
      ensures i' == i && j' == j
    {
      SameDigits(s, i, m, i', j');
      assert forall p :: 0 <= p < m ==> s[..m][p] == s[p];
    }
  }

  // ----- what the scanner takes -----

  lemma LexNumeral(s: string)
    requires s != "" && Digit(s[0])
    ensures var (k, n) := Lex(s);
      && (k == Number || k == Error)
      && (k == Number ==> Longest(Number, s, n))
      && (k == Error <==> exists n' :: Longest(Number, s, n') && CutShort(s, n'))
  {
    hide Lexeme, LexDecimal, CutShort, Longest;
    var (k, n) := Lex(s);
    if |s| >= 2 && s[0] == '0' && s[1] in "bB" {
      LexBinary(s);
      OnlyLongest(s, n);
    } else if |s| >= 2 && s[0] == '0' && s[1] in "xX" {
      LexHex(s);
      OnlyLongest(s, n);
    } else {
      LexDigits(s);
      if k == Number { OnlyLongest(s, n); }
    }
  }

  lemma OnlyLongest(s: string, n: nat)
    requires Longest(Number, s, n)
    ensures forall m :: Longest(Number, s, m) ==> m == n
  {
    hide Lexeme;
  }

  /** What is at the front of a text: the longest lexeme there, with its kind; or an error, exactly if no lexeme is
      there, or the longest one is a number that is cut short. */
  lemma LongestTaken(s: string)
    requires s != ""
    ensures var (k, n) := Lex(s); k != Error ==> Longest(k, s, n)
    ensures Lex(s).0 == Error <==>
      || (forall m, l :: 0 < m <= |s| ==> !Lexeme(l, s[..m]))
      || exists n :: Longest(Number, s, n) && CutShort(s, n)
  {
    hide Lexeme, Lex, CutShort, Longest;
    if Letter(s[0]) {
      LexWord(s);
      HasLexeme(Lex(s).0, s, Lex(s).1);
      OtherStart(s);
    } else if Digit(s[0]) {
      LexNumeral(s);
      if Lex(s).0 == Number { HasLexeme(Number, s, Lex(s).1); }
    } else {
      OtherStart(s);
      if s[0] == '"' { LexQuoted(s); } else { LexFixed(s); }
      if Lex(s).0 != Error { HasLexeme(Lex(s).0, s, Lex(s).1); }
    }
  }

  lemma HasLexeme(k: Kind, s: string, n: nat)
    requires Longest(k, s, n)
    ensures k != Error && !(forall m, l :: 0 < m <= |s| ==> !Lexeme(l, s[..m]))
  {
  }

  lemma OtherStart(s: string)
    requires s != "" && !Digit(s[0])
    ensures forall n :: !Longest(Number, s, n)
  {
    hide Lexeme, Fixed;
    forall n: nat
      ensures !Longest(Number, s, n)
    {
      if Longest(Number, s, n) { FirstCharacter(Number, s[..n]); }
    }
  }

  /** The tokens of a text, its end and errors apart: each is a lexeme of its kind, and the longest that stands at its
      place. */
  lemma TokensSpelled(src: string, i: nat)
    requires i < |Tokens(src, 0, 1)|
    ensures var t := Tokens(src, 0, 1)[i];
      t.kind != Error && t.kind != Eof ==>
        && Lexeme(t.kind, t.text) && t.start <= |src| && Longest(t.kind, src[t.start..], |t.text|)
        && t.text == src[t.start..][..|t.text|]
  {
    assert src[0..] == src;
    SpelledFrom(src, 0, 1, i);
  }

  lemma {:induction false} SpelledFrom(src: string, at: nat, line: nat, i: nat)
    requires at <= |src| && i < |Tokens(src[at..], at, line)|
    ensures var t := Tokens(src[at..], at, line)[i];
      t.kind != Error && t.kind != Eof ==>
        && Lexeme(t.kind, t.text) && t.start <= |src| && Longest(t.kind, src[t.start..], |t.text|)
        && t.text == src[t.start..][..|t.text|]
    decreases |src| - at
  {
    hide Tokens, Skip, Newlines, Lex, Lexeme;
    var s := src[at..];
    Tiling.TokensStep(s, at, line);
    var (n, open) := Skip(s);
    var line' := line + Newlines(s[..n]);
    if !open && n < |s| {
      var rest := src[at + n..];
      assert s[n..] == rest;
      var k := Lex(rest).1;
      LongestTaken(rest);
      assert rest[k..] == src[at + n + k..];
      if i > 0 { SpelledFrom(src, at + n + k, line' + Newlines(rest[..k]), i - 1); }
    }
  }

  /** A token is of the kind its text spells, and no other token is: of two tokens, or of a token and a text of the
      table. */
  lemma KindsSpelled(src: string, i: nat, k: Kind)
    requires i < |Tokens(src, 0, 1)| && Fixed(k) != ""
    ensures var t := Tokens(src, 0, 1)[i]; t.kind != Error ==> (t.kind == k <==> t.text == Fixed(k))
  {
    hide Tokens, Fixed;
    TokensSpelled(src, i);
    var t := Tokens(src, 0, 1)[i];
    if t.kind == Eof {
      Tiling.TokensTile(src, 0, 1);
      assert src[0..] == src && src[..0] == "";
      assert Tiling.Placed(src, t);
      EofFixed(k);
    } else if t.kind != Error {
      FixedIs(k, t.kind, t.text);
    }
  }

  lemma EofFixed(k: Kind)
    requires Fixed(k) != ""
    ensures k != Eof
  {
  }

  lemma FixedIs(k: Kind, l: Kind, w: string)
    requires Fixed(k) != "" && Lexeme(l, w)
    ensures l == k <==> w == Fixed(k)
  {
    hide Fixed;
    if w == Fixed(k) {
      FixedLexeme(k, w);
      OneKind(k, l, w);
    } else if l == k {
      FixedOnly(k);
    }
  }

  lemma FixedOnly(k: Kind)
    requires Fixed(k) != ""
    ensures k !in [Error, Eof, Identifier, String, Number]
  {
  }
}
