/** The scanner, which reads the source character by character. */
module Scanner {
  import opened Lexing
  import Keywords
  import opened Tiling

  class Scanner {
    /** The source text; the zero character ends it. */
    const src: string
    var start: nat
    var current: nat
    var line: nat
    var insideComment: bool

    ghost predicate Valid()
      reads this
    {
      && '\0' !in src && start <= current <= |src|
      && (insideComment ==> current == |src|)
    }

    constructor (src: string)
      requires '\0' !in src
      ensures Valid() && this.src == src && current == 0 && line == 1 && !insideComment
    {
      this.src := src;
      start, current, line, insideComment := 0, 0, 1, false;
    }

    function Peek(): char
      reads this
    {
      At(src, current)
    }

    function PeekNext(): char
      reads this
    {
      At(src, current + 1)
    }

    predicate IsAtEnd()
      reads this
    {
      Peek() == '\0'
    }

    method Advance() returns (c: char)
      requires current < |src|
      modifies this`current
      ensures c == src[old(current)] && current == old(current) + 1
    {
      c := src[current];
      current := current + 1;
    }

    method Match(expected: char) returns (matched: bool)
      requires current <= |src| && expected != '\0'
      modifies this`current
      ensures matched == (At(src, old(current)) == expected)
      ensures current == if matched then old(current) + 1 else old(current)
      ensures current <= |src|
    {
      if Peek() != expected {
        return false;
      }
      current := current + 1;
      return true;
    }

    // ----- blanks and comments -----

    lemma EndIsZero()
      requires '\0' !in src && current <= |src|
      ensures IsAtEnd() <==> current == |src|
    {
    }

    method LineComment()
      requires '\0' !in src && current <= |src|
      modifies this`current
      ensures current == old(current) + Span(InLine, src[old(current)..])
    {
      ghost var s := src[current..];
      while Peek() != '\n' && !IsAtEnd()
        invariant old(current) <= current <= |src|
        invariant forall i :: 0 <= i < current - old(current) ==> InLine(s[i])
        decreases |src| - current
      {
        var _ := Advance();
      }
      EndIsZero();
      SpanIs(InLine, s, current - old(current));
    }

    /** Skip to the closing mark.  A line is counted when its newline is reached, not when it is
        passed: the first character is a slash, the last a star. */
    method BlockComment()
      requires '\0' !in src && current < |src| && src[current] == '/'
      modifies this`current, this`line
      ensures current == old(current) + BlockEnd(src[old(current)..], 0)
      ensures line == old(line) + Newlines(src[old(current)..current])
    {
      hide Newlines, BlockEnd, InComment;
      ghost var from, first := current, line;
      CommentStarts(src, from);
      while !IsAtEnd() && !(Peek() == '*' && PeekNext() == '/')
        invariant from <= current <= |src| && line >= first && InComment(src, from, current, line - first)
        decreases |src| - current
      {
        CommentStep(src, from, current, line - first);
        EndIsZero();
        var _ := Advance();
        if Peek() == '\n' {
          line := line + 1;
        }
      }
      EndIsZero();
      CommentEnds(src, from, current, line - first);
    }

    /** Skip a block comment, unless it is never closed. */
    method SkipBlockComment() returns (closed: bool)
      requires Valid() && OpensComment(src[current..]) && src[current + 1] == '*'
      modifies this`current, this`line, this`insideComment
      ensures Valid() && closed == (Front(src[old(current)..]) <= |src| - old(current)) && insideComment == !closed
      ensures current == if closed then old(current) + Front(src[old(current)..]) else |src|
      ensures line == old(line) + Newlines(src[old(current)..current])
    {
      hide Newlines, BlockEnd;
      ghost var from := current;
      insideComment := true;
      BlockComment();
      EndIsZero();
      if IsAtEnd() {
        return false;
      }
      LinesAdd(src, from, current, current + 2);
      LinesNone(src, current, 2);
      var _ := Advance();
      var _ := Advance();
      insideComment := false;
      closed := true;
    }

    /** Skip blanks and comments, counting lines. */
    method SkipWhitespace()
      requires Valid()
      modifies this`current, this`line, this`insideComment
      ensures Valid()
      ensures var (n, open) := Skip(src[old(current)..]);
        && current == old(current) + n
        && insideComment == (old(insideComment) || open)
        && line == old(line) + Newlines(src[old(current)..current])
    {
      hide Skip, Newlines, Front, OpensComment;
      ghost var from, first := current, line;
      SkippedNothing(src, from);
      EndIsZero();
      while true
        invariant Valid() && from <= current && line >= first && Skipped(src, from, current, line - first)
        invariant insideComment == old(insideComment)
        decreases |src| - current
      {
        ghost var cur := current;
        FrontIs(src, cur);
        SkippedOn(src, from, cur, line - first);
        var c := Peek();
        if c == ' ' || c == '\r' || c == '\t' {
          var _ := Advance();
        } else if c == '\n' {
          line := line + 1;
          var _ := Advance();
        } else if c == '/' {
          if PeekNext() == '/' {
            LineComment();
          } else if PeekNext() == '*' {
            var closed := SkipBlockComment();
            if !closed {
              LinesAdd(src, from, cur, current);
              return;
            }
          } else {
            return;
          }
        } else {
          return;
        }
      }
    }

    // ----- tokens -----

    function MakeToken(kind: Kind): Token
      requires start <= current <= |src|
      reads this
    {
      Token(kind, src[start..current], start, line)
    }

    function ErrorToken(): Token
      reads this
    {
      Token(Error, "", current, line)
    }

    /** What the scanner has read from `start` on, as a lexeme of a kind and a length. */
    ghost predicate Made(t: Token, r: (Kind, nat))
      requires start + r.1 <= |src|
      reads this
    {
      current == start + r.1 && t == if r.0 == Error then ErrorToken() else MakeToken(r.0)
    }

    method Identifier() returns (t: Token)
      requires Valid() && current == start + 1
      modifies this`current
      ensures start + 1 + Span(IsWord, src[start + 1..]) <= |src|
      ensures var n := 1 + Span(IsWord, src[start + 1..]); Made(t, (WordKind(src[start..start + n]), n))
    {
      hide WordKind, Keywords.IdentifierType, Span;
      ghost var s := src[current..];
      while IsWord(Peek())
        invariant start < current <= |src|
        invariant forall i :: 0 <= i < current - start - 1 ==> IsWord(s[i])
        decreases |src| - current
      {
        var _ := Advance();
      }
      SpanIs(IsWord, s, current - start - 1);
      Keywords.KeywordTable(src[start..current]);
      t := MakeToken(Keywords.IdentifierType(src[start..current]));
    }

    method Digits()
      requires current <= |src|
      modifies this`current
      ensures current == old(current) + Span(IsDigit, src[old(current)..])
    {
      ghost var s := src[current..];
      while IsDigit(Peek())
        invariant old(current) <= current <= |src|
        invariant forall i :: 0 <= i < current - old(current) ==> IsDigit(s[i])
        decreases |src| - current
      {
        var _ := Advance();
      }
      SpanIs(IsDigit, s, current - old(current));
    }

    method BinaryNumber() returns (t: Token)
      requires start <= current <= |src|
      modifies this`current
      ensures current == old(current) + Span(IsBinary, src[old(current)..])
      ensures Made(t, (if IsDigit(At(src, current)) then Error else Kind.Number, current - start))
    {
      ghost var s := src[current..];
      while Peek() == '1' || Peek() == '0'
        invariant old(current) <= current <= |src|
        invariant forall i :: 0 <= i < current - old(current) ==> IsBinary(s[i])
        decreases |src| - current
      {
        var _ := Advance();
      }
      SpanIs(IsBinary, s, current - old(current));
      if IsDigit(Peek()) {
        return ErrorToken();
      }
      t := MakeToken(Kind.Number);
    }

    method HexadecimalNumber() returns (t: Token)
      requires start <= current <= |src|
      modifies this`current
      ensures current == old(current) + Span(IsHex, src[old(current)..])
      ensures Made(t, (Kind.Number, current - start))
    {
      ghost var s := src[current..];
      while IsHex(Peek())
        invariant old(current) <= current <= |src|
        invariant forall i :: 0 <= i < current - old(current) ==> IsHex(s[i])
        decreases |src| - current
      {
        var _ := Advance();
      }
      SpanIs(IsHex, s, current - old(current));
      t := MakeToken(Kind.Number);
    }

    method Number() returns (t: Token)
      requires Valid() && current == start + 1 && IsDigit(src[start])
      modifies this`current
      ensures start + LexNumber(src[start..]).1 <= |src| && Made(t, LexNumber(src[start..]))
    {
      hide Span, LexNumber, LexDecimal, Made, IsDigit;
      NumberAt(src, start);
      if src[current - 1] == '0' {
        var binary := Match('b');
        if !binary {
          binary := Match('B');
        }
        if binary {
          t := BinaryNumber();
          return;
        }
        var hexadecimal := Match('x');
        if !hexadecimal {
          hexadecimal := Match('X');
        }
        if hexadecimal {
          t := HexadecimalNumber();
          return;
        }
      }
      t := Decimal();
    }

    method Decimal() returns (t: Token)
      requires Valid() && current == start + 1
      modifies this`current
      ensures start + LexDecimal(src[start..]).1 <= |src| && Made(t, LexDecimal(src[start..]))
    {
      hide Span, LexDecimal, LexExponent, Made, IsDigit;
      DecimalAt(src, start);
      Digits();
      var point := Match('.');
      if point {
        if !IsDigit(Peek()) {
          t := BadNumber();
          return;
        }
        Digits();
      }
      t := Exponent();
    }

    method BadNumber() returns (t: Token)
      requires start <= current <= |src|
      ensures Made(t, (Error, current - start))
    {
      t := ErrorToken();
    }

    method Exponent() returns (t: Token)
      requires Valid() && start < current
      modifies this`current
      ensures start + LexExponent(src[start..], old(current) - start).1 <= |src|
      ensures Made(t, LexExponent(src[start..], old(current) - start))
    {
      hide Span, LexExponent;
      ExponentAt(src, start, current);
      var exponent := Match('e');
      if exponent {
        if Peek() == '+' || Peek() == '-' {
          var _ := Advance();
        }
        if !IsDigit(Peek()) {
          return ErrorToken();
        }
        Digits();
      }
      t := MakeToken(Kind.Number);
    }

    /** A string may run over several lines; its token has the line it starts on. */
    method String() returns (t: Token)
      requires Valid() && current == start + 1 && src[start] == '"'
      modifies this`current, this`line
      ensures start + LexString(src[start..]).1 <= |src|
      ensures var (kind, n) := LexString(src[start..]);
        && current == start + n && line == old(line) + Newlines(src[start..current])
        && t == if kind == Error then ErrorToken() else Token(kind, src[start..current], start, old(line))
    {
      hide Newlines, Span;
      var lineStart := line;
      StringBody();
      EndIsZero();
      StringAt(src, start);
      if IsAtEnd() {
        return ErrorToken();
      }
      LinesAdd(src, start, current, current + 1);
      OneLine(src, current);
      var _ := Advance();
      t := MakeToken(Kind.String).(line := lineStart);
    }

    /** The characters of a string, up to its closing quote or the end of the text. */
    method StringBody()
      requires Valid() && current == start + 1 && src[start] != '\n'
      modifies this`current, this`line
      ensures current == start + 1 + Span(InString, src[start + 1..])
      ensures line == old(line) + Newlines(src[start..current])
    {
      hide Newlines, Span;
      ghost var s := src[current..];
      LinesNone(src, start, 1);
      while Peek() != '"' && !IsAtEnd()
        invariant start < current <= |src|
        invariant forall i :: 0 <= i < current - start - 1 ==> InString(s[i])
        invariant line == old(line) + Newlines(src[start..current])
        decreases |src| - current
      {
        EndIsZero();
        LinesAdd(src, start, current, current + 1);
        OneLine(src, current);
        if Peek() == '\n' {
          line := line + 1;
        }
        var _ := Advance();
      }
      EndIsZero();
      SpanIs(InString, s, current - start - 1);
    }

    method Symbol(c: char) returns (t: Token)
      requires Valid() && current == start + 1 && c == src[start]
      modifies this`current
      ensures start + LexSymbol(src[start..]).1 <= |src| && Made(t, LexSymbol(src[start..]))
    {
      Suffix(src, start, 1);
      match c {
        case '(' => t := MakeToken(LeftParen);
        case ')' => t := MakeToken(RightParen);
        case '{' => t := MakeToken(LeftBrace);
        case '}' => t := MakeToken(RightBrace);
        case '[' => t := MakeToken(LeftBracket);
        case ']' => t := MakeToken(RightBracket);
        case ';' => t := MakeToken(Semicolon);
        case ',' => t := MakeToken(Comma);
        case '.' => t := MakeToken(Dot);
        case '-' => t := MakeToken(Minus);
        case '+' => t := MakeToken(Plus);
        case '/' => t := MakeToken(Slash);
        case '*' => t := MakeToken(Star);
        case '%' => t := MakeToken(Percent);
        case '^' => t := MakeToken(Caret);
        case '~' => t := MakeToken(Tilde);
        case '!' =>
          var equal := Match('=');
          t := MakeToken(if equal then BangEqual else Bang);
        case '=' =>
          var equal := Match('=');
          t := MakeToken(if equal then EqualEqual else Equal);
        case '<' =>
          var equal := Match('=');
          if equal {
            return MakeToken(LessEqual);
          }
          var less := Match('<');
          t := MakeToken(if less then LessLess else Less);
        case '>' =>
          var equal := Match('=');
          if equal {
            return MakeToken(GreaterEqual);
          }
          var greater := Match('>');
          t := MakeToken(if greater then GreaterGreater else Greater);
        case _ => t := ErrorToken();
      }
    }

    /** Any lexeme but a string. */
    method Plain(c: char) returns (t: Token)
      requires Valid() && current == start + 1 && c == src[start] && c != '"'
      modifies this`current
      ensures start + Lex(src[start..]).1 <= |src| && Made(t, Lex(src[start..]))
    {
      hide LexNumber, LexString, LexSymbol, WordKind, Span, IsAlpha, IsDigit, Lex, Made;
      LexAt(src, start);
      if IsAlpha(c) || c == '_' {
        t := Identifier();
      } else if IsDigit(c) {
        t := Number();
      } else {
        t := Symbol(c);
      }
    }

    /** Read one lexeme, the first character of which is at `start`. */
    method Lexeme() returns (t: Token)
      requires Valid() && current == start < |src| && !IsBlank(src[start])
      modifies this`current, this`line
      ensures var k := Lex(src[start..]).1;
        && current == start + k && line == old(line) + Newlines(src[start..current])
        && [t] == First(src[start..], start, old(line))
    {
      hide Newlines, LexNumber, LexString, LexSymbol, WordKind, Span, Lex, First;
      FirstIs(src, start, line);
      if src[start] != '"' {
        NoLineInside(src, start);
      } else {
        LexAt(src, start);
      }
      var c := Advance();
      if c == '"' {
        t := String();
      } else {
        t := Plain(c);
      }
    }

    /** The next token of the source. */
    method ScanToken() returns (t: Token)
      requires Valid()
      modifies this
      ensures Valid()
      ensures old(insideComment) ==> t.kind == Error && insideComment && current == old(current) && line == old(line)
      ensures !old(insideComment) ==> NextToken(src, old(current), old(line), t, current, line, insideComment)
    {
      hide Skip, Newlines, Lex, First, NextToken;
      ghost var from, first := current, line;
      SkipAtEnd(src);
      SkipWhitespace();
      NextIs(src, from, first);
      if insideComment {
        return ErrorToken();
      }
      start := current;
      EndIsZero();
      if IsAtEnd() {
        assert src[start..current] == "";
        return MakeToken(Eof);
      }
      t := Lexeme();
    }
  }

  /** A token at a position, and where the scanner goes on. */
  ghost predicate NextToken(src: string, at: nat, line: nat, t: Token, after: nat, line': nat, open: bool) {
    && at <= after <= |src|
    && (open ==> t.kind == Error && after == |src|)
    && (!open && t.kind != Eof ==> at < after)
    && Tokens(src[at..], at, line) ==
         if open || t.kind == Eof then [t] else [t] + Tokens(src[after..], after, line')
  }

  lemma FirstToken(src: string, from: nat, line: nat)
    requires from <= |src|
    ensures var (n, open) := Skip(src[from..]);
      var p := from + n;
      var line' := line + Newlines(src[from..p]);
      Tokens(src[from..], from, line) ==
        if open then [Token(Error, "", |src|, line')]
        else if p == |src| then [Token(Eof, "", |src|, line')]
        else
          var k := Lex(src[p..]).1;
          First(src[p..], p, line') + Tokens(src[p + k..], p + k, line' + Newlines(src[p..p + k]))
    ensures var (n, open) := Skip(src[from..]); !open && from + n < |src| ==> !IsBlank(src[from + n])
  {
    hide Skip, Newlines, Lex, Tokens;
    var s := src[from..];
    var (n, open) := Skip(s);
    TokensStep(s, from, line);
    SkipsGap(s);
    assert s[..n] == src[from..from + n] && s[n..] == src[from + n..];
    if !open && n < |s| {
      var rest := src[from + n..];
      var k := Lex(rest).1;
      assert rest[..k] == src[from + n..from + n + k] && rest[k..] == src[from + n + k..];
    }
  }

  /** The three ways a token can come about. */
  lemma NextIs(src: string, from: nat, line: nat)
    requires from <= |src|
    ensures var (n, open) := Skip(src[from..]);
      var p := from + n;
      var line' := line + Newlines(src[from..p]);
      if open then NextToken(src, from, line, Token(Error, "", |src|, line'), |src|, line', true)
      else if p == |src| then NextToken(src, from, line, Token(Eof, "", |src|, line'), |src|, line', false)
      else
        var k := Lex(src[p..]).1;
        && !IsBlank(src[p])
        && NextToken(src, from, line, First(src[p..], p, line')[0], p + k, line' + Newlines(src[p..p + k]), false)
  {
    hide Skip, Newlines, Lex, Tokens, First;
    FirstToken(src, from, line);
    var (n, open) := Skip(src[from..]);
    if !open && from + n < |src| {
      FirstIs(src, from + n, line + Newlines(src[from..from + n]));
      NotEof(src[from + n..]);
    }
  }

  lemma SkipAtEnd(src: string)
    ensures Skip(src[|src|..]) == (0, false) && Newlines(src[|src|..|src|]) == 0
  {
  }

  lemma FirstIs(src: string, start: nat, line: nat)
    requires start < |src|
    ensures var (kind, k) := Lex(src[start..]);
      First(src[start..], start, line) ==
        [if kind == Error then Token(Error, "", start + k, line + Newlines(src[start..start + k]))
         else Token(kind, src[start..start + k], start, line)]
  {
    hide Lex, Newlines;
    var k := Lex(src[start..]).1;
    assert src[start..][..k] == src[start..start + k];
  }

  lemma LexAt(src: string, start: nat)
    requires start < |src|
    ensures var s, n := src[start..], 1 + Span(IsWord, src[start + 1..]);
      Lex(s) == if IsAlpha(src[start]) || src[start] == '_' then (WordKind(src[start..start + n]), n)
                else if IsDigit(src[start]) then LexNumber(s)
                else if src[start] == '"' then LexString(s)
                else LexSymbol(s)
  {
    hide Span, WordKind, LexNumber, LexString, LexSymbol, IsAlpha, IsDigit;
    var s, n := src[start..], 1 + Span(IsWord, src[start + 1..]);
    assert s[1..] == src[start + 1..] && s[..n] == src[start..start + n];
  }

  /** Only a string runs over several lines. */
  lemma NoLineInside(src: string, start: nat)
    requires start < |src| && src[start] != '"' && src[start] != '\n'
    ensures Newlines(src[start..start + Lex(src[start..]).1]) == 0
  {
    hide Newlines, Lex;
    var s := src[start..];
    OneLined(s);
    forall j | start <= j < start + Lex(s).1
      ensures src[j] != '\n'
    {
      assert s[j - start] != '\n';
    }
    LinesNone(src, start, Lex(s).1);
  }

  lemma OneLined(s: string)
    requires s != "" && s[0] != '"' && s[0] != '\n'
    ensures forall i :: 0 <= i < Lex(s).1 ==> s[i] != '\n'
  {
    hide WordKind, LexNumber, LexSymbol;
    if IsAlpha(s[0]) || s[0] == '_' {
      SpanLined(IsWord, s, 1);
    } else if IsDigit(s[0]) {
      NumberLined(s);
    } else {
      SymbolLined(s);
    }
  }

  lemma SymbolLined(s: string)
    requires s != "" && s[0] != '\n'
    ensures forall i :: 0 <= i < LexSymbol(s).1 ==> s[i] != '\n'
  {
  }

  lemma SpanLined(p: char -> bool, s: string, i: nat)
    requires i <= |s| && !p('\n')
    ensures forall j :: i <= j < i + Span(p, s[i..]) ==> s[j] != '\n'
  {
    forall j | i <= j < i + Span(p, s[i..])
      ensures s[j] != '\n'
    {
      assert p(s[i..][j - i]);
    }
  }

  lemma NumberLined(s: string)
    requires s != "" && IsDigit(s[0])
    ensures forall i :: 0 <= i < LexNumber(s).1 ==> s[i] != '\n'
  {
    hide Span, LexDecimal;
    if s[0] == '0' && (At(s, 1) == 'b' || At(s, 1) == 'B') {
      SpanLined(IsBinary, s, 2);
    } else if s[0] == '0' && (At(s, 1) == 'x' || At(s, 1) == 'X') {
      SpanLined(IsHex, s, 2);
    } else {
      DecimalLined(s);
    }
  }

  lemma DecimalLined(s: string)
    requires s != "" && s[0] != '\n'
    ensures forall i :: 0 <= i < LexDecimal(s).1 ==> s[i] != '\n'
  {
    hide Span, LexExponent;
    SpanLined(IsDigit, s, 1);
    var n := 1 + Span(IsDigit, s[1..]);
    ExponentLined(s, n);
    if n < |s| {
      SpanLined(IsDigit, s, n + 1);
      ExponentLined(s, n + 1 + Span(IsDigit, s[n + 1..]));
    }
  }

  lemma ExponentLined(s: string, n: nat)
    requires n <= |s|
    ensures forall i :: n <= i < LexExponent(s, n).1 ==> s[i] != '\n'
  {
    hide Span;
    if At(s, n) == 'e' {
      var k := if At(s, n + 1) == '+' || At(s, n + 1) == '-' then n + 2 else n + 1;
      SpanLined(IsDigit, s, k);
    }
  }

  // ----- numbers by position in the source -----

  lemma Suffix(src: string, start: nat, i: nat)
    requires start + i <= |src|
    ensures src[start..][i..] == src[start + i..] && At(src[start..], i) == At(src, start + i)
  {
  }

  lemma StringAt(src: string, start: nat)
    requires start < |src| && src[start] == '"'
    ensures var r, n := LexString(src[start..]), start + 1 + Span(InString, src[start + 1..]);
      r == if n == |src| then (Error, n - start) else (String, n + 1 - start)
  {
    hide Span;
    Suffix(src, start, 1);
  }

  lemma NumberAt(src: string, start: nat)
    requires start < |src| && IsDigit(src[start])
    ensures var r, c := LexNumber(src[start..]), At(src, start + 1);
      if src[start] == '0' && (c == 'b' || c == 'B') then
        var n := start + 2 + Span(IsBinary, src[start + 2..]);
        r == (if IsDigit(At(src, n)) then Error else Number, n - start)
      else if src[start] == '0' && (c == 'x' || c == 'X') then
        r == (Number, 2 + Span(IsHex, src[start + 2..]))
      else r == LexDecimal(src[start..])
  {
    hide Span, LexDecimal;
    Suffix(src, start, 1);
    if start + 2 <= |src| {
      Suffix(src, start, 2);
      Suffix(src, start, 2 + Span(IsBinary, src[start + 2..]));
    }
  }

  lemma DecimalAt(src: string, start: nat)
    requires start < |src|
    ensures var r, n := LexDecimal(src[start..]), start + 1 + Span(IsDigit, src[start + 1..]);
      if At(src, n) != '.' then r == LexExponent(src[start..], n - start)
      else if IsDigit(At(src, n + 1)) then
        r == LexExponent(src[start..], n + 1 + Span(IsDigit, src[n + 1..]) - start)
      else r == (Error, n + 1 - start)
  {
    hide Span, LexExponent;
    Suffix(src, start, 1);
    var n := start + 1 + Span(IsDigit, src[start + 1..]);
    Suffix(src, start, n - start);
    if n < |src| {
      Suffix(src, start, n + 1 - start);
    }
  }

  lemma ExponentAt(src: string, start: nat, n: nat)
    requires start <= n <= |src|
    ensures var r, k := LexExponent(src[start..], n - start),
          if At(src, n + 1) == '+' || At(src, n + 1) == '-' then n + 2 else n + 1;
      if At(src, n) != 'e' then r == (Number, n - start)
      else if IsDigit(At(src, k)) then r == (Number, k + Span(IsDigit, src[k..]) - start)
      else r == (Error, k - start)
  {
    hide Span;
    Suffix(src, start, n - start);
    if n < |src| {
      Suffix(src, start, n + 1 - start);
    }
    if n + 1 < |src| {
      Suffix(src, start, n + 2 - start);
    }
  }

  /** Between two positions lie only blanks and comments, with so many lines. */
  ghost predicate Skipped(src: string, from: nat, i: nat, lines: nat) {
    && from <= i <= |src|
    && Skip(src[from..]) == Further(i - from, Skip(src[i..]))
    && lines == Newlines(src[from..i])
  }

  lemma SkippedNothing(src: string, from: nat)
    requires from <= |src|
    ensures Skipped(src, from, from, 0)
  {
  }

  /** What is at a position: a blank, a comment, or nothing to skip. */
  lemma FrontIs(src: string, i: nat)
    requires i <= |src| && '\0' !in src
    ensures var k, c, d := Front(src[i..]), At(src, i), At(src, i + 1);
      && (IsBlank(c) ==> k == 1 && i < |src| && Newlines(src[i..i + 1]) == if c == '\n' then 1 else 0)
      && (c == '/' && d == '/' ==>
           k == Span(InLine, src[i..]) && 0 < k && i + k <= |src| && Newlines(src[i..i + k]) == 0)
      && (c == '/' && d == '*' ==> OpensComment(src[i..]) && k > 0)
      && (!IsBlank(c) && !(c == '/' && (d == '/' || d == '*')) ==> k == 0)
  {
    if At(src, i) == '/' && At(src, i + 1) == '/' {
      assert InLine(src[i..][0]);
      forall j | i <= j < i + Span(InLine, src[i..])
        ensures src[j] != '\n'
      {
        assert InLine(src[i..][j - i]);
      }
      LinesNone(src, i, Span(InLine, src[i..]));
    }
    hide BlockEnd, Span;
  }

  lemma {:induction false} LinesNone(src: string, i: nat, k: nat)
    requires i + k <= |src| && forall j :: i <= j < i + k ==> src[j] != '\n'
    ensures Newlines(src[i..i + k]) == 0
    decreases k
  {
    if k > 0 {
      assert src[i..i + k][1..] == src[i + 1..i + k];
      LinesNone(src, i + 1, k - 1);
    }
  }

  lemma LinesAdd(src: string, from: nat, i: nat, j: nat)
    requires from <= i <= j <= |src|
    ensures Newlines(src[from..j]) == Newlines(src[from..i]) + Newlines(src[i..j])
  {
    assert src[from..j] == src[from..i] + src[i..j];
    NewlinesAdd(src[from..i], src[i..j]);
  }

  lemma {:induction false} SkippedOn(src: string, from: nat, i: nat, lines: nat)
    requires Skipped(src, from, i, lines)
    ensures var k := Front(src[i..]);
      && (0 < k <= |src| - i ==> Skipped(src, from, i + k, lines + Newlines(src[i..i + k])))
      && (k == 0 ==> Skip(src[from..]) == (i - from, false))
      && (k > |src| - i ==> Skip(src[from..]) == (|src| - from, true))
  {
    hide Skip, Newlines, Front;
    var k := Front(src[i..]);
    SkipStep(src[i..]);
    if 0 < k <= |src| - i {
      assert src[i..][k..] == src[i + k..];
      LinesAdd(src, from, i, i + k);
    }
  }

  /** Searching a comment's end, with the lines of all characters looked at. */
  ghost predicate InComment(src: string, from: nat, i: nat, lines: nat) {
    && from <= i <= |src|
    && BlockEnd(src[from..], 0) == BlockEnd(src[from..], i - from)
    && lines == Newlines(src[from..if i < |src| then i + 1 else i])
  }

  lemma CommentStarts(src: string, from: nat)
    requires from < |src| && src[from] == '/'
    ensures InComment(src, from, from, 0)
  {
    hide Newlines;
    LinesNone(src, from, 1);
  }

  lemma CommentStep(src: string, from: nat, i: nat, lines: nat)
    requires InComment(src, from, i, lines)
    ensures i < |src| && !(At(src, i) == '*' && At(src, i + 1) == '/') ==>
      InComment(src, from, i + 1, lines + if At(src, i + 1) == '\n' then 1 else 0)
  {
    hide Newlines;
    if i + 1 < |src| {
      LinesAdd(src, from, i + 1, i + 2);
      OneLine(src, i + 1);
    }
  }

  lemma OneLine(src: string, i: nat)
    requires i < |src|
    ensures Newlines(src[i..i + 1]) == if src[i] == '\n' then 1 else 0
  {
  }

  lemma CommentEnds(src: string, from: nat, i: nat, lines: nat)
    requires InComment(src, from, i, lines) && (i == |src| || (At(src, i) == '*' && At(src, i + 1) == '/'))
    ensures i == from + BlockEnd(src[from..], 0) && lines == Newlines(src[from..i])
  {
    hide Newlines;
    if i < |src| {
      LinesAdd(src, from, i, i + 1);
      OneLine(src, i);
    }
  }

  /** Scan until the end of the text, or until a comment turns out never to be closed, after which
      there is nothing but errors. */
  method ScanAll(src: string) returns (tokens: seq<Token>)
    requires '\0' !in src
    ensures tokens == Tokens(src, 0, 1) && Tiled(src, 0, tokens)
  {
    hide Tokens, Tiled;
    var s := new Scanner(src);
    tokens := [];
    assert src[0..] == src && src[..0] == "";
    TokensTile(src, 0, 1);
    while true
      invariant s.Valid() && s.src == src && !s.insideComment && fresh(s)
      invariant Tokens(src, 0, 1) == tokens + Tokens(src[s.current..], s.current, s.line)
      decreases |src| - s.current
    {
      var t := s.ScanToken();
      tokens := tokens + [t];
      if t.kind == Eof || s.insideComment {
        return;
      }
    }
  }
}
