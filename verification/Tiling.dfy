/** The tokens of a text tile it, carry the right lines, and survive being scanned again. */
module Tiling {
  import opened Lexing

  // ----- what lies between lexemes -----

  /** Up to the end of a line. */
  predicate LineComment(c: string) {
    |c| >= 2 && c[0] == '/' && c[1] == '/' && forall i :: 0 <= i < |c| ==> c[i] != '\n'
  }

  predicate ClosesAt(c: string, i: nat) {
    i + 1 < |c| && c[i] == '*' && c[i + 1] == '/'
  }

  /** Up to the first closing mark; the star of the opening mark may begin it. */
  predicate BlockComment(c: string) {
    && |c| >= 3 && c[0] == '/' && c[1] == '*' && ClosesAt(c, |c| - 2)
    && forall i :: 0 <= i < |c| - 2 ==> !ClosesAt(c, i)
  }

  /** Nothing but blanks and comments. */
  ghost predicate Gap(s: string)
    decreases |s|
  {
    || s == ""
    || (s[0] in [' ', '\r', '\t', '\n'] && Gap(s[1..]))
    || exists k :: 0 < k <= |s| && (LineComment(s[..k]) || BlockComment(s[..k])) && Gap(s[k..])
  }

  predicate OpensComment(s: string) {
    |s| >= 2 && s[0] == '/' && (s[1] == '/' || s[1] == '*')
  }

  /** What is skipped is a gap, and a lexeme follows it. */
  lemma {:induction false} SkipsGap(s: string)
    ensures var (n, open) := Skip(s);
      !open ==> Gap(s[..n]) && (n < |s| ==> !IsBlank(s[n]) && !OpensComment(s[n..]))
    decreases |s|
  {
    hide Skip, Gap, IsBlank, BlockEnd, Span, OpensComment;
    var (n, open) := Skip(s);
    SkipStep(s);
    var k := Front(s);
    if k == 0 {
      assert s[0..] == s;
      EmptyGap(s[..0]);
    } else if k <= |s| && !open {
      SkipsGap(s[k..]);
      assert s[n..] == s[k..][n - k..];
      assert n < |s| ==> s[n] == s[k..][n - k];
      assert s[..n][..k] == s[..k] && s[..n][k..] == s[k..][..n - k];
      FrontGap(s, s[..n]);
    }
  }

  /** The length of the blank or comment at the front of a text; beyond its end for a comment that is
      not closed. */
  function Front(s: string): nat {
    if s != "" && IsBlank(s[0]) then 1
    else if !OpensComment(s) then 0
    else if s[1] == '/' then Span(InLine, s)
    else BlockEnd(s, 0) + 2
  }

  lemma SkipStep(s: string)
    ensures var k := Front(s);
      && (k == 0 ==> Skip(s) == (0, false) && (s != "" ==> !IsBlank(s[0])) && !OpensComment(s))
      && (0 < k <= |s| ==> Skip(s) == Further(k, Skip(s[k..])))
      && (k > |s| ==> Skip(s) == (|s|, true))
  {
    if OpensComment(s) && s[1] == '/' {
      assert InLine(s[0]);
    }
  }

  lemma EmptyGap(s: string)
    requires s == ""
    ensures Gap(s)
  {
  }

  lemma FrontGap(s: string, gap: string)
    requires 0 < Front(s) <= |gap| <= |s| && gap[..Front(s)] == s[..Front(s)] && Gap(gap[Front(s)..])
    ensures Gap(gap)
  {
    hide BlockEnd, Span;
    var k := Front(s);
    assert gap[0] == gap[..k][0];
    if !IsBlank(s[0]) {
      CommentFront(s);
      assert LineComment(gap[..k]) || BlockComment(gap[..k]);
    }
  }

  lemma CommentFront(s: string)
    requires OpensComment(s) && (s[1] == '*' ==> BlockEnd(s, 0) < |s|)
    ensures s[1] == '/' ==> Span(InLine, s) >= 2 && LineComment(s[..Span(InLine, s)])
    ensures s[1] == '*' ==> BlockComment(s[..BlockEnd(s, 0) + 2])
  {
    if s[1] == '/' {
      var n := Span(InLine, s);
      assert n < |s| ==> !InLine(s[n]);
    } else {
      var n := BlockEnd(s, 0);
      var c := s[..n + 2];
      forall i | 0 <= i < n
        ensures !ClosesAt(c, i)
      {
        assert !(s[i] == '*' && s[i + 1] == '/');
      }
    }
  }

  // ----- lines -----

  /** Lines are counted by newlines. */
  lemma {:induction false} NewlinesCounted(s: string)
    ensures Newlines(s) == multiset(s)['\n']
  {
    if s != "" {
      NewlinesCounted(s[1..]);
      assert s == [s[0]] + s[1..];
    }
  }

  lemma {:induction false} NewlinesAdd(s: string, t: string)
    ensures Newlines(s + t) == Newlines(s) + Newlines(t)
  {
    if s == "" {
      assert s + t == t;
    } else {
      assert (s + t)[1..] == s[1..] + t;
      NewlinesAdd(s[1..], t);
    }
  }

  // ----- tiling -----

  function End(t: Token): nat {
    t.start + |t.text|
  }

  /** A token shows its place in the source and the line it starts on. */
  ghost predicate Placed(src: string, t: Token) {
    && End(t) <= |src| && t.text == src[t.start..End(t)]
    && t.line == 1 + Newlines(src[..t.start])
    && (t.kind == Eof <==> t.text == "") && (t.kind == Eof ==> t.start == |src|)
  }

  ghost predicate GapAt(src: string, i: nat, j: nat) {
    i <= j <= |src| && Gap(src[i..j])
  }

  /** Tokens in order, from a position on: each in its place, and only gaps between neighbours. */
  ghost predicate Tiled(src: string, at: nat, ts: seq<Token>) {
    && ts != []
    && (forall i :: 0 <= i < |ts| && ts[i].kind != Error ==> Placed(src, ts[i]) && at <= ts[i].start)
    && (forall i, j :: 0 <= i < j < |ts| && ts[i].kind != Error && ts[j].kind != Error ==> End(ts[i]) <= ts[j].start)
    && (ts[0].kind != Error ==> GapAt(src, at, ts[0].start))
    && (forall i, j :: 0 <= i < |ts| && j == i + 1 && j < |ts| && ts[i].kind != Error && ts[j].kind != Error ==>
         GapAt(src, End(ts[i]), ts[j].start))
    && (forall i :: 0 <= i < |ts| - 1 ==> ts[i].kind != Eof)
    && (ts[|ts| - 1].kind == Eof || ts[|ts| - 1].kind == Error)
  }

  /** One step of the scan. */
  lemma {:induction false} TokensStep(s: string, at: nat, line: nat)
    ensures var (n, open) := Skip(s);
      var line' := line + Newlines(s[..n]);
      Tokens(s, at, line) ==
        if open then [Token(Error, "", at + n, line')]
        else if n == |s| then [Token(Eof, "", at + n, line')]
        else First(s[n..], at + n, line') + Rest(s[n..], at + n, line')
  {
    hide Skip, Lex, Newlines;
  }

  function First(s: string, at: nat, line: nat): seq<Token>
    requires s != ""
  {
    var (kind, k) := Lex(s);
    [if kind == Error then Token(Error, "", at + k, line + Newlines(s[..k])) else Token(kind, s[..k], at, line)]
  }

  function Rest(s: string, at: nat, line: nat): seq<Token>
    requires s != ""
  {
    var k := Lex(s).1;
    Tokens(s[k..], at + k, line + Newlines(s[..k]))
  }

  lemma {:induction false} TokensTile(src: string, at: nat, line: nat)
    requires at <= |src| && line == 1 + Newlines(src[..at])
    ensures Tiled(src, at, Tokens(src[at..], at, line))
    decreases |src| - at
  {
    hide Tokens, Skip, Newlines, Lex, Tiled, Gap;
    var s := src[at..];
    var (n, open) := Skip(s);
    var start := at + n;
    TokensStep(s, at, line);
    SkipsGap(s);
    LineAt(src, at, n);
    assert src[at..start] == s[..n];
    if open {
      TiledError(src, at, Tokens(s, at, line)[0]);
    } else if n == |s| {
      assert src[..start] == src;
      TiledEof(src, at, Token(Eof, "", start, 1 + Newlines(src)));
    } else {
      assert s[n..] == src[start..];
      FirstTile(src, at, start, 1 + Newlines(src[..start]));
    }
  }

  lemma FirstTile(src: string, at: nat, start: nat, line: nat)
    requires at <= start < |src| && line == 1 + Newlines(src[..start]) && Gap(src[at..start])
    ensures Tiled(src, at, First(src[start..], start, line) + Rest(src[start..], start, line))
    decreases |src| - at, 0
  {
    hide Tokens, Skip, Newlines, Lex, Tiled, Gap;
    var s := src[start..];
    var k := Lex(s).1;
    var next := start + k;
    LineAt(src, start, k);
    assert src[start..next] == s[..k] && s[k..] == src[next..];
    TokensTile(src, next, line + Newlines(s[..k]));
    NotEof(s);
    TiledNext(src, at, First(s, start, line)[0], next, Rest(s, start, line));
  }

  lemma LineAt(src: string, at: nat, n: nat)
    requires at + n <= |src|
    ensures Newlines(src[..at + n]) == Newlines(src[..at]) + Newlines(src[at..][..n])
  {
    assert src[..at + n] == src[..at] + src[at..][..n];
    NewlinesAdd(src[..at], src[at..][..n]);
  }

  lemma TiledError(src: string, at: nat, t: Token)
    requires t.kind == Error
    ensures Tiled(src, at, [t])
  {
  }

  lemma TiledEof(src: string, at: nat, t: Token)
    requires at <= |src| && t == Token(Eof, "", |src|, 1 + Newlines(src)) && Gap(src[at..])
    ensures Tiled(src, at, [t])
  {
    hide Gap, Newlines;
    assert src[..|src|] == src && src[at..|src|] == src[at..];
  }

  lemma NotEof(s: string)
    requires s != ""
    ensures Lex(s).0 != Eof
  {
    hide Span;
  }

  lemma {:induction false} TiledNext(src: string, at: nat, t: Token, next: nat, rest: seq<Token>)
    requires Tiled(src, next, rest) && t.kind != Eof
    requires t.kind != Error ==> Placed(src, t) && GapAt(src, at, t.start) && End(t) == next
    requires at <= next
    ensures Tiled(src, at, [t] + rest)
  {
    hide Placed, GapAt;
    var ts := [t] + rest;
    assert t.kind != Error ==> at <= t.start by { GapOrder(src, at, t); }
    assert forall i :: 1 <= i < |ts| ==> ts[i] == rest[i - 1];
  }

  lemma GapOrder(src: string, at: nat, t: Token)
    requires t.kind != Error ==> GapAt(src, at, t.start)
    ensures t.kind != Error ==> at <= t.start
  {
  }

  // ----- scanning again -----

  /** A span ends where the class ends, whatever follows. */
  lemma SpanIs(p: char -> bool, s: string, n: nat)
    requires n <= |s| && forall i :: 0 <= i < n ==> p(s[i])
    requires n < |s| ==> !p(s[n])
    ensures Span(p, s) == n
  {
  }

  /** A text that begins with the same lexeme, followed by a space or by nothing. */
  ghost predicate Resumes(s: string, t: string, n: nat) {
    n <= |s| && n <= |t| && t[..n] == s[..n] && (n < |t| ==> t[n] == ' ')
  }

  lemma SpanResumes(p: char -> bool, s: string, t: string, i: nat, n: nat)
    requires Resumes(s, t, n) && i <= n && !p(' ') && i + Span(p, s[i..]) == n
    ensures i + Span(p, t[i..]) == n
  {
    forall j | 0 <= j < n - i
      ensures p(t[i..][j])
    {
      assert t[i..][j] == t[..n][i + j] == s[i..][j];
    }
    SpanIs(p, t[i..], n - i);
  }

  /** A span that ends inside the lexeme. */
  lemma SpanInside(p: char -> bool, s: string, t: string, i: nat, n: nat)
    requires Resumes(s, t, n) && i <= n && i + Span(p, s[i..]) < n
    ensures Span(p, t[i..]) == Span(p, s[i..])
  {
    var k := Span(p, s[i..]);
    forall j | 0 <= j <= k
      ensures t[i..][j] == s[i..][j]
    {
      assert t[i + j] == t[..n][i + j] == s[i + j];
    }
    SpanIs(p, t[i..], k);
  }

  lemma AtResumes(s: string, t: string, n: nat, i: nat)
    requires Resumes(s, t, n)
    ensures i < n ==> At(t, i) == At(s, i)
    ensures i == n ==> At(t, i) == ' ' || At(t, i) == '\0'
  {
    if i < n {
      assert At(t, i) == t[..n][i] == s[..n][i];
    }
  }

  lemma ExponentResumes(s: string, t: string, i: nat, n: nat)
    requires i <= |s| && LexExponent(s, i) == (Number, n) && Resumes(s, t, n)
    ensures LexExponent(t, i) == (Number, n)
  {
    AtResumes(s, t, n, i);
    AtResumes(s, t, n, i + 1);
    AtResumes(s, t, n, i + 2);
    if At(s, i) == 'e' {
      var k := if At(s, i + 1) == '+' || At(s, i + 1) == '-' then i + 2 else i + 1;
      DigitSpan(s, k);
      SpanResumes(IsDigit, s, t, k, n);
    }
  }

  /** At a digit, a span of digits is not empty. */
  lemma DigitSpan(s: string, k: nat)
    requires k <= |s| && IsDigit(At(s, k))
    ensures Span(IsDigit, s[k..]) > 0
  {
  }

  lemma NumberResumes(s: string, t: string, n: nat)
    requires s != "" && t != "" && IsDigit(s[0]) && LexNumber(s) == (Number, n) && Resumes(s, t, n)
    ensures IsDigit(t[0]) && LexNumber(t) == (Number, n)
  {
    AtResumes(s, t, n, 0);
    AtResumes(s, t, n, 1);
    if s[0] == '0' && (At(s, 1) == 'b' || At(s, 1) == 'B') {
      SpanResumes(IsBinary, s, t, 2, n);
      AtResumes(s, t, n, n);
    } else if s[0] == '0' && (At(s, 1) == 'x' || At(s, 1) == 'X') {
      SpanResumes(IsHex, s, t, 2, n);
    } else {
      DecimalResumes(s, t, n);
    }
  }

  lemma DecimalResumes(s: string, t: string, n: nat)
    requires s != "" && t != "" && LexDecimal(s) == (Number, n) && Resumes(s, t, n)
    ensures LexDecimal(t) == (Number, n)
  {
    hide LexExponent, Span;
    var m := 1 + Span(IsDigit, s[1..]);
    DigitsResume(s, t, 1, n);
    AtResumes(s, t, n, m);
    AtResumes(s, t, n, m + 1);
    if At(s, m) != '.' {
      ExponentResumes(s, t, m, n);
    } else {
      var q := m + 1 + Span(IsDigit, s[m + 1..]);
      DigitSpan(s, m + 1);
      DigitsResume(s, t, m + 1, n);
      ExponentResumes(s, t, q, n);
    }
  }

  lemma DigitsResume(s: string, t: string, i: nat, n: nat)
    requires Resumes(s, t, n) && i <= n && i + Span(IsDigit, s[i..]) <= n
    ensures i <= |t| && Span(IsDigit, t[i..]) == Span(IsDigit, s[i..])
  {
    hide Span;
    if i + Span(IsDigit, s[i..]) < n {
      SpanInside(IsDigit, s, t, i, n);
    } else {
      SpanResumes(IsDigit, s, t, i, n);
    }
  }

  /** A lexeme stands for itself: followed by a space or by nothing it is scanned the same. */
  lemma LexResumes(s: string, t: string, n: nat)
    requires s != "" && Lex(s).1 == n && Lex(s).0 != Error && Resumes(s, t, n)
    ensures t != "" && Lex(t) == Lex(s)
  {
    AtResumes(s, t, n, 0);
    AtResumes(s, t, n, 1);
    if IsAlpha(s[0]) || s[0] == '_' {
      SpanResumes(IsWord, s, t, 1, n);
    } else if IsDigit(s[0]) {
      NumberResumes(s, t, n);
    } else if s[0] == '"' {
      StringResumes(s, t, n);
    } else {
      SymbolResumes(s, t, n);
    }
  }

  lemma StringResumes(s: string, t: string, n: nat)
    requires s != "" && t != "" && s[0] == '"' && t[0] == '"' && LexString(s) == (String, n) && Resumes(s, t, n)
    ensures LexString(t) == (String, n)
  {
    SpanInside(InString, s, t, 1, n);
  }

  lemma SymbolResumes(s: string, t: string, n: nat)
    requires s != "" && t != "" && s[0] == t[0] && LexSymbol(s).1 == n && LexSymbol(s).0 != Error && Resumes(s, t, n)
    ensures LexSymbol(t) == LexSymbol(s)
  {
    AtResumes(s, t, n, 1);
  }

  function Join(words: seq<string>): string {
    if words == [] then "" else if |words| == 1 then words[0] else words[0] + " " + Join(words[1..])
  }

  /** A word that is a lexeme of a kind by itself. */
  predicate IsLexeme(w: string, kind: Kind) {
    w != "" && kind != Error && Lex(w) == (kind, |w|) && !IsBlank(w[0])
  }

  /** No blank and no comment is at the front of a lexeme, whatever follows the space. */
  lemma NoSkip(w: string, kind: Kind, t: string)
    requires IsLexeme(w, kind) && Resumes(w, t, |w|)
    ensures Skip(t) == (0, false)
  {
    AtResumes(w, t, |w|, 0);
    AtResumes(w, t, |w|, 1);
    if w[0] == '/' {
      assert |w| == 1;
    }
  }

  lemma BlankFirst(s: string, at: nat, line: nat)
    ensures Tokens(" " + s, at, line) == Tokens(s, at + 1, line)
  {
    hide Tokens, Skip, Lex, Newlines;
    var t := " " + s;
    var n := Skip(s).0;
    SkipBlank(s);
    TokensStep(s, at + 1, line);
    TokensStep(t, at, line);
    assert t[..1 + n] == " " + s[..n];
    NewlinesAdd(" ", s[..n]);
    NoNewline();
    assert t[1 + n..] == s[n..];
  }

  lemma SkipBlank(s: string)
    ensures Skip(" " + s) == Further(1, Skip(s))
  {
    assert (" " + s)[1..] == s;
  }

  lemma NoNewline()
    ensures Newlines(" ") == 0
  {
  }

  /** Lexemes joined by spaces are scanned as exactly those lexemes. */
  lemma {:induction false} JoinedAgain(kinds: seq<Kind>, words: seq<string>, at: nat, line: nat)
    requires |kinds| == |words| && forall i :: 0 <= i < |words| ==> IsLexeme(words[i], kinds[i])
    ensures ScannedAs(Tokens(Join(words), at, line), kinds, words)
    decreases |words|
  {
    hide Skip, Lex, Tokens, Newlines;
    if words == [] {
      SkipNothing(at, line);
    } else {
      var w, t := words[0], Join(words);
      var rest := if |words| == 1 then "" else " " + Join(words[1..]);
      assert t == w + rest;
      FirstAgain(w, kinds[0], rest, at, line);
      var at', line' := at + |w|, line + Newlines(w);
      JoinedAgain(kinds[1..], words[1..], if |words| == 1 then at' else at' + 1, line');
      if |words| > 1 {
        BlankFirst(Join(words[1..]), at', line');
      }
    }
  }

  ghost predicate ScannedAs(ts: seq<Token>, kinds: seq<Kind>, words: seq<string>) {
    && |ts| == |words| + 1 == |kinds| + 1 && ts[|words|].kind == Eof
    && forall i :: 0 <= i < |words| ==> ts[i].kind == kinds[i] && ts[i].text == words[i]
  }

  lemma SkipNothing(at: nat, line: nat)
    ensures Tokens("", at, line) == [Token(Eof, "", at, line)]
  {
  }

  lemma {:induction false} FirstAgain(w: string, kind: Kind, rest: string, at: nat, line: nat)
    requires IsLexeme(w, kind) && (rest != "" ==> rest[0] == ' ')
    ensures Tokens(w + rest, at, line) == [Token(kind, w, at, line)] + Tokens(rest, at + |w|, line + Newlines(w))
  {
    hide Tokens, Skip, Lex, Newlines;
    var t := w + rest;
    assert Resumes(w, t, |w|);
    NoSkip(w, kind, t);
    LexResumes(w, t, |w|);
    TokensStep(t, at, line);
    NoNewlines();
    assert t[0..] == t && t[..|w|] == w && t[|w|..] == rest && t[..0] == "";
  }

  lemma NoNewlines()
    ensures Newlines("") == 0
  {
  }

  function Texts(ts: seq<Token>): (words: seq<string>)
    ensures |words| == |ts| && forall i :: 0 <= i < |ts| ==> words[i] == ts[i].text
  {
    seq(|ts|, i requires 0 <= i < |ts| => ts[i].text)
  }

  function Kinds(ts: seq<Token>): (kinds: seq<Kind>)
    ensures |kinds| == |ts| && forall i :: 0 <= i < |ts| ==> kinds[i] == ts[i].kind
  {
    seq(|ts|, i requires 0 <= i < |ts| => ts[i].kind)
  }

  ghost predicate AllLexemes(ts: seq<Token>) {
    forall i :: 0 <= i < |ts| - 1 && ts[i].kind != Error ==> IsLexeme(ts[i].text, ts[i].kind)
  }

  /** Every token before the last is a lexeme by itself. */
  lemma {:induction false} TokensAreLexemes(s: string, at: nat, line: nat)
    ensures AllLexemes(Tokens(s, at, line))
    decreases |s|, 1
  {
    hide Skip, Lex, Tokens, Newlines, IsLexeme, First, Rest;
    var (n, open) := Skip(s);
    TokensStep(s, at, line);
    SkipsGap(s);
    if !open && n < |s| {
      LexemesFrom(s[n..], at + n, line + Newlines(s[..n]));
    }
  }

  lemma {:induction false} LexemesFrom(s: string, at: nat, line: nat)
    requires s != "" && !IsBlank(s[0])
    ensures AllLexemes(First(s, at, line) + Rest(s, at, line))
    decreases |s|, 0
  {
    hide Lex, Tokens, Newlines, IsLexeme, AllLexemes;
    var k := Lex(s).1;
    TokensAreLexemes(s[k..], at + k, line + Newlines(s[..k]));
    FirstIsLexeme(s, at, line);
    LexemesNext(First(s, at, line)[0], Rest(s, at, line));
  }

  lemma LexemesNext(t: Token, rest: seq<Token>)
    requires AllLexemes(rest) && (t.kind != Error ==> IsLexeme(t.text, t.kind))
    ensures AllLexemes([t] + rest)
  {
    hide IsLexeme;
  }

  lemma FirstIsLexeme(s: string, at: nat, line: nat)
    requires s != "" && !IsBlank(s[0])
    ensures var t := First(s, at, line)[0]; t.kind != Error ==> IsLexeme(t.text, t.kind)
  {
    hide Lex;
    var (kind, k) := Lex(s);
    if kind != Error {
      LexResumes(s, s[..k], k);
    }
  }

  /** Scanning the lexemes of a text again, joined by spaces, gives the same kinds and lexemes. */
  lemma ScannedAgain(s: string)
    requires forall t :: t in Tokens(s, 0, 1) ==> t.kind != Error
    ensures var front := Tokens(s, 0, 1)[..|Tokens(s, 0, 1)| - 1];
      ScannedAs(Tokens(Join(Texts(front)), 0, 1), Kinds(front), Texts(front))
  {
    hide Tokens, IsLexeme, Join;
    var ts := Tokens(s, 0, 1);
    var front := ts[..|ts| - 1];
    TokensAreLexemes(s, 0, 1);
    forall i | 0 <= i < |front|
      ensures IsLexeme(Texts(front)[i], Kinds(front)[i])
    {
      assert front[i] == ts[i] && ts[i] in ts;
    }
    JoinedAgain(Kinds(front), Texts(front), 0, 1);
  }
}
