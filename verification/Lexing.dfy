/** What the scanner makes of a source text: blanks and comments between lexemes, and the tokens. */
module Lexing {

  datatype Kind =
    | LeftParen | RightParen | LeftBrace | RightBrace | LeftBracket | RightBracket
    | Comma | Dot | Minus | Plus | Semicolon | Slash | Star | Percent
    | Bang | BangEqual | Equal | EqualEqual
    | Greater | GreaterGreater | GreaterEqual | Less | LessLess | LessEqual
    | Identifier | String | Number
    | And | Caret | Tilde | Class | Else | False | For | Break | Continue | Func | If | Nil | Or
    | Print | Return | Super | This | True | Var | While
    | Error | Eof

  /** An error token carries no text of the source, only the place and line the scanner had come to. */
  datatype Token = Token(kind: Kind, text: string, start: nat, line: nat)

  // ----- character classes -----

  predicate IsDigit(c: char) { '0' <= c <= '9' }

  predicate IsAlpha(c: char) { 'a' <= c <= 'z' || 'A' <= c <= 'Z' }

  predicate IsWord(c: char) { IsAlpha(c) || IsDigit(c) || c == '_' }

  predicate IsBinary(c: char) { c == '0' || c == '1' }

  predicate IsHex(c: char) { IsDigit(c) || 'a' <= c <= 'f' || 'A' <= c <= 'F' }

  predicate IsBlank(c: char) { c == ' ' || c == '\r' || c == '\t' || c == '\n' }

  predicate InLine(c: char) { c != '\n' }

  predicate InString(c: char) { c != '"' }

  /** How many characters at the front are of a class. */
  function Span(p: char -> bool, s: string): (n: nat)
    ensures n <= |s|
    ensures forall i :: 0 <= i < n ==> p(s[i])
    ensures n < |s| ==> !p(s[n])
  {
    if s != "" && p(s[0]) then 1 + Span(p, s[1..]) else 0
  }

  // ----- blanks and comments -----

  /** Where a block comment's closing mark is, or the end of the text; `i` is where the search starts. */
  function BlockEnd(s: string, i: nat): (n: nat)
    requires i <= |s|
    ensures i <= n <= |s|
    ensures n < |s| ==> n + 1 < |s| && s[n] == '*' && s[n + 1] == '/'
    ensures forall j :: i <= j < n && j + 1 < |s| ==> !(s[j] == '*' && s[j + 1] == '/')
    decreases |s| - i
  {
    if i == |s| || (i + 1 < |s| && s[i] == '*' && s[i + 1] == '/') then i else BlockEnd(s, i + 1)
  }

  /** The length of the blanks and comments at the front, and whether they end inside a comment. */
  function Skip(s: string): (r: (nat, bool))
    ensures r.0 <= |s|
    ensures r.1 ==> r.0 == |s|
    decreases |s|
  {
    if s == "" then (0, false)
    else if IsBlank(s[0]) then Further(1, Skip(s[1..]))
    else if s[0] != '/' || |s| == 1 then (0, false)
    else if s[1] == '/' then
      var n := Span(InLine, s);
      assert n > 0 by { assert InLine(s[0]); }
      Further(n, Skip(s[n..]))
    else if s[1] == '*' then
      var n := BlockEnd(s, 0);
      if n == |s| then (n, true) else Further(n + 2, Skip(s[n + 2..]))
    else (0, false)
  }

  function Further(n: nat, r: (nat, bool)): (nat, bool) {
    (n + r.0, r.1)
  }

  function Newlines(s: string): nat {
    if s == "" then 0 else (if s[0] == '\n' then 1 else 0) + Newlines(s[1..])
  }

  // ----- lexemes -----

  /** The words that are not identifiers. */
  function WordKind(w: string): Kind {
    if Spells(w, "and") then And
    else if Spells(w, "break") then Break
    else if Spells(w, "continue") then Continue
    else if Spells(w, "class") then Class
    else if Spells(w, "else") then Else
    else if Spells(w, "false") then False
    else if Spells(w, "for") then For
    else if Spells(w, "func") then Func
    else if Spells(w, "if") then If
    else if Spells(w, "nil") then Nil
    else if Spells(w, "or") then Or
    else if Spells(w, "print") then Print
    else if Spells(w, "return") then Return
    else if Spells(w, "super") then Super
    else if Spells(w, "this") then This
    else if Spells(w, "true") then True
    else if Spells(w, "var") then Var
    else if Spells(w, "while") then While
    else Identifier
  }

  predicate Spells(w: string, keyword: string) {
    w == keyword
  }

  /** The character at a position, zero at the end. */
  function At(s: string, i: nat): char {
    if i < |s| then s[i] else '\0'
  }

  function LexNumber(s: string): (r: (Kind, nat))
    requires s != "" && IsDigit(s[0])
    ensures 0 < r.1 <= |s|
  {
    if s[0] == '0' && (At(s, 1) == 'b' || At(s, 1) == 'B') then
      var n := 2 + Span(IsBinary, s[2..]);
      (if IsDigit(At(s, n)) then Error else Number, n)
    else if s[0] == '0' && (At(s, 1) == 'x' || At(s, 1) == 'X') then
      (Number, 2 + Span(IsHex, s[2..]))
    else
      LexDecimal(s)
  }

  function LexDecimal(s: string): (r: (Kind, nat))
    requires s != ""
    ensures 0 < r.1 <= |s|
  {
    var n := 1 + Span(IsDigit, s[1..]);
    if At(s, n) != '.' then LexExponent(s, n)
      else if IsDigit(At(s, n + 1)) then LexExponent(s, n + 1 + Span(IsDigit, s[n + 1..]))
      else (Error, n + 1)
  }

  function LexExponent(s: string, n: nat): (r: (Kind, nat))
    requires n <= |s|
    ensures n <= r.1 <= |s|
  {
    if At(s, n) != 'e' then (Number, n)
    else
      var k := if At(s, n + 1) == '+' || At(s, n + 1) == '-' then n + 2 else n + 1;
      if IsDigit(At(s, k)) then (Number, k + Span(IsDigit, s[k..])) else (Error, k)
  }

  function LexString(s: string): (r: (Kind, nat))
    requires s != "" && s[0] == '"'
    ensures 0 < r.1 <= |s|
  {
    var n := 1 + Span(InString, s[1..]);
    if n == |s| then (Error, n) else (String, n + 1)
  }

  function LexSymbol(s: string): (r: (Kind, nat))
    requires s != ""
    ensures 0 < r.1 <= |s|
  {
    match s[0]
    case '(' => (LeftParen, 1)
    case ')' => (RightParen, 1)
    case '{' => (LeftBrace, 1)
    case '}' => (RightBrace, 1)
    case '[' => (LeftBracket, 1)
    case ']' => (RightBracket, 1)
    case ';' => (Semicolon, 1)
    case ',' => (Comma, 1)
    case '.' => (Dot, 1)
    case '-' => (Minus, 1)
    case '+' => (Plus, 1)
    case '/' => (Slash, 1)
    case '*' => (Star, 1)
    case '%' => (Percent, 1)
    case '^' => (Caret, 1)
    case '~' => (Tilde, 1)
    case '!' => if At(s, 1) == '=' then (BangEqual, 2) else (Bang, 1)
    case '=' => if At(s, 1) == '=' then (EqualEqual, 2) else (Equal, 1)
    case '<' => if At(s, 1) == '=' then (LessEqual, 2) else if At(s, 1) == '<' then (LessLess, 2) else (Less, 1)
    case '>' => if At(s, 1) == '=' then (GreaterEqual, 2) else if At(s, 1) == '>' then (GreaterGreater,
      2) else (Greater, 1)
    case _ => (Error, 1)
  }

  /** The kind and the length of the lexeme at the front of a text. */
  function Lex(s: string): (r: (Kind, nat))
    requires s != ""
    ensures 0 < r.1 <= |s|
  {
    if IsAlpha(s[0]) || s[0] == '_' then
      var n := 1 + Span(IsWord, s[1..]);
      (WordKind(s[..n]), n)
    else if IsDigit(s[0]) then LexNumber(s)
    else if s[0] == '"' then LexString(s)
    else LexSymbol(s)
  }

  // ----- tokens -----

  /** The tokens of a text that lies at a position and begins on a line.  A comment that is never
      closed leaves nothing but an error. */
  function Tokens(s: string, at: nat, line: nat): (ts: seq<Token>)
    ensures ts != []
    decreases |s|
  {
    var (n, open) := Skip(s);
    var line' := line + Newlines(s[..n]);
    if open then [Token(Error, "", at + n, line')]
    else if n == |s| then [Token(Eof, "", at + n, line')]
    else
      var rest := s[n..];
      var (kind, k) := Lex(rest);
      var after := line' + Newlines(rest[..k]);
      [if kind == Error then Token(Error, "", at + n + k, after) else Token(kind, rest[..k], at + n, line')]
      + Tokens(rest[k..], at + n + k, after)
  }
}
