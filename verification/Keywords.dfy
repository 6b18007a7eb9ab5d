/** How the scanner tells keywords from identifiers. */
module Keywords {
  import opened Lexing

  /** A word that can only go on as one keyword. */
  function CheckKeyword(w: string, offset: nat, rest: string, kind: Kind): Kind {
    if |w| == offset + |rest| && w[offset..] == rest then kind else Identifier
  }

  /** The decision letter by letter. */
  function IdentifierType(w: string): Kind
    requires w != ""
  {
    match w[0]
    case 'a' => CheckKeyword(w, 1, "nd", And)
    case 'b' => CheckKeyword(w, 1, "reak", Break)
    case 'c' =>
      if |w| == 1 then Identifier
      else (match w[1]
            case 'o' => CheckKeyword(w, 2, "ntinue", Continue)
            case 'l' => CheckKeyword(w, 2, "ass", Class)
            case _ => Identifier)
    case 'e' => CheckKeyword(w, 1, "lse", Else)
    case 'f' =>
      if |w| == 1 then Identifier
      else (match w[1]
            case 'a' => CheckKeyword(w, 2, "lse", False)
            case 'o' => CheckKeyword(w, 2, "r", For)
            case 'u' => CheckKeyword(w, 2, "nc", Func)
            case _ => Identifier)
    case 'i' => CheckKeyword(w, 1, "f", If)
    case 'n' => CheckKeyword(w, 1, "il", Nil)
    case 'o' => CheckKeyword(w, 1, "r", Or)
    case 'p' => CheckKeyword(w, 1, "rint", Print)
    case 'r' => CheckKeyword(w, 1, "eturn", Return)
    case 's' => CheckKeyword(w, 1, "uper", Super)
    case 't' =>
      if |w| == 1 then Identifier
      else (match w[1]
            case 'h' => CheckKeyword(w, 2, "is", This)
            case 'r' => CheckKeyword(w, 2, "ue", True)
            case _ => Identifier)
    case 'v' => CheckKeyword(w, 1, "ar", Var)
    case 'w' => CheckKeyword(w, 1, "hile", While)
    case _ => Identifier
  }

  lemma Spelled(w: string, first: string, rest: string, keyword: string, kind: Kind)
    requires first + rest == keyword && kind != Identifier
    requires |first| <= |w| && forall i :: 0 <= i < |first| ==> w[i] == first[i]
    ensures CheckKeyword(w, |first|, rest, kind) == if Spells(w, keyword) then kind else Identifier
  {
    assert w[..|first|] == first;
    assert w == w[..|first|] + w[|first|..];
  }

  lemma FirstLetters(w: string)
    requires w != ""
    ensures Spells(w, "and") ==> w[0] == 'a'
    ensures Spells(w, "break") ==> w[0] == 'b'
    ensures Spells(w, "continue") ==> w[0] == 'c'
    ensures Spells(w, "class") ==> w[0] == 'c'
    ensures Spells(w, "else") ==> w[0] == 'e'
    ensures Spells(w, "false") ==> w[0] == 'f'
    ensures Spells(w, "for") ==> w[0] == 'f'
    ensures Spells(w, "func") ==> w[0] == 'f'
    ensures Spells(w, "if") ==> w[0] == 'i'
    ensures Spells(w, "nil") ==> w[0] == 'n'
    ensures Spells(w, "or") ==> w[0] == 'o'
    ensures Spells(w, "print") ==> w[0] == 'p'
    ensures Spells(w, "return") ==> w[0] == 'r'
    ensures Spells(w, "super") ==> w[0] == 's'
    ensures Spells(w, "this") ==> w[0] == 't'
    ensures Spells(w, "true") ==> w[0] == 't'
    ensures Spells(w, "var") ==> w[0] == 'v'
    ensures Spells(w, "while") ==> w[0] == 'w'
  {
  }

  lemma SecondLetters(w: string)
    ensures Spells(w, "continue") ==> |w| > 1 && w[1] == 'o'
    ensures Spells(w, "class") ==> |w| > 1 && w[1] == 'l'
    ensures Spells(w, "false") ==> |w| > 1 && w[1] == 'a'
    ensures Spells(w, "for") ==> |w| > 1 && w[1] == 'o'
    ensures Spells(w, "func") ==> |w| > 1 && w[1] == 'u'
    ensures Spells(w, "this") ==> |w| > 1 && w[1] == 'h'
    ensures Spells(w, "true") ==> |w| > 1 && w[1] == 'r'
  {
  }

  lemma WordsAToI(w: string)
    requires w != "" && w[0] in {'a', 'b', 'e', 'i'}
    ensures IdentifierType(w) == WordKind(w)
  {
    hide CheckKeyword, Spells;
    FirstLetters(w);
    match w[0]
    case 'a' => Spelled(w, "a", "nd", "and", And);
    case 'b' => Spelled(w, "b", "reak", "break", Break);
    case 'e' => Spelled(w, "e", "lse", "else", Else);
    case 'i' => Spelled(w, "i", "f", "if", If);
  }

  lemma WordsNToS(w: string)
    requires w != "" && w[0] in {'n', 'o', 'p', 'r'}
    ensures IdentifierType(w) == WordKind(w)
  {
    hide CheckKeyword, Spells;
    FirstLetters(w);
    match w[0]
    case 'n' => Spelled(w, "n", "il", "nil", Nil);
    case 'o' => Spelled(w, "o", "r", "or", Or);
    case 'p' => Spelled(w, "p", "rint", "print", Print);
    case 'r' => Spelled(w, "r", "eturn", "return", Return);
  }

  lemma WordsSToW(w: string)
    requires w != "" && w[0] in {'s', 'v', 'w'}
    ensures IdentifierType(w) == WordKind(w)
  {
    hide CheckKeyword, Spells;
    FirstLetters(w);
    match w[0]
    case 's' => Spelled(w, "s", "uper", "super", Super);
    case 'v' => Spelled(w, "v", "ar", "var", Var);
    case 'w' => Spelled(w, "w", "hile", "while", While);
  }

  lemma WordsInC(w: string)
    requires w != "" && w[0] in {'c'}
    ensures IdentifierType(w) == WordKind(w)
  {
    hide CheckKeyword, Spells;
    FirstLetters(w);
    SecondLetters(w);
    if |w| > 1 {
      match w[1]
      case 'o' => Spelled(w, "co", "ntinue", "continue", Continue);
      case 'l' => Spelled(w, "cl", "ass", "class", Class);
      case _ =>
    }
  }

  lemma WordsInF(w: string)
    requires w != "" && w[0] in {'f'}
    ensures IdentifierType(w) == WordKind(w)
  {
    hide CheckKeyword, Spells;
    FirstLetters(w);
    SecondLetters(w);
    if |w| > 1 {
      match w[1]
      case 'a' => Spelled(w, "fa", "lse", "false", False);
      case 'o' => Spelled(w, "fo", "r", "for", For);
      case 'u' => Spelled(w, "fu", "nc", "func", Func);
      case _ =>
    }
  }

  lemma WordsInT(w: string)
    requires w != "" && w[0] in {'t'}
    ensures IdentifierType(w) == WordKind(w)
  {
    hide CheckKeyword, Spells;
    FirstLetters(w);
    SecondLetters(w);
    if |w| > 1 {
      match w[1]
      case 'h' => Spelled(w, "th", "is", "this", This);
      case 'r' => Spelled(w, "tr", "ue", "true", True);
      case _ =>
    }
  }

  /** Deciding letter by letter finds exactly the words of the table. */
  lemma KeywordTable(w: string)
    requires w != ""
    ensures IdentifierType(w) == WordKind(w)
    ensures WordKind(w) != Error
  {
    hide CheckKeyword, Spells, WordKind, IdentifierType;
    NoErrorWord(w);
    match w[0]
    case 'a' | 'b' | 'e' | 'i' => WordsAToI(w);
    case 'n' | 'o' | 'p' | 'r' => WordsNToS(w);
    case 's' | 'v' | 'w' => WordsSToW(w);
    case 'c' => WordsInC(w);
    case 'f' => WordsInF(w);
    case 't' => WordsInT(w);
    case _ => NoKeyword(w);
  }

  lemma NoKeyword(w: string)
    requires w != "" && w[0] !in "abcefinoprstvw"
    ensures IdentifierType(w) == WordKind(w)
  {
    hide CheckKeyword, Spells;
    FirstLetters(w);
  }

  lemma NoErrorWord(w: string)
    ensures WordKind(w) != Error
  {
    hide Spells;
  }
}
