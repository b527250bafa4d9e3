/** The classes of characters that `%` and a letter stand for (lua/lstrlib.c:226-242; section 5.4.1 of the Lua 5.1
    Reference Manual), listed. */
module PatternClasses {
  import opened PatternSyntax

  const DIGITS := "0123456789"
  const LOWER := "abcdefghijklmnopqrstuvwxyz"
  const UPPER := "ABCDEFGHIJKLMNOPQRSTUVWXYZ"
  const SPACES := [' ', 9 as char, 10 as char, 11 as char, 12 as char, 13 as char]

  /** The characters that a letter after `%` stands for. */
  predicate InClass(letter: char, c: char) {
    match letter
    case 'a' => c in LOWER || c in UPPER
    case 'c' => c as int < 32 || c as int == 127
    case 'd' => c in DIGITS
    case 'l' => c in LOWER
    case 'p' => c in "!\"#$%&'()*+,-./" || c in ":;<=>?@" || c in "[\\]^_`" || c in "{|}~"
    case 's' => c in SPACES
    case 'u' => c in UPPER
    case 'w' => c in LOWER || c in UPPER || c in DIGITS
    case 'x' => c in DIGITS || c in "abcdef" || c in "ABCDEF"
    case _ => c == NUL
  }

  lemma DigitsAre(c: char)
    ensures c in DIGITS <==> '0' <= c <= '9'
  {
    if '0' <= c <= '9' { assert DIGITS[c as int - '0' as int] == c; }
  }

  lemma LowerAre(c: char)
    ensures c in LOWER <==> 'a' <= c <= 'z'
  {
    if 'a' <= c <= 'z' { assert LOWER[c as int - 'a' as int] == c; }
  }

  lemma UpperAre(c: char)
    ensures c in UPPER <==> 'A' <= c <= 'Z'
  {
    if 'A' <= c <= 'Z' { assert UPPER[c as int - 'A' as int] == c; }
  }

  lemma PunctuationIs(c: char)
    ensures c in "!\"#$%&'()*+,-./" <==> '!' <= c <= '/'
    ensures c in ":;<=>?@" <==> ':' <= c <= '@'
    ensures c in "[\\]^_`" <==> '[' <= c <= '`'
    ensures c in "{|}~" <==> '{' <= c <= '~'
  {
    var n := c as int;
    if 33 <= n <= 47 { assert "!\"#$%&'()*+,-./"[n - 33] == c; }
    if 58 <= n <= 64 { assert ":;<=>?@"[n - 58] == c; }
    if 91 <= n <= 96 { assert "[\\]^_`"[n - 91] == c; }
    if 123 <= n <= 126 { assert "{|}~"[n - 123] == c; }
  }

  lemma HexAre(c: char)
    ensures c in "abcdef" <==> 'a' <= c <= 'f'
    ensures c in "ABCDEF" <==> 'A' <= c <= 'F'
  {
    if 'a' <= c <= 'f' { assert "abcdef"[c as int - 'a' as int] == c; }
    if 'A' <= c <= 'F' { assert "ABCDEF"[c as int - 'A' as int] == c; }
  }

  lemma SpacesAre(c: char)
    ensures c in SPACES <==> IsSpace(c)
  {
    var n := c as int;
    if 9 <= n <= 13 { assert SPACES[n - 8] == c; }
    if n == 32 { assert SPACES[0] == c; }
  }

  const LETTERS := "acdlpsuwxz"
  const CAPITALS := "ACDLPSUWXZ"

  lemma LettersAre(cl: char)
    ensures cl in LETTERS <==> cl in ['a', 'c', 'd', 'l', 'p', 's', 'u', 'w', 'x', 'z']
    ensures cl in CAPITALS <==> cl in ['A', 'C', 'D', 'L', 'P', 'S', 'U', 'W', 'X', 'Z']
  {
  }

  /** The same by ranges. */
  lemma InClassIs(letter: char, c: char)
    ensures match letter
            case 'a' => InClass(letter, c) == IsAlpha(c)
            case 'c' => InClass(letter, c) == IsCntrl(c)
            case 'd' => InClass(letter, c) == IsDigit(c)
            case 'l' => InClass(letter, c) == IsLower(c)
            case 'p' => InClass(letter, c) == IsPunct(c)
            case 's' => InClass(letter, c) == IsSpace(c)
            case 'u' => InClass(letter, c) == IsUpper(c)
            case 'w' => InClass(letter, c) == IsAlnum(c)
            case 'x' => InClass(letter, c) == IsXDigit(c)
            case _ => InClass(letter, c) == (c == NUL)
  {
    DigitsAre(c);
    LowerAre(c);
    UpperAre(c);
    HexAre(c);
    PunctuationIs(c);
    SpacesAre(c);
  }

  /** A lower-case letter of the ten stands for its class, an upper-case letter for all other characters, and anything
      else for itself. */
  lemma ClassesMean(c: char, cl: char)
    ensures MatchClass(c, cl) <==>
            if cl in LETTERS then InClass(cl, c)
            else if cl in CAPITALS then !InClass(ToLower(cl), c)
            else c == cl
  {
    hide InClass, IsPunct, IsSpace, IsXDigit, IsCntrl;
    LettersAre(cl);
    InClassIs(ToLower(cl), c);
  }
}
