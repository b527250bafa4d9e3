/** Every way of writing a string between quotes (section 2.1 of the Lua 5.1 Reference Manual) and what it is read as
    (lua/llex.c:127-135, 276-329). */
module QuotingForms {
  import opened Wrappers
  import opened Quoting

  /** A character as it is, a backslash with a letter or another character, a backslash with a newline, or a backslash
      with up to three digits. */
  datatype Piece = Plain(c: char) | Escaped(c: char) | Line(newline: string) | Digits(d: string)

  function PieceText(p: Piece): string {
    match p
    case Plain(c) => [c]
    case Escaped(c) => ['\\', c]
    case Line(newline) => ['\\'] + newline
    case Digits(d) => ['\\'] + d
  }

  function Text(ps: seq<Piece>): string { if ps == [] then "" else PieceText(ps[0]) + Text(ps[1..]) }

  predicate AreDigits(d: string) { forall i :: 0 <= i < |d| ==> '0' <= d[i] <= '9' }

  function DigitAt(d: string, i: nat): nat
    requires i < |d| && AreDigits(d)
  {
    d[i] as int - 48
  }

  function ValueOf(d: string): nat
    requires AreDigits(d) && 1 <= |d| <= 3
  {
    if |d| == 1 then DigitAt(d, 0)
    else if |d| == 2 then 10 * DigitAt(d, 0) + DigitAt(d, 1)
    else 100 * DigitAt(d, 0) + 10 * DigitAt(d, 1) + DigitAt(d, 2)
  }

  predicate IsEnd(c: char) { c == '\n' || c == '\r' }

  /** The four newlines. */
  predicate LineOk(newline: string) {
    1 <= |newline| <= 2 && IsEnd(newline[0]) && (|newline| == 2 ==> IsEnd(newline[1]) && newline[1] != newline[0])
  }

  predicate PieceOk(p: Piece, del: char) {
    match p
    case Plain(c) => c != del && c != '\\' && !IsEnd(c)
    case Escaped(c) => !IsEnd(c) && !('0' <= c <= '9')
    case Line(newline) => LineOk(newline)
    case Digits(d) => AreDigits(d) && 1 <= |d| <= 3
  }

  /** The character that follows does not become part of the piece. */
  predicate Joins(p: Piece, next: char) {
    match p
    case Line(newline) => |newline| == 1 ==> !(IsEnd(next) && next != newline[0])
    case Digits(d) => |d| < 3 ==> !('0' <= next <= '9')
    case _ => true
  }

  predicate TextOk(ps: seq<Piece>, del: char) {
    ps != [] ==>
      && PieceOk(ps[0], del) && TextOk(ps[1..], del)
      && Joins(ps[0], if Text(ps[1..]) == "" then del else Text(ps[1..])[0])
      && (ps[0].Digits? ==> ValueOf(ps[0].d) <= 255)
  }

  /** The letters stand for the bell, backspace, form feed, newline, carriage return and the two tabs. */
  function LetterOf(c: char): char {
    if c == 'a' then 7 as char
    else if c == 'b' then 8 as char
    else if c == 't' then 9 as char
    else if c == 'n' then 10 as char
    else if c == 'v' then 11 as char
    else if c == 'f' then 12 as char
    else if c == 'r' then 13 as char
    else c
  }

  function Meaning(p: Piece, del: char): char
    requires PieceOk(p, del) && (p.Digits? ==> ValueOf(p.d) <= 255)
  {
    match p
    case Plain(c) => c
    case Escaped(c) => LetterOf(c)
    case Line(_) => 10 as char
    case Digits(d) => ValueOf(d) as char
  }

  function MeaningOf(ps: seq<Piece>, del: char): string
    requires TextOk(ps, del)
  {
    if ps == [] then "" else [Meaning(ps[0], del)] + MeaningOf(ps[1..], del)
  }

  function Lines(ps: seq<Piece>): nat { if ps == [] then 0 else (if ps[0].Line? then 1 else 0) + Lines(ps[1..]) }

  // ---------------------------------------------------------------- reading

  lemma DecimalIs(d: string)
    requires AreDigits(d) && 1 <= |d| <= 3
    ensures Decimal(d) == ValueOf(d)
  {
    var e := d[..|d| - 1];
    assert Decimal(d[..0]) == 0;
    if |d| > 1 {
      assert e[..|e| - 1] == d[..|d| - 2];
      if |d| > 2 { assert d[..1][..0] == "" && e[..1] == d[..1]; }
    }
  }

  lemma DigitsEnd(d: string, t: string)
    requires AreDigits(d) && 1 <= |d| <= 3 && (|d| < 3 ==> !IsDigit(t))
    ensures var u := d + t; IsDigit(u) && DigitCount(u) == |d| && u[..|d|] == d && u[|d|..] == t
  {
    var u := d + t;
    assert u[1..] == d[1..] + t;
    if |d| > 1 { assert u[2..] == d[2..] + t; }
    if |d| > 2 { assert u[3..] == t; }
  }

  lemma EscapeReads(p: Piece, del: char, t: string)
    requires PieceOk(p, del) && !p.Plain? && t != "" && Joins(p, t[0])
    ensures EscapeOf(PieceText(p)[1..] + t) ==
            match p
            case Line(_) => Escape.Newline(t)
            case Digits(d) => if ValueOf(d) > 255 then TooLarge else Char(ValueOf(d) as char, t)
            case _ => Char(LetterOf(p.c), t)
  {
    var u := PieceText(p)[1..] + t;
    match p
    case Escaped(c) => assert u[1..] == t && u[0] == c;
    case Line(newline) =>
      assert u[0] == newline[0] && u[|newline|..] == t;
      if |newline| == 2 { assert u[1] == newline[1]; } else { assert u[1..] == t; }
    case Digits(d) =>
      DigitsEnd(d, t);
      DecimalIs(d);
    case _ =>
  }

  /** One piece is read as one character. */
  lemma PieceReads(p: Piece, del: char, t: string, buf: string, line: nat)
    requires PieceOk(p, del) && del != '\\' && t != "" && Joins(p, t[0]) && (p.Digits? ==> ValueOf(p.d) <= 255)
    ensures ReadFrom(PieceText(p) + t, del, buf, line) ==
            if p.Line? && line + 1 >= MAX_INT then Failed(TooManyLines)
            else ReadFrom(t, del, buf + [Meaning(p, del)], if p.Line? then line + 1 else line)
  {
    var q := PieceText(p) + t;
    hide EscapeOf;
    if p.Plain? {
      assert q[1..] == t;
    } else {
      assert q[1..] == PieceText(p)[1..] + t;
      EscapeReads(p, del, t);
    }
  }

  /** However a string is written, it is read as it is meant, up to its closing quote. */
  lemma {:induction false} FormsRead(ps: seq<Piece>, del: char, rest: string, buf: string, line: nat)
    requires TextOk(ps, del) && del != '\\' && line < MAX_INT
    ensures ReadFrom(Text(ps) + ([del] + rest), del, buf, line) ==
            if line + Lines(ps) < MAX_INT then Read(buf + MeaningOf(ps, del), rest, line + Lines(ps))
            else Failed(TooManyLines)
    decreases |ps|
  {
    var t := [del] + rest;
    if ps == [] {
      assert Text(ps) + t == t && t[1..] == rest && buf + "" == buf;
    } else {
      var p, u := ps[0], Text(ps[1..]) + t;
      assert Text(ps) + t == PieceText(p) + u;
      assert u[0] == if Text(ps[1..]) == "" then del else Text(ps[1..])[0];
      hide ReadFrom, PieceOk, Joins;
      PieceReads(p, del, u, buf, line);
      if !(p.Line? && line + 1 >= MAX_INT) {
        FormsRead(ps[1..], del, rest, buf + [Meaning(p, del)], if p.Line? then line + 1 else line);
        assert buf + [Meaning(p, del)] + MeaningOf(ps[1..], del) == buf + ([Meaning(p, del)] + MeaningOf(ps[1..], del));
      }
    }
  }

  /** A numeric escape beyond a byte is an error. */
  lemma LargeEscape(d: string, t: string, del: char, buf: string, line: nat)
    requires AreDigits(d) && |d| == 3 && ValueOf(d) > 255 && t != "" && del != '\\'
    ensures ReadFrom(['\\'] + d + t, del, buf, line) == Failed(EscapeTooLarge)
  {
    var q := ['\\'] + d + t;
    assert q[1..] == d + t && PieceText(Digits(d))[1..] == d;
    EscapeReads(Digits(d), del, t);
  }
}
