/** Writing a string with `%q` (lua/lstrlib.c:696-723) and reading it back (lua/llex.c:127-135, 276-329): the lexer
    gives the string again and stops right after it. Characters are bytes. */
module Quoting {
  import opened Wrappers

  // ---------------------------------------------------------------- writing

  function QuoteChar(c: char): (r: string)
    ensures r != "" && r[0] != '\n' && r[0] != '\r' && r[0] != '"'
  {
    if c == '"' || c == '\\' || c == '\n' then ['\\', c]
    else if c == '\r' then "\\r"
    else if c == '\0' then "\\000"
    else [c]
  }

  function Body(s: string): string { if s == "" then "" else Body(s[..|s| - 1]) + QuoteChar(s[|s| - 1]) }

  function Quoted(s: string): string { "\"" + Body(s) + "\"" }

  /** `addquoted` */
  method AddQuoted(b: string, s: string) returns (r: string)
    ensures r == b + Quoted(s)
  {
    r := b + ['"'];
    for i := 0 to |s|
      invariant r == b + ['"'] + Body(s[..i])
    {
      assert s[..i + 1][..i] == s[..i];
      if s[i] == '"' || s[i] == '\\' || s[i] == '\n' {
        r := r + ['\\', s[i]];
      } else if s[i] == '\r' {
        r := r + "\\r";
      } else if s[i] == '\0' {
        r := r + "\\000";
      } else {
        r := r + [s[i]];
      }
    }
    assert s[..|s|] == s;
    r := r + ['"'];
  }

  // ---------------------------------------------------------------- reading

  predicate IsNewline(t: string) { t != "" && (t[0] == '\n' || t[0] == '\r') }

  predicate IsDigit(t: string) { t != "" && '0' <= t[0] <= '9' }

  /** The input after a newline; a pair of different newline characters is one newline. */
  function AfterNewline(t: string): string
    requires IsNewline(t)
  {
    if IsNewline(t[1..]) && t[1] != t[0] then t[2..] else t[1..]
  }

  /** The number of digits of a numeric escape. */
  function DigitCount(t: string): (n: nat)
    ensures n <= 3 && n <= |t|
  {
    if !IsDigit(t) then 0 else if !IsDigit(t[1..]) then 1 else if !IsDigit(t[2..]) then 2 else 3
  }

  function Decimal(t: string): nat
    requires forall i :: 0 <= i < |t| ==> '0' <= t[i] <= '9'
  {
    if t == "" then 0 else 10 * Decimal(t[..|t| - 1]) + (t[|t| - 1] - '0') as nat
  }

  /** What stands after a backslash. */
  datatype Escape = Char(c: char, rest: string) | Newline(rest: string) | AtEnd | TooLarge

  function EscapeOf(t: string): Escape {
    if t == "" then AtEnd
    else if IsNewline(t) then Newline(AfterNewline(t))
    else if IsDigit(t) then
      var n := DigitCount(t);
      var c := Decimal(t[..n]);
      if c > 255 then TooLarge else Char(c as char, t[n..])
    else Char(Control(t[0]), t[1..])
  }

  function Control(c: char): char {
    match c
    case 'a' => 7 as char
    case 'b' => 8 as char
    case 'f' => 12 as char
    case 'n' => '\n'
    case 'r' => '\r'
    case 't' => '\t'
    case 'v' => 11 as char
    case _ => c
  }

  datatype Error = Unfinished | EscapeTooLarge | TooManyLines

  datatype ReadResult = Read(s: string, rest: string, line: nat) | Failed(e: Error)

  /** Reads up to the delimiter, after `buf` has been read. */
  function ReadFrom(t: string, del: char, buf: string, line: nat): ReadResult
    decreases |t|
  {
    if t == "" then Failed(Unfinished)
    else if t[0] == del then Read(buf, t[1..], line)
    else if IsNewline(t) then Failed(Unfinished)
    else if t[0] == '\\' then
      match EscapeOf(t[1..])
      case AtEnd => Failed(Unfinished)
      case TooLarge => Failed(EscapeTooLarge)
      case Newline(rest) => if line + 1 >= MAX_INT then Failed(TooManyLines)
        else ReadFrom(rest, del, buf + ['\n'], line + 1)
      case Char(c, rest) => ReadFrom(rest, del, buf + [c], line)
    else ReadFrom(t[1..], del, buf + [t[0]], line)
  }

  /** The fields of `LexState`. The current character is the first of `input`; `input` is empty at the end. */
  class LexState {
    var input: string
    var buff: string
    var linenumber: nat

    constructor (input: string)
      ensures this.input == input && buff == "" && linenumber == 1
    {
      this.input, buff, linenumber := input, "", 1;
    }

    method Next()
      requires input != ""
      modifies this`input
      ensures input == old(input)[1..]
    {
      input := input[1..];
    }

    method SaveAndNext()
      requires input != ""
      modifies this`input, this`buff
      ensures input == old(input)[1..] && buff == old(buff) + [old(input)[0]]
    {
      buff := buff + [input[0]];
      Next();
    }

    /** `inclinenumber` */
    method IncLineNumber() returns (failed: bool)
      requires IsNewline(input)
      modifies this`input, this`linenumber
      ensures input == AfterNewline(old(input)) && linenumber == old(linenumber) + 1
              && failed == (linenumber >= MAX_INT)
    {
      var was := input[0];
      Next();
      if IsNewline(input) && input[0] != was { Next(); }
      linenumber := linenumber + 1;
      failed := linenumber >= MAX_INT;
    }

    /** The value of up to three digits. */
    method ReadDecimal() returns (c: nat)
      requires IsDigit(input)
      modifies this`input
      ensures var n := DigitCount(old(input)); c == Decimal(old(input)[..n]) && input == old(input)[n..]
    {
      ghost var t := input;
      var i := 0;
      c := 0;
      while i < 3 && (i == 0 || IsDigit(input))
        invariant i <= DigitCount(t) && input == t[i..] && c == Decimal(t[..i])
        decreases 3 - i
      {
        assert t[..i + 1][..i] == t[..i];
        c := 10 * c + (input[0] - '0') as nat;
        Next();
        i := i + 1;
      }
    }

    /** What stands after a backslash is read. */
    method ReadEscape() returns (e: Option<Error>)
      requires input != ""
      modifies this
      ensures match EscapeOf(old(input))
              case Newline(rest) => if old(linenumber) + 1 >= MAX_INT then e == Some(TooManyLines)
                else e == None && input == rest && buff == old(buff) + ['\n'] && linenumber == old(linenumber) + 1
              case TooLarge => e == Some(EscapeTooLarge)
              case Char(c, rest) => e == None && input == rest && buff == old(buff) + [c]
                && linenumber == old(linenumber)
              case AtEnd => false
    {
      if IsNewline(input) {
        buff := buff + ['\n'];
        var failed := IncLineNumber();
        return if failed then Some(TooManyLines) else None;
      }
      if IsDigit(input) {
        var c := ReadDecimal();
        if c > 255 { return Some(EscapeTooLarge); }
        buff := buff + [c as char];
        return None;
      }
      buff := buff + [Control(input[0])];
      Next();
      return None;
    }

    /** `read_string`; the buffer begins with the delimiter. */
    method ReadString(del: char) returns (r: ReadResult)
      requires input != "" && input[0] == del && buff == ""
      modifies this
      ensures r == ReadFrom(old(input)[1..], del, "", old(linenumber))
      ensures r.Read? ==> input == r.rest && linenumber == r.line
    {
      ghost var line := linenumber;
      SaveAndNext();
      ghost var t := input;
      assert buff[1..] == "";
      while input != "" && input[0] != del
        invariant |input| <= |t| && |buff| >= 1
        invariant ReadFrom(t, del, "", line) == ReadFrom(input, del, buff[1..], linenumber)
        decreases |input|
      {
        if IsNewline(input) { return Failed(Unfinished); }
        ghost var before, got := input, buff[1..];
        if input[0] == '\\' {
          Next();
          if input == "" { return Failed(Unfinished); }
          var e := ReadEscape();
          if e.Some? { return Failed(e.value); }
        } else {
          SaveAndNext();
        }
        assert buff[1..] == got + [buff[|buff| - 1]];
      }
      if input == "" { return Failed(Unfinished); }
      SaveAndNext();
      assert buff[1..|buff| - 1] == buff[..|buff| - 1][1..];
      return Read(buff[1..|buff| - 1], input, linenumber);
    }
  }

  // ---------------------------------------------------------------- reading what was written

  function Newlines(s: string): nat { if s == "" then 0 else (if s[0] == '\n' then 1 else 0) + Newlines(s[1..]) }

  lemma {:induction false} BodyFront(s: string)
    requires s != ""
    ensures Body(s) == QuoteChar(s[0]) + Body(s[1..])
    decreases |s|
  {
    hide QuoteChar;
    var a, q := s[..|s| - 1], QuoteChar(s[|s| - 1]);
    if |s| > 1 {
      BodyFront(a);
      assert s[1..][..|s| - 2] == a[1..];
      assert QuoteChar(s[0]) + Body(a[1..]) + q == QuoteChar(s[0]) + (Body(a[1..]) + q);
    }
  }

  /** Three digits are read, even if more follow. */
  lemma ZeroBack(t: string)
    ensures EscapeOf("000" + t) == Char('\0', t)
  {
    var d := "000" + t;
    assert d[1..] == "00" + t && d[2..] == "0" + t && d[3..] == t;
    assert Decimal(d[..3]) == 0 by { assert d[..3][..2] == "00" && "00"[..1] == "0" && "0"[..0] == ""; }
  }

  /** One character comes back, whatever follows; what follows does not begin with a newline character. */
  lemma CharBack(c: char, t: string, buf: string, line: nat)
    requires t != "" && !IsNewline(t)
    ensures ReadFrom(QuoteChar(c) + t, '"', buf, line) ==
            if c == '\n'
              then (if line + 1 >= MAX_INT then Failed(TooManyLines) else ReadFrom(t, '"', buf + [c], line + 1))
            else ReadFrom(t, '"', buf + [c], line)
  {
    var q := QuoteChar(c) + t;
    if c == '\0' {
      assert q[1..] == "000" + t;
      ZeroBack(t);
    } else if |QuoteChar(c)| == 2 {
      assert q[1..] == [q[1]] + t && q[1..][1..] == t;
    } else {
      assert q[1..] == t;
    }
  }

  function Tail(rest: string): string { "\"" + rest }

  /** What follows a character does not begin with a newline character. */
  lemma BodyPlain(s: string, rest: string)
    ensures var t := Body(s) + Tail(rest); t != "" && !IsNewline(t)
  {
    if s == "" {
      assert Body(s) + Tail(rest) == Tail(rest);
    } else {
      BodyFront(s);
      var q, b := QuoteChar(s[0]), Body(s);
      assert b[0] == q[0];
      hide Body, QuoteChar, Tail;
      assert (b + Tail(rest))[0] == q[0];
    }
  }

  lemma BodyThen(s: string, rest: string)
    requires s != ""
    ensures Body(s) + Tail(rest) == QuoteChar(s[0]) + (Body(s[1..]) + Tail(rest))
  {
    hide Body, QuoteChar, Tail;
    BodyFront(s);
    Assoc(QuoteChar(s[0]), Body(s[1..]), Tail(rest));
  }

  lemma NothingLeft(rest: string, buf: string, line: nat)
    ensures ReadFrom(Body("") + Tail(rest), '"', buf, line) == Read(buf, rest, line)
  {
    assert Body("") + Tail(rest) == Tail(rest) && Tail(rest)[1..] == rest;
  }

  lemma {:induction false} BodyBack(s: string, rest: string, buf: string, line: nat)
    requires line < MAX_INT
    ensures ReadFrom(Body(s) + Tail(rest), '"', buf, line) ==
            if line + Newlines(s) < MAX_INT then Read(buf + s, rest, line + Newlines(s)) else Failed(TooManyLines)
    decreases |s|
  {
    hide Body, QuoteChar, ReadFrom, Tail;
    if s == "" {
      NothingLeft(rest, buf, line);
      assert buf + s == buf;
    } else {
      BodyThen(s, rest);
      BodyPlain(s[1..], rest);
      CharBack(s[0], Body(s[1..]) + Tail(rest), buf, line);
      OneMore(buf, s);
      if s[0] != '\n' { BodyBack(s[1..], rest, buf + [s[0]], line); }
      else if line + 1 < MAX_INT { BodyBack(s[1..], rest, buf + [s[0]], line + 1); }
    }
  }

  lemma OneMore(buf: string, s: string)
    requires s != ""
    ensures (buf + [s[0]]) + s[1..] == buf + s
  {
  }

  /** A quoted string is read back as it was, and nothing after it is touched; only the count of lines can stop it. */
  lemma QuotedBack(s: string, rest: string, line: nat)
    requires line < MAX_INT
    ensures ReadFrom((Quoted(s) + rest)[1..], '"', "", line) ==
            if line + Newlines(s) < MAX_INT then Read(s, rest, line + Newlines(s)) else Failed(TooManyLines)
  {
    hide Body, ReadFrom, Newlines;
    var b := Body(s);
    assert (Quoted(s) + rest)[1..] == b + Tail(rest);
    BodyBack(s, rest, "", line);
    assert "" + s == s;
  }

  /** The same for the methods: the lexer is given what `addquoted` has written. */
  method WriteAndRead(s: string, rest: string) returns (r: ReadResult)
    ensures r == if 1 + Newlines(s) < MAX_INT then Read(s, rest, 1 + Newlines(s)) else Failed(TooManyLines)
  {
    var b := AddQuoted("", s);
    assert b == Quoted(s);
    var ls := new LexState(b + rest);
    r := ls.ReadString('"');
    QuotedBack(s, rest, 1);
  }
}
