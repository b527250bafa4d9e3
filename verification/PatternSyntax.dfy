/** Lua patterns (lua/lstrlib.c): the lexical side.

    A pattern is a C string, so reading at or past its end yields '\0', and an embedded '\0' ends it.
    `Parse` turns the text from a position on into a list of items; a malformed tail becomes one final
    `Bad` item, because the matcher reports a malformed pattern only when it reaches the bad place. */
module PatternSyntax {
  import opened Wrappers

  const ESC := '%'
  const NUL := '\0'

  /** Reading a C string of known length. */
  function At(t: string, i: nat): char {
    if i < |t| then t[i] else NUL
  }

  // ---------------------------------------------------------------- character classes

  predicate IsLower(c: char) { 'a' <= c <= 'z' }
  predicate IsUpper(c: char) { 'A' <= c <= 'Z' }
  predicate IsAlpha(c: char) { IsLower(c) || IsUpper(c) }
  predicate IsDigit(c: char) { '0' <= c <= '9' }
  predicate IsAlnum(c: char) { IsAlpha(c) || IsDigit(c) }
  predicate IsXDigit(c: char) { IsDigit(c) || 'a' <= c <= 'f' || 'A' <= c <= 'F' }
  predicate IsSpace(c: char) { c == ' ' || 9 as char <= c <= 13 as char }
  predicate IsCntrl(c: char) { c < ' ' || c == 127 as char }
  predicate IsPunct(c: char) { '!' <= c <= '~' && !IsAlnum(c) }

  function ToLower(c: char): char {
    if IsUpper(c) then (c as int + 32) as char else c
  }

  /** The meaning of `%cl`. An upper-case letter complements its class. */
  predicate MatchClass(c: char, cl: char) {
    var lower := ToLower(cl);
    if lower == 'a' then IsAlpha(c) == IsLower(cl)
    else if lower == 'c' then IsCntrl(c) == IsLower(cl)
    else if lower == 'd' then IsDigit(c) == IsLower(cl)
    else if lower == 'l' then IsLower(c) == IsLower(cl)
    else if lower == 'p' then IsPunct(c) == IsLower(cl)
    else if lower == 's' then IsSpace(c) == IsLower(cl)
    else if lower == 'u' then IsUpper(c) == IsLower(cl)
    else if lower == 'w' then IsAlnum(c) == IsLower(cl)
    else if lower == 'x' then IsXDigit(c) == IsLower(cl)
    else if lower == 'z' then (c == NUL) == IsLower(cl)
    else cl == c
  }

  datatype SetItem = Lit(c: char) | Class(cl: char) | Range(lo: char, hi: char) {
    predicate Has(c: char) {
      match this
      case Lit(x) => x == c
      case Class(cl) => MatchClass(c, cl)
      case Range(lo, hi) => lo <= c <= hi
    }
  }

  predicate SomeHas(items: seq<SetItem>, c: char) {
    items != [] && (items[0].Has(c) || SomeHas(items[1..], c))
  }

  lemma {:induction false} SomeHasMeans(items: seq<SetItem>, c: char)
    ensures SomeHas(items, c) <==> exists item :: item in items && item.Has(c)
  {
    if items != [] {
      SomeHasMeans(items[1..], c);
      assert forall item :: item in items <==> item == items[0] || item in items[1..];
    }
  }

  datatype CharClass = Any | One(c: char) | Escaped(cl: char) | Set(complement: bool, items: seq<SetItem>) {
    predicate Has(x: char) {
      match this
      case Any => true
      case One(c) => c == x
      case Escaped(cl) => MatchClass(x, cl)
      case Set(complement, items) => SomeHas(items, x) != complement
    }
  }

  /** The members of a bracketed set, read from `i` up to its closing bracket at `ec`. */
  function SetItems(p: string, i: nat, ec: nat): seq<SetItem>
    decreases ec - i
  {
    if i >= ec then []
    else if At(p, i) == ESC then [Class(At(p, i + 1))] + SetItems(p, i + 2, ec)
    else if At(p, i + 1) == '-' && i + 2 < ec then [Range(At(p, i), At(p, i + 2))] + SetItems(p, i + 3, ec)
    else [Lit(At(p, i))] + SetItems(p, i + 1, ec)
  }

  function SetAt(p: string, i: nat, ec: nat): CharClass {
    if At(p, i + 1) == '^' then Set(true, SetItems(p, i + 2, ec)) else Set(false, SetItems(p, i + 1, ec))
  }

  /** The single-character class that starts at `i` and ends just before `ep`. */
  function ClassAt(p: string, i: nat, ep: nat): CharClass
    requires ep > 0
  {
    if At(p, i) == '.' then Any
    else if At(p, i) == ESC then Escaped(At(p, i + 1))
    else if At(p, i) == '[' then SetAt(p, i, ep - 1)
    else One(At(p, i))
  }

  /** Position after the bracket that closes a set whose next member starts at `i`; the first member
      may itself be a closing bracket. `None`: the set is not closed. */
  function SetEnd(p: string, i: nat): (r: Option<nat>)
    ensures r.Some? ==> i + 1 < r.value <= |p|
    decreases |p| - i
  {
    if At(p, i) == NUL then None
    else
      var next := if At(p, i) == ESC && At(p, i + 1) != NUL then i + 2 else i + 1;
      if At(p, next) == ']' then Some(next + 1) else SetEnd(p, next)
  }

  /** Position after the single-character class that starts at `i`. `None`: malformed. */
  function ClassEnd(p: string, i: nat): (r: Option<nat>)
    requires At(p, i) != NUL
    ensures r.Some? ==> i < r.value <= |p|
  {
    if At(p, i) == ESC then
      if At(p, i + 1) == NUL then None else Some(i + 2)
    else if At(p, i) == '[' then
      SetEnd(p, if At(p, i + 1) == '^' then i + 2 else i + 1)
    else Some(i + 1)
  }

  // ---------------------------------------------------------------- pattern items

  datatype Repeat = Once | Optional | Greedy | GreedyPlus | Lazy

  datatype Item =
    | OpenCapture
    | PositionCapture
    | CloseCapture
    | Balance(open: char, close: char)
    | Frontier(cls: CharClass)
    | BackRef(index: int)
    | EndAnchor
    | Rep(cls: CharClass, rep: Repeat)
    | Bad

  function RepeatAt(p: string, ep: nat): Repeat {
    match At(p, ep)
    case '?' => Optional
    case '*' => Greedy
    case '+' => GreedyPlus
    case '-' => Lazy
    case _ => Once
  }

  /** Where the item after a single-character class that ends at `ep` starts. */
  function AfterRepeat(p: string, ep: nat): nat {
    if RepeatAt(p, ep) == Once then ep else ep + 1
  }

  function Parse(p: string, i: nat): seq<Item>
    requires i <= |p|
    decreases |p| - i
  {
    var c := At(p, i);
    if c == NUL then []
    else if c == '(' then
      if At(p, i + 1) == ')' then [PositionCapture] + Parse(p, i + 2) else [OpenCapture] + Parse(p, i + 1)
    else if c == ')' then [CloseCapture] + Parse(p, i + 1)
    else if c == ESC && At(p, i + 1) == 'b' then
      if At(p, i + 2) == NUL || At(p, i + 3) == NUL then [Bad]
      else [Balance(At(p, i + 2), At(p, i + 3))] + Parse(p, i + 4)
    else if c == ESC && At(p, i + 1) == 'f' then
      if At(p, i + 2) != '[' || ClassEnd(p, i + 2).None? then [Bad]
      else
        var ep := ClassEnd(p, i + 2).value;
        [Frontier(SetAt(p, i + 2, ep - 1))] + Parse(p, ep)
    else if c == ESC && IsDigit(At(p, i + 1)) then [BackRef(At(p, i + 1) as int - '1' as int)] + Parse(p, i + 2)
    else if c == '$' && At(p, i + 1) == NUL then [EndAnchor]
    else ParseRep(p, i)
  }

  function ParseRep(p: string, i: nat): seq<Item>
    requires i <= |p| && At(p, i) != NUL
    decreases |p| - i, 0
  {
    match ClassEnd(p, i)
    case None => [Bad]
    case Some(ep) => [Rep(ClassAt(p, i, ep), RepeatAt(p, ep))] + Parse(p, AfterRepeat(p, ep))
  }
}
