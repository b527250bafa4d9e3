/** Pattern matching (lua/lstrlib.c): what a match is, independently of how it is searched for.

    `Derives` says which choices of repetition counts make an item list match, or lead to an error, with no search in
    it.
    `Earlier` orders those choices the way section 5.4.1 of the Lua 5.1 Reference Manual does.
    `Search` is the backtracking search; the theorems say that it returns the earliest derivation. */
module PatternSpec {
  import opened Wrappers
  import opened PatternSyntax

  const MAXCAPTURES := 32
  const CAP_UNFINISHED := -1
  const CAP_POSITION := -2

  datatype Capture = Capture(init: nat, len: int) {
    predicate Ok(s: nat) {
      init <= s && (len == CAP_UNFINISHED || len == CAP_POSITION || (0 <= len && init + len <= s))
    }
  }

  predicate CapsOk(caps: seq<Capture>, s: nat) {
    |caps| <= MAXCAPTURES && forall i :: 0 <= i < |caps| ==> caps[i].Ok(s)
  }

  datatype Outcome = Fail | Raise | Match(end: nat, caps: seq<Capture>)

  // ---------------------------------------------------------------- single steps

  predicate HasAt(cls: CharClass, src: string, s: nat) {
    s < |src| && cls.Has(src[s])
  }

  predicate AllHave(cls: CharClass, src: string, s: nat, k: nat) {
    s + k <= |src| && forall i :: s <= i < s + k ==> cls.Has(src[i])
  }

  /** Nesting depth just before `j` when the opening delimiter is at `s`. */
  function Depth(src: string, open: char, close: char, s: nat, j: nat): int
    requires s < j <= |src|
    decreases j
  {
    if j == s + 1 then 1
    else Depth(src, open, close, s, j - 1)
         + (if src[j - 1] == close then -1 else if src[j - 1] == open then 1 else 0)
  }

  /** `src[s..end]` starts with the opening delimiter, and `end` is where the depth first returns to 0. */
  predicate BalancedTo(src: string, open: char, close: char, s: nat, end: nat) {
    && s < end <= |src| && src[s] == open
    && Depth(src, open, close, s, end) == 0
    && forall j :: s < j < end ==> Depth(src, open, close, s, j) != 0
  }

  /** First end of a balanced text, searching from `j` on. */
  function BalanceFrom(src: string, open: char, close: char, s: nat, j: nat): (r: Option<nat>)
    requires s < j <= |src| && src[s] == open
    requires forall i :: s < i < j ==> Depth(src, open, close, s, i) != 0
    ensures r.Some? ==> BalancedTo(src, open, close, s, r.value)
    ensures r.None? ==> forall end :: !BalancedTo(src, open, close, s, end)
    decreases |src| - j
  {
    if Depth(src, open, close, s, j) == 0 then Some(j)
    else if j == |src| then None
    else BalanceFrom(src, open, close, s, j + 1)
  }

  function BalanceEnd(src: string, open: char, close: char, s: nat): (r: Option<nat>)
    ensures r.Some? ==> BalancedTo(src, open, close, s, r.value)
    ensures forall end: nat :: BalancedTo(src, open, close, s, end) ==> r == Some(end)
  {
    if s < |src| && src[s] == open then BalanceFrom(src, open, close, s, s + 1) else None
  }

  /** The frontier test: the previous character is outside the set and the current one inside. */
  predicate AtFrontier(cls: CharClass, src: string, s: nat) {
    !cls.Has(if 0 < s <= |src| then src[s - 1] else NUL) && cls.Has(At(src, s))
  }

  /** The innermost capture that is still open. */
  function LastOpen(caps: seq<Capture>): (r: Option<nat>)
    ensures r.Some? ==> r.value < |caps| && caps[r.value].len == CAP_UNFINISHED
    ensures r.Some? ==> forall i :: r.value < i < |caps| ==> caps[i].len != CAP_UNFINISHED
    ensures r.None? ==> forall i :: 0 <= i < |caps| ==> caps[i].len != CAP_UNFINISHED
  {
    if caps == [] then None
    else if caps[|caps| - 1].len == CAP_UNFINISHED then Some(|caps| - 1)
    else LastOpen(caps[..|caps| - 1])
  }

  predicate ValidRef(caps: seq<Capture>, l: int) {
    0 <= l < |caps| && caps[l].len != CAP_UNFINISHED
  }

  /** The text of capture `l` stands at `s`. A position capture never matches. */
  predicate RefersTo(src: string, caps: seq<Capture>, l: int, s: nat)
    requires s <= |src| && CapsOk(caps, s) && ValidRef(caps, l)
  {
    var c := caps[l];
    c.len != CAP_POSITION && s + c.len <= |src| && src[c.init..c.init + c.len] == src[s..s + c.len]
  }

  function Open(caps: seq<Capture>, s: nat, what: int): seq<Capture> { caps + [Capture(s, what)] }

  function Close(caps: seq<Capture>, l: nat, s: nat): seq<Capture>
    requires l < |caps|
  {
    caps[l := Capture(caps[l].init, s - caps[l].init)]
  }

  // ---------------------------------------------------------------- the declarative relation

  predicate AllowedCount(rep: Repeat, k: nat) {
    match rep
    case Once => k == 1
    case Optional => k <= 1
    case Greedy => true
    case GreedyPlus => k >= 1
    case Lazy => true
  }

  /** The item is an error where the captures are as they are, whatever the subject. */
  predicate Refused(item: Item, caps: seq<Capture>) {
    match item
    case OpenCapture => |caps| >= MAXCAPTURES
    case PositionCapture => |caps| >= MAXCAPTURES
    case CloseCapture => LastOpen(caps).None?
    case BackRef(l) => !ValidRef(caps, l)
    case Bad => true
    case _ => false
  }

  predicate AllZero(ks: seq<nat>) { forall i :: 0 <= i < |ks| ==> ks[i] == 0 }

  /** With `ks[i]` repetitions for item `i` (0 for items that do not repeat), the items match from `s` with captures
      `caps`, ending at `out.end` with `out.caps`; or the items before one that is refused do, and `out` is the
      error. */
  ghost predicate Derives(items: seq<Item>, src: string, s: nat, caps: seq<Capture>, ks: seq<nat>, out: Outcome)
    requires s <= |src| && CapsOk(caps, s)
    decreases |items|
  {
    |ks| == |items| && !out.Fail? &&
    if items == [] then out == Match(s, caps)
    else if Refused(items[0], caps) then out == Raise && AllZero(ks)
    else
      var rest, k, ks' := items[1..], ks[0], ks[1..];
      match items[0]
      case OpenCapture =>
        k == 0 && |caps| < MAXCAPTURES && Derives(rest, src, s, Open(caps, s, CAP_UNFINISHED), ks', out)
      case PositionCapture =>
        k == 0 && |caps| < MAXCAPTURES && Derives(rest, src, s, Open(caps, s, CAP_POSITION), ks', out)
      case CloseCapture =>
        k == 0 && LastOpen(caps).Some? && Derives(rest, src, s, Close(caps, LastOpen(caps).value, s), ks', out)
      case Balance(open, close) =>
        k == 0 && exists end :: BalancedTo(src, open, close, s, end) && Derives(rest, src, end, caps, ks', out)
      case Frontier(cls) =>
        k == 0 && AtFrontier(cls, src, s) && Derives(rest, src, s, caps, ks', out)
      case BackRef(l) =>
        k == 0 && ValidRef(caps, l) && RefersTo(src, caps, l, s) && Derives(rest, src, s + caps[l].len, caps, ks', out)
      case EndAnchor =>
        k == 0 && s == |src| && Derives(rest, src, s, caps, ks', out)
      case Rep(cls, rep) =>
        AllowedCount(rep, k) && AllHave(cls, src, s, k) && Derives(rest, src, s + k, caps, ks', out)
      case Bad => false
  }

  /** `ks` is tried before `ks'`: at the first item where they differ, a lazy repetition prefers the
      smaller count and every other repetition the larger one. */
  ghost predicate Earlier(items: seq<Item>, ks: seq<nat>, ks': seq<nat>)
    requires |ks| == |ks'| == |items|
    decreases |items|
  {
    items != [] &&
    if ks[0] != ks'[0] then
      if items[0].Rep? && items[0].rep == Lazy then ks[0] < ks'[0] else ks[0] > ks'[0]
    else Earlier(items[1..], ks[1..], ks'[1..])
  }

  ghost predicate IsMatch(items: seq<Item>, src: string, s: nat, caps: seq<Capture>, out: Outcome)
    requires s <= |src| && CapsOk(caps, s)
  {
    out.Match? && exists ks :: Derives(items, src, s, caps, ks, out)
  }

  /** `out`, a match or an error, is derived by choices that come before every other choice that derives anything. */
  ghost predicate IsFirstOutcome(items: seq<Item>, src: string, s: nat, caps: seq<Capture>, out: Outcome)
    requires s <= |src| && CapsOk(caps, s)
  {
    exists ks :: Derives(items, src, s, caps, ks, out) && IsFirst(items, src, s, caps, ks)
  }

  ghost predicate IsFirstMatch(items: seq<Item>, src: string, s: nat, caps: seq<Capture>, out: Outcome)
    requires s <= |src| && CapsOk(caps, s)
  {
    out.Match? && IsFirstOutcome(items, src, s, caps, out)
  }

  /** Nothing is derived, neither a match nor an error. */
  ghost predicate NoDerivation(items: seq<Item>, src: string, s: nat, caps: seq<Capture>)
    requires s <= |src| && CapsOk(caps, s)
  {
    forall ks, out :: !Derives(items, src, s, caps, ks, out)
  }

  ghost predicate IsFirst(items: seq<Item>, src: string, s: nat, caps: seq<Capture>, ks: seq<nat>)
    requires s <= |src| && CapsOk(caps, s) && |ks| == |items|
  {
    forall ks', out' :: Derives(items, src, s, caps, ks', out') ==> ks' == ks || Earlier(items, ks, ks')
  }

  // ---------------------------------------------------------------- the backtracking search

  /** How many characters from `s` on are in the class. */
  function Run(cls: CharClass, src: string, s: nat): (k: nat)
    requires s <= |src|
    ensures AllHave(cls, src, s, k)
    ensures s + k < |src| ==> !cls.Has(src[s + k])
    ensures forall i: nat :: AllHave(cls, src, s, i) ==> i <= k
    decreases |src| - s
  {
    if HasAt(cls, src, s) then 1 + Run(cls, src, s + 1) else 0
  }

  function Search(items: seq<Item>, src: string, s: nat, caps: seq<Capture>): (r: Outcome)
    requires s <= |src| && CapsOk(caps, s)
    ensures r.Match? ==> s <= r.end <= |src| && CapsOk(r.caps, r.end)
    decreases |items|, 0, 0
  {
    if items == [] then Match(s, caps)
    else
      var rest := items[1..];
      match items[0]
      case OpenCapture =>
        if |caps| >= MAXCAPTURES then Raise else Search(rest, src, s, Open(caps, s, CAP_UNFINISHED))
      case PositionCapture =>
        if |caps| >= MAXCAPTURES then Raise else Search(rest, src, s, Open(caps, s, CAP_POSITION))
      case CloseCapture =>
        (match LastOpen(caps)
         case None => Raise
         case Some(l) => Search(rest, src, s, Close(caps, l, s)))
      case Balance(open, close) =>
        (match BalanceEnd(src, open, close, s)
         case None => Fail
         case Some(end) => Search(rest, src, end, caps))
      case Frontier(cls) =>
        if AtFrontier(cls, src, s) then Search(rest, src, s, caps) else Fail
      case BackRef(l) =>
        if !ValidRef(caps, l) then Raise
        else if RefersTo(src, caps, l, s) then Search(rest, src, s + caps[l].len, caps)
        else Fail
      case EndAnchor =>
        if s == |src| then Search(rest, src, s, caps) else Fail
      case Rep(cls, Once) =>
        if HasAt(cls, src, s) then Search(rest, src, s + 1, caps) else Fail
      case Rep(cls, Optional) =>
        SearchDown(rest, src, s, caps, if HasAt(cls, src, s) then 1 else 0)
      case Rep(cls, Greedy) =>
        SearchDown(rest, src, s, caps, Run(cls, src, s))
      case Rep(cls, GreedyPlus) =>
        if HasAt(cls, src, s) then SearchDown(rest, src, s + 1, caps, Run(cls, src, s + 1)) else Fail
      case Rep(cls, Lazy) =>
        SearchUp(rest, cls, src, s, caps)
      case Bad => Raise
  }

  /** Tries the rest after `k`, `k - 1`, ..., 0 characters. */
  function SearchDown(rest: seq<Item>, src: string, s: nat, caps: seq<Capture>, k: nat): (r: Outcome)
    requires s + k <= |src| && CapsOk(caps, s)
    ensures r.Match? ==> s <= r.end <= |src| && CapsOk(r.caps, r.end)
    decreases |rest|, 1, k
  {
    var r := Search(rest, src, s + k, caps);
    if r != Fail || k == 0 then r else SearchDown(rest, src, s, caps, k - 1)
  }

  /** Tries the rest after 0, 1, ... characters of the class. */
  function SearchUp(rest: seq<Item>, cls: CharClass, src: string, s: nat, caps: seq<Capture>): (r: Outcome)
    requires s <= |src| && CapsOk(caps, s)
    ensures r.Match? ==> s <= r.end <= |src| && CapsOk(r.caps, r.end)
    decreases |rest|, 1, |src| - s
  {
    var r := Search(rest, src, s, caps);
    if r != Fail || !HasAt(cls, src, s) then r else SearchUp(rest, cls, src, s + 1, caps)
  }
}
