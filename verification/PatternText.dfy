/** How patterns are written (section 5.4.1 of the Lua 5.1 Reference Manual), and that reading them gives back what was
    written (lua/lstrlib.c:202-275, 366-440). */
module PatternText {
  import opened Wrappers
  import opened PatternSyntax
  import opened PatternSpec

  // ---------------------------------------------------------------- the writer

  function MemberText(item: SetItem): (t: string)
    ensures t != []
  {
    match item
    case Lit(c) => [c]
    case Class(cl) => ['%', cl]
    case Range(lo, hi) => [lo, '-', hi]
  }

  function MembersText(items: seq<SetItem>): string {
    if items == [] then "" else MemberText(items[0]) + MembersText(items[1..])
  }

  function ClassText(cls: CharClass): (t: string)
    ensures t != []
  {
    match cls
    case Any => "."
    case One(c) => [c]
    case Escaped(cl) => ['%', cl]
    case Set(complement, items) => (if complement then "[^" else "[") + MembersText(items) + "]"
  }

  function RepeatText(rep: Repeat): string {
    match rep
    case Once => ""
    case Optional => "?"
    case Greedy => "*"
    case GreedyPlus => "+"
    case Lazy => "-"
  }

  /** The captures `%1` to `%9` are numbered from 0; `%0` is read too, and always refused. */
  function ItemText(item: Item): string {
    match item
    case OpenCapture => "("
    case PositionCapture => "()"
    case CloseCapture => ")"
    case Balance(open, close) => ['%', 'b', open, close]
    case Frontier(cls) => "%f" + ClassText(cls)
    case BackRef(index) => if 0 <= index < 9 then ['%', "123456789"[index]] else "%0"
    case EndAnchor => "$"
    case Rep(cls, rep) => ClassText(cls) + RepeatText(rep)
    case Bad => "%"
  }

  function Text(items: seq<Item>): string {
    if items == [] then "" else ItemText(items[0]) + Text(items[1..])
  }

  // ---------------------------------------------------------------- what can be written

  /** `%` begins a class, and `]` ends the set unless it is its first character. */
  predicate MemberOk(item: SetItem, first: bool) {
    match item
    case Lit(c) => c != NUL && c != '%' && (first || c != ']')
    case Class(cl) => cl != NUL
    case Range(lo, hi) => lo != NUL && lo != '%' && hi != NUL && hi != '%' && (first || lo != ']') && hi != ']'
  }

  /** After a character, `-` stands for a range unless it is the last character. */
  predicate MembersOk(items: seq<SetItem>, first: bool) {
    items != [] ==>
      var rest := MembersText(items[1..]);
      && MemberOk(items[0], first) && (items[0].Lit? && |rest| > 1 ==> rest[0] != '-')
      && MembersOk(items[1..], false)
  }

  predicate SetOk(complement: bool, items: seq<SetItem>) {
    items != [] && MembersOk(items, true) && (!complement ==> MembersText(items)[0] != '^')
  }

  predicate ClassOk(cls: CharClass) {
    match cls
    case Any => true
    case One(c) => c !in ".%[" && c != NUL
    case Escaped(cl) => cl != NUL
    case Set(complement, items) => SetOk(complement, items)
  }

  predicate ItemOk(item: Item) {
    match item
    case Balance(open, close) => open != NUL && close != NUL
    case Frontier(cls) => cls.Set? && ClassOk(cls)
    case BackRef(index) => -1 <= index < 9
    case Rep(cls, _) => ClassOk(cls) && (cls.One? ==> cls.c !in "()") && (cls.Escaped? ==> cls.cl !in "bf0123456789")
    case Bad => false
    case _ => true
  }

  /** The character that follows an item must not become part of it. `NUL` is the end of the pattern. */
  predicate Joins(item: Item, c: char) {
    match item
    case OpenCapture => c != ')'
    case EndAnchor => c == NUL
    case Rep(cls, Once) => c !in "?*+-" && (cls == One('$') ==> c != NUL)
    case _ => true
  }

  function First(t: string, c: char): char { if t == "" then c else t[0] }

  /** The items can be written so that `c` follows. */
  predicate Writable(items: seq<Item>, c: char) {
    items != [] ==>
      ItemOk(items[0]) && Joins(items[0], First(Text(items[1..]), c)) && Writable(items[1..], c)
  }

  // ---------------------------------------------------------------- reading what was written

  predicate Spells(p: string, i: nat, t: string) { i + |t| <= |p| && p[i..i + |t|] == t }

  lemma SpellsBoth(p: string, i: nat, s: string, t: string)
    requires Spells(p, i, s + t)
    ensures Spells(p, i, s) && Spells(p, i + |s|, t)
  {
    assert p[i..i + |s + t|][..|s|] == s && p[i..i + |s + t|][|s|..] == t;
  }

  lemma SpellsAt(p: string, i: nat, t: string, k: nat)
    requires Spells(p, i, t) && k < |t|
    ensures At(p, i + k) == t[k]
  {
    assert p[i..i + |t|][k] == t[k];
  }

  lemma MemberReads(p: string, i: nat, item: SetItem, first: bool, ec: nat)
    requires Spells(p, i, MemberText(item)) && MemberOk(item, first) && i + |MemberText(item)| <= ec
    requires item.Lit? && ec - (i + 1) > 1 ==> At(p, i + 1) != '-'
    ensures SetItems(p, i, ec) == [item] + SetItems(p, i + |MemberText(item)|, ec)
  {
    var t := MemberText(item);
    SpellsAt(p, i, t, 0);
    if !item.Lit? { SpellsAt(p, i, t, 1); }
    if item.Range? { SpellsAt(p, i, t, 2); }
    hide Spells;
  }

  lemma MembersParts(items: seq<SetItem>, first: bool)
    requires items != [] && MembersOk(items, first)
    ensures var t, rest := MemberText(items[0]), MembersText(items[1..]);
            && MembersText(items) == t + rest && |MembersText(items)| == |t| + |rest| && MemberOk(items[0], first)
            && (items[0].Lit? && |rest| > 1 ==> rest[0] != '-') && MembersOk(items[1..], false)
  {
  }

  lemma NoMembers(p: string, i: nat)
    ensures MembersText([]) == "" && SetItems(p, i, i) == []
  {
  }

  lemma {:induction false} MembersRead(p: string, i: nat, items: seq<SetItem>, first: bool)
    requires Spells(p, i, MembersText(items)) && MembersOk(items, first)
    ensures SetItems(p, i, i + |MembersText(items)|) == items
    decreases |items|
  {
    hide Spells, SetItems, MemberOk, MembersText, MembersOk, MemberText, At;
    if items == [] {
      NoMembers(p, i);
    } else {
      MembersParts(items, first);
      var t, rest := MemberText(items[0]), MembersText(items[1..]);
      SpellsBoth(p, i, t, rest);
      MembersRead(p, i + |t|, items[1..], false);
      if rest != [] { SpellsAt(p, i + |t|, rest, 0); }
      OneLong(items[0]);
      MemberReads(p, i, items[0], first, i + |t| + |rest|);
      assert items == [items[0]] + items[1..];
    }
  }

  lemma OneLong(item: SetItem)
    ensures item.Lit? ==> |MemberText(item)| == 1
  {
  }

  lemma MemberPassed(p: string, i: nat, item: SetItem, first: bool)
    requires Spells(p, i, MemberText(item)) && MemberOk(item, first)
    ensures var next := i + |MemberText(item)|;
            SetEnd(p, i) == if At(p, next) == ']' then Some(next + 1) else SetEnd(p, next)
  {
    var t := MemberText(item);
    SpellsAt(p, i, t, 0);
    if !item.Lit? { SpellsAt(p, i, t, 1); }
    if item.Range? { SpellsAt(p, i, t, 2); }
    hide Spells;
    if item.Range? { assert SetEnd(p, i) == SetEnd(p, i + 1) == SetEnd(p, i + 2); }
  }

  /** The first bracket that is not the first character closes the set. */
  lemma {:induction false} MembersEnd(p: string, i: nat, items: seq<SetItem>, first: bool)
    requires items != [] && Spells(p, i, MembersText(items)) && MembersOk(items, first)
    requires At(p, i + |MembersText(items)|) == ']'
    ensures SetEnd(p, i) == Some(i + |MembersText(items)| + 1)
    decreases |items|
  {
    hide SetEnd, MemberOk, Spells, MembersOk, MembersText, MemberText, At;
    MembersParts(items, first);
    var t, rest := MemberText(items[0]), MembersText(items[1..]);
    SpellsBoth(p, i, t, rest);
    MemberPassed(p, i, items[0], first);
    if items[1..] == [] {
      NoMembers(p, i);
    } else {
      MembersEnd(p, i + |t|, items[1..], false);
      NotClosing(items[1..]);
      SpellsAt(p, i + |t|, rest, 0);
    }
  }

  lemma NotClosing(items: seq<SetItem>)
    requires items != [] && MembersOk(items, false)
    ensures MembersText(items) != "" && MembersText(items)[0] != ']'
  {
  }

  lemma ClassReads(p: string, i: nat, cls: CharClass)
    requires ClassOk(cls) && Spells(p, i, ClassText(cls))
    ensures var ep := i + |ClassText(cls)|;
            At(p, i) != NUL && ClassEnd(p, i) == Some(ep) && ClassAt(p, i, ep) == cls
  {
    var t := ClassText(cls);
    SpellsAt(p, i, t, 0);
    match cls
    case Any =>
    case One(c) =>
    case Escaped(cl) => SpellsAt(p, i, t, 1);
    case Set(complement, items) => SetReads(p, i, complement, items);
  }

  lemma SetIs(p: string, i: nat, complement: bool, items: seq<SetItem>, ec: nat)
    requires var start := if complement then i + 2 else i + 1;
             && At(p, i) == '[' && (At(p, i + 1) == '^' <==> complement)
             && SetEnd(p, start) == Some(ec + 1) && SetItems(p, start, ec) == items
    ensures ClassEnd(p, i) == Some(ec + 1) && SetAt(p, i, ec) == Set(complement, items)
  {
    hide SetEnd, SetItems, At;
  }

  function SetOpen(complement: bool): string { if complement then "[^" else "[" }

  lemma SetTextIs(complement: bool, items: seq<SetItem>)
    ensures ClassText(Set(complement, items)) == SetOpen(complement) + MembersText(items) + "]"
  {
  }

  lemma SetReads(p: string, i: nat, complement: bool, items: seq<SetItem>)
    requires SetOk(complement, items) && Spells(p, i, ClassText(Set(complement, items)))
    ensures var ep := i + |ClassText(Set(complement, items))|;
            && At(p, i) == '[' && ClassEnd(p, i) == Some(ep) && SetAt(p, i, ep - 1) == Set(complement, items)
  {
    hide SetEnd, SetItems, MembersOk, Spells, MembersText, At, ClassText, ClassEnd, SetAt, MemberOk;
    var open, t := SetOpen(complement), MembersText(items);
    SetTextIs(complement, items);
    SpellsBoth(p, i, open + t, "]");
    SpellsBoth(p, i, open, t);
    SpellsAt(p, i, open, 0);
    if complement { SpellsAt(p, i, open, 1); }
    var start := i + |open|;
    MembersParts(items, true);
    SpellsAt(p, start, t, 0);
    SpellsAt(p, start + |t|, "]", 0);
    MembersRead(p, start, items, true);
    MembersEnd(p, start, items, true);
    SetIs(p, i, complement, items, start + |t|);
  }

  // ---------------------------------------------------------------- items

  lemma ItemReads(p: string, i: nat, item: Item)
    requires ItemOk(item) && Spells(p, i, ItemText(item)) && Joins(item, At(p, i + |ItemText(item)|))
    ensures Parse(p, i) == [item] + Parse(p, i + |ItemText(item)|)
  {
    hide Parse, Spells;
    match item
    case Rep(cls, rep) => RepReads(p, i, cls, rep);
    case Balance(open, close) => BalanceReads(p, i, open, close);
    case Frontier(cls) => FrontierReads(p, i, cls);
    case _ => MarkReads(p, i, item);
  }

  lemma BalanceReads(p: string, i: nat, open: char, close: char)
    requires open != NUL && close != NUL && Spells(p, i, ['%', 'b', open, close])
    ensures Parse(p, i) == [Balance(open, close)] + Parse(p, i + 4)
  {
    var t := ['%', 'b', open, close];
    SpellsAt(p, i, t, 0);
    SpellsAt(p, i, t, 1);
    SpellsAt(p, i, t, 2);
    SpellsAt(p, i, t, 3);
    hide Spells, ParseRep;
  }

  lemma FrontierIs(p: string, i: nat, ep: nat)
    requires At(p, i) == '%' && At(p, i + 1) == 'f' && At(p, i + 2) == '[' && ClassEnd(p, i + 2) == Some(ep)
    ensures Parse(p, i) == [Frontier(SetAt(p, i + 2, ep - 1))] + Parse(p, ep)
  {
    hide ParseRep, ClassEnd, SetAt;
  }

  lemma FrontierReads(p: string, i: nat, cls: CharClass)
    requires cls.Set? && ClassOk(cls) && Spells(p, i, "%f" + ClassText(cls))
    ensures Parse(p, i) == [Frontier(cls)] + Parse(p, i + 2 + |ClassText(cls)|)
  {
    hide SetOk, Spells, Parse, ClassEnd, SetAt;
    SpellsBoth(p, i, "%f", ClassText(cls));
    SpellsAt(p, i, "%f", 0);
    SpellsAt(p, i, "%f", 1);
    SetReads(p, i + 2, cls.complement, cls.items);
    FrontierIs(p, i, i + 2 + |ClassText(cls)|);
  }

  /** The items of one or two characters. */
  lemma MarkReads(p: string, i: nat, item: Item)
    requires ItemOk(item) && !item.Rep? && !item.Balance? && !item.Frontier?
    requires Spells(p, i, ItemText(item)) && Joins(item, At(p, i + |ItemText(item)|))
    ensures Parse(p, i) == [item] + Parse(p, i + |ItemText(item)|)
  {
    var t := ItemText(item);
    SpellsAt(p, i, t, 0);
    if |t| > 1 { SpellsAt(p, i, t, 1); }
    hide Spells, ParseRep;
    if item.BackRef? && item.index >= 0 { assert t[1] == "123456789"[item.index]; }
  }

  /** The class does not look like another item. */
  lemma ClassBegins(p: string, i: nat, cls: CharClass, rep: Repeat)
    requires ItemOk(Rep(cls, rep)) && Spells(p, i, ClassText(cls))
    requires cls == One('$') ==> At(p, i + 1) != NUL
    ensures At(p, i) != NUL && Parse(p, i) == ParseRep(p, i)
  {
    var t := ClassText(cls);
    SpellsAt(p, i, t, 0);
    if cls.Escaped? { SpellsAt(p, i, t, 1); }
    hide Spells, ParseRep, SetOk;
  }

  lemma RepeatReads(p: string, ep: nat, rep: Repeat)
    requires Spells(p, ep, RepeatText(rep)) && (rep == Once ==> At(p, ep) !in "?*+-")
    ensures RepeatAt(p, ep) == rep && AfterRepeat(p, ep) == ep + |RepeatText(rep)|
  {
    if rep != Once { SpellsAt(p, ep, RepeatText(rep), 0); }
    assert rep == Once ==> At(p, ep) !in ['?', '*', '+', '-'];
  }

  lemma RepReads(p: string, i: nat, cls: CharClass, rep: Repeat)
    requires ItemOk(Rep(cls, rep)) && Spells(p, i, ClassText(cls) + RepeatText(rep))
    requires Joins(Rep(cls, rep), At(p, i + |ClassText(cls) + RepeatText(rep)|))
    ensures Parse(p, i) == [Rep(cls, rep)] + Parse(p, i + |ClassText(cls) + RepeatText(rep)|)
  {
    hide Spells, ClassEnd, ClassAt, Parse, RepeatAt, AfterRepeat;
    var t, u := ClassText(cls), RepeatText(rep);
    SpellsBoth(p, i, t, u);
    ClassReads(p, i, cls);
    RepeatReads(p, i + |t|, rep);
    if u != "" { SpellsAt(p, i + |t|, u, 0); }
    ClassBegins(p, i, cls, rep);
  }

  /** Reading inverts writing, whatever follows. */
  lemma {:induction false} ReadsBack(p: string, i: nat, items: seq<Item>)
    requires Spells(p, i, Text(items)) && Writable(items, At(p, i + |Text(items)|))
    ensures Parse(p, i) == items + Parse(p, i + |Text(items)|)
    decreases |items|
  {
    hide Parse, ItemOk, Joins, ItemText, Spells;
    if items != [] {
      var t, rest := ItemText(items[0]), Text(items[1..]);
      SpellsBoth(p, i, t, rest);
      if rest != "" { SpellsAt(p, i + |t|, rest, 0); }
      ItemReads(p, i, items[0]);
      ReadsBack(p, i + |t|, items[1..]);
    }
  }

  /** The pattern that is written for a list of items is read as this list. */
  lemma ParseIsInverse(items: seq<Item>)
    requires Writable(items, NUL)
    ensures Parse(Text(items), 0) == items
  {
    assert Parse(Text(items), |Text(items)|) == [];
    hide Parse, Text, Writable;
    ReadsBack(Text(items), 0, items);
  }

  // ---------------------------------------------------------------- malformed patterns

  /** A set of which no closing bracket is left. */
  lemma {:induction false} MembersUnclosed(p: string, i: nat, items: seq<SetItem>, first: bool)
    requires Spells(p, i, MembersText(items)) && MembersOk(items, first) && i + |MembersText(items)| == |p|
    ensures SetEnd(p, i) == None
    decreases |items|
  {
    if items == [] {
      assert At(p, i) == NUL;
    } else {
      hide MemberOk, Spells, MembersOk, SetEnd;
      MembersParts(items, first);
      var t, rest := MemberText(items[0]), MembersText(items[1..]);
      SpellsBoth(p, i, t, rest);
      MemberPassed(p, i, items[0], first);
      MembersUnclosed(p, i + |t|, items[1..], false);
      if items[1..] != [] {
        SpellsAt(p, i + |t|, rest, 0);
        NotClosing(items[1..]);
      }
    }
  }

  /** What a malformed pattern ends with: `%`, `%b` with fewer than two characters, `%f` without a set, or a set that is
      not closed. */
  ghost predicate Malformed(t: string) {
    || t == "%" || (2 <= |t| <= 3 && t[..2] == "%b")
    || (|t| >= 2 && t[..2] == "%f" && (|t| == 2 || t[2] != '[' || Unclosed(t[2..])))
    || Unclosed(t)
  }

  ghost predicate Unclosed(t: string) { exists complement, items :: OpenSet(t, complement, items) }

  ghost predicate OpenSet(t: string, complement: bool, items: seq<SetItem>) {
    && MembersOk(items, true) && t == (if complement then "[^" else "[") + MembersText(items)
    && (!complement && items != [] ==> MembersText(items)[0] != '^')
  }

  lemma UnclosedEnds(p: string, i: nat)
    requires i <= |p| && Unclosed(p[i..])
    ensures At(p, i) == '[' && ClassEnd(p, i) == None
  {
    var complement, items :| OpenSet(p[i..], complement, items);
    hide MembersOk, SetEnd, MembersText;
    var open, t := if complement then "[^" else "[", MembersText(items);
    assert Spells(p, i, open + t);
    SpellsBoth(p, i, open, t);
    SpellsAt(p, i, open, 0);
    if complement { SpellsAt(p, i, open, 1); }
    if items == [] { NoMembers(p, 0); } else { SpellsFirst(p, i + |open|, items); }
    MembersUnclosed(p, i + |open|, items, true);
  }

  lemma SpellsFirst(p: string, i: nat, items: seq<SetItem>)
    requires items != [] && MembersOk(items, true) && Spells(p, i, MembersText(items))
    ensures MembersText(items) != "" && At(p, i) == MembersText(items)[0]
  {
    SpellsAt(p, i, MembersText(items), 0);
  }

  /** The malformed end is read as one bad item, which the matcher refuses when it comes to it. */
  lemma MalformedIsBad(p: string, i: nat)
    requires i <= |p| && Malformed(p[i..])
    ensures Parse(p, i) == [Bad]
  {
    var t := p[i..];
    assert forall k :: 0 <= k < |t| ==> At(p, i + k) == t[k];
    assert At(p, |p|) == NUL;
    if Unclosed(t) {
      UnclosedEnds(p, i);
    } else if |t| > 2 && t[..2] == "%f" && Unclosed(t[2..]) {
      assert t[2..] == p[i + 2..];
      UnclosedEnds(p, i + 2);
    }
    hide Unclosed, SetEnd;
    if |t| >= 2 { assert t[..2] == [t[0], t[1]]; }
  }

  /** Everything before the malformed end is read as it was written. */
  lemma MalformedTail(items: seq<Item>, t: string)
    requires Malformed(t) && Writable(items, At(t, 0))
    ensures Parse(Text(items) + t, 0) == items + [Bad]
  {
    var p := Text(items) + t;
    assert p[|Text(items)|..] == t && Spells(p, 0, Text(items));
    assert At(p, |Text(items)|) == At(t, 0);
    hide Parse, Malformed, Writable, Spells;
    ReadsBack(p, 0, items);
    MalformedIsBad(p, |Text(items)|);
  }

  // ---------------------------------------------------------------- what the operators mean

  /** How often a class followed by `op` may be repeated. */
  predicate MayRepeat(op: char, k: nat) { (op == '?' ==> k <= 1) && (op == '+' ==> k >= 1) }

  /** Of the numbers of repetitions, `-` takes the smallest for which the rest matches, every other the largest. */
  predicate Sooner(op: char, k: nat, n: nat) { if op == '-' then k < n else k > n }

  ghost predicate Counts(cls: CharClass, op: char, src: string, s: nat, k: nat) {
    MayRepeat(op, k) && AllHave(cls, src, s, k)
  }

  /** What the rest of the pattern gives after `k` characters. */
  function RestAfter(rest: seq<Item>, src: string, s: nat, caps: seq<Capture>, k: nat): Outcome
    requires s <= |src| && CapsOk(caps, s)
  {
    if s + k <= |src| then Search(rest, src, s + k, caps) else Fail
  }

  /** `r` is the result with the count that is preferred, of those for which the rest does not fail. */
  ghost predicate Preferred(rest: seq<Item>, cls: CharClass, op: char, src: string, s: nat, caps: seq<Capture>,
                            r: Outcome)
    requires s <= |src| && CapsOk(caps, s)
  {
    if r == Fail then forall k: nat :: Counts(cls, op, src, s, k) ==> RestAfter(rest, src, s, caps, k) == Fail
    else exists k: nat :: PreferredAt(rest, cls, op, src, s, caps, r, k)
  }

  ghost predicate PreferredAt(rest: seq<Item>, cls: CharClass, op: char, src: string, s: nat, caps: seq<Capture>,
                              r: Outcome, k: nat)
    requires s <= |src| && CapsOk(caps, s)
  {
    && Counts(cls, op, src, s, k) && r == RestAfter(rest, src, s, caps, k)
    && forall n: nat :: Counts(cls, op, src, s, n) && Sooner(op, n, k) ==> RestAfter(rest, src, s, caps, n) == Fail
  }

  /** From the largest count down. */
  ghost predicate Down(rest: seq<Item>, src: string, s: nat, caps: seq<Capture>, k: nat, r: Outcome)
    requires s <= |src| && CapsOk(caps, s)
  {
    if r == Fail then forall n: nat :: n <= k ==> RestAfter(rest, src, s, caps, n) == Fail
    else exists n: nat :: DownAt(rest, src, s, caps, k, r, n)
  }

  ghost predicate DownAt(rest: seq<Item>, src: string, s: nat, caps: seq<Capture>, k: nat, r: Outcome, n: nat)
    requires s <= |src| && CapsOk(caps, s)
  {
    && n <= k && r == RestAfter(rest, src, s, caps, n)
    && forall m: nat :: n < m <= k ==> RestAfter(rest, src, s, caps, m) == Fail
  }

  lemma {:induction false} DownPrefers(rest: seq<Item>, src: string, s: nat, caps: seq<Capture>, k: nat)
    requires s + k <= |src| && CapsOk(caps, s)
    ensures Down(rest, src, s, caps, k, SearchDown(rest, src, s, caps, k))
    decreases k
  {
    hide Search;
    var r := SearchDown(rest, src, s, caps, k);
    if RestAfter(rest, src, s, caps, k) == Fail && k > 0 {
      DownPrefers(rest, src, s, caps, k - 1);
      if r != Fail {
        var n: nat :| DownAt(rest, src, s, caps, k - 1, r, n);
        assert DownAt(rest, src, s, caps, k, r, n);
      }
    } else if r != Fail {
      assert DownAt(rest, src, s, caps, k, r, k);
    }
  }

  lemma {:induction false} UpPrefers(rest: seq<Item>, cls: CharClass, src: string, s: nat, caps: seq<Capture>)
    requires s <= |src| && CapsOk(caps, s)
    ensures Preferred(rest, cls, '-', src, s, caps, SearchUp(rest, cls, src, s, caps))
    decreases |src| - s
  {
    hide Search;
    var r := SearchUp(rest, cls, src, s, caps);
    if Search(rest, src, s, caps) != Fail || !HasAt(cls, src, s) {
      if r != Fail { assert PreferredAt(rest, cls, '-', src, s, caps, r, 0); }
    } else {
      UpPrefers(rest, cls, src, s + 1, caps);
      forall k: nat | Counts(cls, '-', src, s, k) && k > 0
        ensures Counts(cls, '-', src, s + 1, k - 1)
        ensures RestAfter(rest, src, s, caps, k) == RestAfter(rest, src, s + 1, caps, k - 1)
      {
      }
      if r != Fail {
        var k: nat :| PreferredAt(rest, cls, '-', src, s + 1, caps, r, k);
        assert Counts(cls, '-', src, s, k + 1);
        assert PreferredAt(rest, cls, '-', src, s, caps, r, k + 1);
      }
    }
  }

  /** The counts that are allowed are those from `low` to `high`, and the larger are preferred. */
  lemma DownIsPreferred(rest: seq<Item>, cls: CharClass, op: char, src: string, s: nat, caps: seq<Capture>, low: nat,
                        high: nat)
    requires s + low <= s + high <= |src| && CapsOk(caps, s) && op != '-'
    requires forall k: nat :: Counts(cls, op, src, s, k) <==> low <= k <= high
    ensures Preferred(rest, cls, op, src, s, caps, SearchDown(rest, src, s + low, caps, high - low))
  {
    hide Search, SearchDown, Counts;
    var r := SearchDown(rest, src, s + low, caps, high - low);
    DownPrefers(rest, src, s + low, caps, high - low);
    forall k: nat | low <= k <= high
      ensures RestAfter(rest, src, s, caps, k) == RestAfter(rest, src, s + low, caps, k - low)
    {
    }
    if r != Fail {
      var n: nat :| DownAt(rest, src, s + low, caps, high - low, r, n);
      assert PreferredAt(rest, cls, op, src, s, caps, r, n + low);
    } else {
      forall k: nat | Counts(cls, op, src, s, k) ensures RestAfter(rest, src, s, caps, k) == Fail {
        assert RestAfter(rest, src, s + low, caps, k - low) == Fail;
      }
    }
  }

  function RepeatOf(op: char): Repeat {
    match op
    case '?' => Optional
    case '*' => Greedy
    case '+' => GreedyPlus
    case _ => Lazy
  }

  lemma RepPrefers(rest: seq<Item>, cls: CharClass, op: char, src: string, s: nat, caps: seq<Capture>)
    requires s <= |src| && CapsOk(caps, s) && op in ['?', '*', '+', '-']
    ensures Preferred(rest, cls, op, src, s, caps, Search([Rep(cls, RepeatOf(op))] + rest, src, s, caps))
  {
    var items, n := [Rep(cls, RepeatOf(op))] + rest, Run(cls, src, s);
    assert items[1..] == rest;
    RunCounts(cls, src, s);
    if op == '*' {
      DownIsPreferred(rest, cls, op, src, s, caps, 0, n);
    } else if op == '?' {
      DownIsPreferred(rest, cls, op, src, s, caps, 0, if n > 0 then 1 else 0);
    } else if op == '-' {
      UpPrefers(rest, cls, src, s, caps);
    } else if n > 0 {
      DownIsPreferred(rest, cls, op, src, s, caps, 1, n);
    }
  }

  lemma RunCounts(cls: CharClass, src: string, s: nat)
    requires s <= |src|
    ensures var n := Run(cls, src, s);
            && (forall k: nat :: AllHave(cls, src, s, k) <==> k <= n) && (n > 0 <==> HasAt(cls, src, s))
            && (n > 0 ==> Run(cls, src, s + 1) == n - 1)
  {
  }

  /** In the text of a pattern: a class followed by `*`, `+`, `?` or `-` takes the preferred number of characters. */
  lemma OperatorTakes(p: string, i: nat, cls: CharClass, op: char, src: string, s: nat, caps: seq<Capture>)
    requires op in ['?', '*', '+', '-'] && ItemOk(Rep(cls, Once)) && Spells(p, i, ClassText(cls) + [op])
    requires s <= |src| && CapsOk(caps, s)
    ensures Preferred(Parse(p, i + |ClassText(cls)| + 1), cls, op, src, s, caps, Search(Parse(p, i), src, s, caps))
  {
    hide ItemOk, Parse, Preferred, Search, ClassText, ItemText, Joins;
    var item := Rep(cls, RepeatOf(op));
    SameText(cls, op, At(p, i + |ItemText(item)|));
    hide Spells, RepeatOf;
    ItemReads(p, i, item);
    RepPrefers(Parse(p, i + |ClassText(cls)| + 1), cls, op, src, s, caps);
  }

  lemma SameText(cls: CharClass, op: char, next: char)
    requires op in ['?', '*', '+', '-']
    ensures ItemText(Rep(cls, RepeatOf(op))) == ClassText(cls) + [op]
    ensures ItemOk(Rep(cls, RepeatOf(op))) == ItemOk(Rep(cls, Once))
    ensures Joins(Rep(cls, RepeatOf(op)), next)
  {
  }
}
