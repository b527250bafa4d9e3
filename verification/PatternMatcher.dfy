/** The matcher of lua/lstrlib.c as it runs: positions `s` and `p` move, `level` and `capture` are
    updated in place and undone on failure. Every method is proved against the functions of
    `PatternSyntax` and `PatternSpec`. */
module PatternMatcher {
  import opened Wrappers
  import opened PatternSyntax
  import opened PatternSpec
  import PatternTheorems

  /** A C result: a position, NULL, or an error raised through `luaL_error`. */
  datatype Result = Null | Error | Pos(pos: nat)

  /** How the default item leaves: with a result, or by a goto to the start of `match`. */
  datatype Next = Done(r: Result) | Goto(s: nat, p: nat)

  class MatchState {
    const src: string
    const pat: string
    var level: nat
    var capture: array<Capture>

    ghost predicate Valid()
      reads this, capture
    {
      capture.Length == MAXCAPTURES && level <= MAXCAPTURES
    }

    ghost function Caps(): (r: seq<Capture>)
      requires Valid()
      reads this, capture
      ensures |r| == level
    {
      capture[..level]
    }

    ghost predicate Ready(s: nat)
      reads this, capture
    {
      Valid() && s <= |src| && CapsOk(Caps(), s)
    }

    constructor (src: string, pat: string)
      ensures Valid() && level == 0 && fresh(capture)
      ensures this.src == src && this.pat == pat
    {
      this.src := src;
      this.pat := pat;
      level := 0;
      capture := new Capture[MAXCAPTURES](_ => Capture(0, CAP_UNFINISHED));
    }

    /** `r` and the captures are what the search outcome `o` says, starting from the captures `before`. */
    ghost predicate Reports(o: Outcome, r: Result, before: seq<Capture>)
      requires Valid()
      reads this, capture
    {
      match o
      case Fail => r == Null && Caps() == before
      case Raise => r == Error
      case Match(end, caps) => r == Pos(end) && Caps() == caps
    }

    // -------------------------------------------------------------- pattern classes

    method FindClassEnd(p: nat) returns (r: Option<nat>)
      requires At(pat, p) != NUL
      ensures r == ClassEnd(pat, p)
    {
      var i := p + 1;
      if At(pat, p) == ESC {
        if At(pat, i) == NUL { return None; }
        return Some(i + 1);
      } else if At(pat, p) == '[' {
        if At(pat, i) == '^' { i := i + 1; }
        var closed := false;
        while !closed
          invariant !closed ==> SetEnd(pat, i) == ClassEnd(pat, p)
          invariant closed ==> Some(i + 1) == ClassEnd(pat, p)
          decreases |pat| - i, !closed
        {
          if At(pat, i) == NUL { return None; }
          i := i + 1;
          if At(pat, i - 1) == ESC && At(pat, i) != NUL { i := i + 1; }
          closed := At(pat, i) == ']';
        }
        return Some(i + 1);
      } else {
        return Some(i);
      }
    }

    method MatchBracketClass(c: char, p: nat, ec: nat) returns (r: bool)
      ensures r == SetAt(pat, p, ec).Has(c)
    {
      hide SomeHas, SetItems, MatchClass;
      var sig, i := true, p;
      if At(pat, p + 1) == '^' { sig, i := false, p + 1; }
      i := i + 1;
      while i < ec
        invariant sig != SetAt(pat, p, ec).complement
        invariant SomeHas(SetItems(pat, i, ec), c) == SomeHas(SetAt(pat, p, ec).items, c)
        decreases ec - i
      {
        SetItemsStep(pat, i, ec, c);
        if At(pat, i) == ESC {
          i := i + 1;
          if MatchClass(c, At(pat, i)) { return sig; }
        } else if At(pat, i + 1) == '-' && i + 2 < ec {
          i := i + 2;
          if At(pat, i - 2) <= c <= At(pat, i) { return sig; }
        } else if At(pat, i) == c {
          return sig;
        }
        i := i + 1;
      }
      NoItemsLeft(pat, i, ec, c);
      return !sig;
    }

    static lemma NoItemsLeft(p: string, i: nat, ec: nat, c: char)
      requires i >= ec
      ensures !SomeHas(SetItems(p, i, ec), c)
    {
    }

    static lemma SetItemsStep(p: string, i: nat, ec: nat, c: char)
      requires i < ec
      ensures SomeHas(SetItems(p, i, ec), c) <==>
              if At(p, i) == ESC then MatchClass(c, At(p, i + 1)) || SomeHas(SetItems(p, i + 2, ec), c)
              else if At(p, i + 1) == '-' && i + 2 < ec then At(p, i) <= c <= At(p, i + 2)
                   || SomeHas(SetItems(p, i + 3, ec), c)
              else At(p, i) == c || SomeHas(SetItems(p, i + 1, ec), c)
    {
      var items := SetItems(p, i, ec);
      assert items[1..] == if At(p, i) == ESC then SetItems(p, i + 2, ec)
                           else if At(p, i + 1) == '-' && i + 2 < ec then SetItems(p, i + 3, ec)
                           else SetItems(p, i + 1, ec);
    }

    method SingleMatch(c: char, p: nat, ep: nat) returns (r: bool)
      requires 0 < ep
      ensures r == ClassAt(pat, p, ep).Has(c)
    {
      match At(pat, p) {
        case '.' => r := true;
        case '%' => r := MatchClass(c, At(pat, p + 1));
        case '[' => r := MatchBracketClass(c, p, ep - 1);
        case _ => r := At(pat, p) == c;
      }
    }

    // -------------------------------------------------------------- items

    method MatchBalance(s: nat, p: nat) returns (r: Result)
      requires s <= |src|
      ensures r == if At(pat, p) == NUL || At(pat, p + 1) == NUL then Error
                   else match BalanceEnd(src, At(pat, p), At(pat, p + 1), s)
                        case None => Null
                        case Some(end) => Pos(end)
    {
      if At(pat, p) == NUL || At(pat, p + 1) == NUL { return Error; }
      if At(src, s) != At(pat, p) { return Null; }
      var b, e, cont, i := At(pat, p), At(pat, p + 1), 1, s + 1;
      while i < |src|
        invariant s < i <= |src| && cont == Depth(src, b, e, s, i) != 0
        invariant forall j :: s < j < i ==> Depth(src, b, e, s, j) != 0
      {
        if src[i] == e {
          cont := cont - 1;
          if cont == 0 {
            assert BalancedTo(src, b, e, s, i + 1);
            return Pos(i + 1);
          }
        } else if src[i] == b {
          cont := cont + 1;
        }
        i := i + 1;
      }
      return Null;
    }

    method CaptureToClose() returns (r: Option<nat>)
      requires Valid()
      ensures r == LastOpen(Caps())
    {
      var l := level;
      while l > 0
        invariant 0 <= l <= level && LastOpen(Caps()) == LastOpen(capture[..l])
      {
        l := l - 1;
        assert capture[..l + 1][..l] == capture[..l];
        if capture[l].len == CAP_UNFINISHED { return Some(l); }
      }
      return None;
    }

    method MatchCapture(s: nat, l: int) returns (r: Result)
      requires Ready(s)
      ensures r == if !ValidRef(Caps(), l) then Error
                   else if RefersTo(src, Caps(), l, s) then Pos(s + Caps()[l].len)
                   else Null
    {
      if l < 0 || l >= level || capture[l].len == CAP_UNFINISHED { return Error; }
      var c := capture[l];
      assert Caps()[l] == c;
      // the length of a position capture is converted to an unsigned number and is then too large
      if c.len != CAP_POSITION && |src| - s >= c.len && src[c.init..c.init + c.len] == src[s..s + c.len] {
        return Pos(s + c.len);
      }
      return Null;
    }

    /** The check that `push_onecapture` makes of every capture. */
    method AllFinished() returns (r: bool)
      requires Valid()
      ensures r <==> forall i :: 0 <= i < level ==> Caps()[i].len != CAP_UNFINISHED
    {
      r := true;
      for i := 0 to level
        invariant r <==> forall j :: 0 <= j < i ==> Caps()[j].len != CAP_UNFINISHED
      {
        assert Caps()[i] == capture[i];
        if capture[i].len == CAP_UNFINISHED { r := false; }
      }
    }

    // -------------------------------------------------------------- the matcher

    method StartCapture(s: nat, p: nat, what: int) returns (r: Result)
      requires Ready(s) && p <= |pat| && (what == CAP_UNFINISHED || what == CAP_POSITION)
      modifies this`level, capture
      ensures Valid()
      ensures Reports(if |old(Caps())| >= MAXCAPTURES then Raise
              else Search(Parse(pat, p), src, s, Open(old(Caps()), s, what)), r, old(Caps()))
      decreases |pat| - p, 5
    {
      if level >= MAXCAPTURES { return Error; }
      ghost var before := Caps();
      capture[level] := Capture(s, what);
      level := level + 1;
      ghost var held := Caps();
      assert held == Open(before, s, what) && held[..|before|] == before;
      r := DoMatch(s, p);
      if r == Null {
        level := level - 1;
        assert Caps() == held[..level];
      }
    }

    method EndCapture(s: nat, p: nat) returns (r: Result)
      requires Ready(s) && p <= |pat|
      modifies this`level, capture
      ensures Valid()
      ensures Reports(match LastOpen(old(Caps())) case None => Raise case Some(l) => Search(Parse(pat, p), src, s,
              Close(old(Caps()), l, s)), r, old(Caps()))
      decreases |pat| - p, 5
    {
      var open := CaptureToClose();
      if open.None? { return Error; }
      var l := open.value;
      ghost var before := Caps();
      capture[l] := Capture(capture[l].init, s - capture[l].init);
      assert Caps() == Close(before, l, s);
      r := DoMatch(s, p);
      if r == Null {
        capture[l] := Capture(capture[l].init, CAP_UNFINISHED);
        assert Caps() == before;
      }
    }

    method MaxExpand(s: nat, p: nat, ep: nat) returns (r: Result)
      requires Ready(s) && p < ep < |pat|
      modifies this`level, capture
      ensures Valid()
      ensures Reports(SearchDown(Parse(pat, ep + 1), src, s, old(Caps()), Run(ClassAt(pat, p, ep), src, s)), r,
              old(Caps()))
      decreases |pat| - p, 1
    {
      ghost var cls := ClassAt(pat, p, ep);
      var i := 0;
      var more := true;
      while more
        invariant Ready(s) && Caps() == old(Caps())
        invariant 0 <= i && s + i <= |src| && AllHave(cls, src, s, i)
        invariant !more ==> !HasAt(cls, src, s + i)
        decreases |src| - (s + i), more
      {
        if s + i < |src| {
          more := SingleMatch(src[s + i], p, ep);
        } else {
          more := false;
        }
        if more { i := i + 1; }
      }
      assert i == Run(cls, src, s);
      ghost var n := i;
      while i >= 0
        invariant -1 <= i <= n && Ready(s) && Caps() == old(Caps())
        invariant i >= 0 ==>
                    SearchDown(Parse(pat, ep + 1), src, s, Caps(), i)
                    == SearchDown(Parse(pat, ep + 1), src, s, Caps(), n)
        invariant i < 0 ==> SearchDown(Parse(pat, ep + 1), src, s, Caps(), n) == Fail
      {
        r := DoMatch(s + i, ep + 1);
        if r != Null { return; }
        i := i - 1;
      }
      return Null;
    }

    method MinExpand(s0: nat, p: nat, ep: nat) returns (r: Result)
      requires Ready(s0) && p < ep < |pat|
      modifies this`level, capture
      ensures Valid()
      ensures Reports(SearchUp(Parse(pat, ep + 1), ClassAt(pat, p, ep), src, s0, old(Caps())), r, old(Caps()))
      decreases |pat| - p, 1
    {
      var s: nat := s0;
      while true
        invariant Ready(s) && Caps() == old(Caps())
        invariant SearchUp(Parse(pat, ep + 1), ClassAt(pat, p, ep), src, s, Caps())
               == SearchUp(Parse(pat, ep + 1), ClassAt(pat, p, ep), src, s0, Caps())
        decreases |src| - s
      {
        r := DoMatch(s, ep + 1);
        if r != Null { return; }
        if s >= |src| { return Null; }
        var m := SingleMatch(src[s], p, ep);
        if !m { return Null; }
        s := s + 1;
      }
    }

    /** `match`: the gotos that save a tail call are the rounds of this loop. */
    method DoMatch(s0: nat, p0: nat) returns (r: Result)
      requires Ready(s0) && p0 <= |pat|
      modifies this`level, capture
      ensures Valid()
      ensures Reports(Search(Parse(pat, p0), src, s0, old(Caps())), r, old(Caps()))
      decreases |pat| - p0, 4
    {
      var s: nat, p: nat := s0, p0;
      while true
        invariant Ready(s) && p0 <= p <= |pat| && Caps() == old(Caps())
        invariant Search(Parse(pat, p), src, s, Caps()) == Search(Parse(pat, p0), src, s0, Caps())
        decreases |pat| - p
      {
        ghost var items := Parse(pat, p);
        if At(pat, p) == '(' {
          if At(pat, p + 1) == ')' {
            r := StartCapture(s, p + 2, CAP_POSITION);
          } else {
            r := StartCapture(s, p + 1, CAP_UNFINISHED);
          }
          return;
        } else if At(pat, p) == ')' {
          r := EndCapture(s, p + 1);
          return;
        } else if At(pat, p) == ESC && (At(pat, p + 1) == 'b' || At(pat, p + 1) == 'f' || IsDigit(At(pat, p + 1))) {
          var next := EscapeItem(s, p);
          if next.Done? { return next.r; }
          s, p := next.s, next.p;
        } else if At(pat, p) == NUL {
          return Pos(s);
        } else if At(pat, p) == '$' && At(pat, p + 1) == NUL {
          return if s == |src| then Pos(s) else Null;
        } else {
          var next := DefaultItem(s, p);
          if next.Done? { return next.r; }
          s, p := next.s, next.p;
        }
      }
    }

    /** Balanced texts, frontiers and back references. */
    method EscapeItem(s: nat, p: nat) returns (next: Next)
      requires Ready(s) && p <= |pat| && At(pat, p) == ESC
      requires At(pat, p + 1) == 'b' || At(pat, p + 1) == 'f' || IsDigit(At(pat, p + 1))
      ensures next.Done? ==> Reports(Search(Parse(pat, p), src, s, Caps()), next.r, Caps())
      ensures next.Goto? ==>
                && s <= next.s <= |src| && p < next.p <= |pat| && CapsOk(Caps(), next.s)
                && Search(Parse(pat, p), src, s, Caps()) == Search(Parse(pat, next.p), src, next.s, Caps())
    {
      ghost var items := Parse(pat, p);
      if At(pat, p + 1) == 'b' {
        var b := MatchBalance(s, p + 2);
        if !b.Pos? { return Done(b); }
        assert items[1..] == Parse(pat, p + 4);
        return Goto(b.pos, p + 4);
      } else if At(pat, p + 1) == 'f' {
        if At(pat, p + 2) != '[' { return Done(Error); }
        var ep := FindClassEnd(p + 2);
        if ep.None? { return Done(Error); }
        var previous := if s == 0 then NUL else src[s - 1];
        var before := MatchBracketClass(previous, p + 2, ep.value - 1);
        var current := MatchBracketClass(At(src, s), p + 2, ep.value - 1);
        if before || !current { return Done(Null); }
        assert items[1..] == Parse(pat, ep.value);
        return Goto(s, ep.value);
      } else {
        var b := MatchCapture(s, At(pat, p + 1) as int - '1' as int);
        if !b.Pos? { return Done(b); }
        assert items[1..] == Parse(pat, p + 2);
        return Goto(b.pos, p + 2);
      }
    }

    lemma RepItem(cls: CharClass, rep: Repeat, rest: seq<Item>, s: nat, caps: seq<Capture>)
      requires s <= |src| && CapsOk(caps, s)
      ensures Search([Rep(cls, rep)] + rest, src, s, caps) ==
              match rep
              case Once => if HasAt(cls, src, s) then Search(rest, src, s + 1, caps) else Fail
              case Optional =>
                if HasAt(cls, src, s) && Search(rest, src, s + 1, caps) != Fail then Search(rest, src, s + 1, caps)
                else Search(rest, src, s, caps)
              case Greedy => SearchDown(rest, src, s, caps, Run(cls, src, s))
              case GreedyPlus => if HasAt(cls, src, s) then SearchDown(rest, src, s + 1, caps, Run(cls, src, s + 1))
                else Fail
              case Lazy => SearchUp(rest, cls, src, s, caps)
    {
      assert ([Rep(cls, rep)] + rest)[1..] == rest;
      assert SearchDown(rest, src, s, caps, 0) == Search(rest, src, s, caps);
      if HasAt(cls, src, s) {
        assert SearchDown(rest, src, s, caps, 1) ==
               if Search(rest, src, s + 1, caps) != Fail then Search(rest, src, s + 1, caps)
                 else SearchDown(rest, src, s, caps, 0);
      }
    }

    static lemma BadItem(src: string, s: nat, caps: seq<Capture>)
      requires s <= |src| && CapsOk(caps, s)
      ensures Search([Bad], src, s, caps) == Raise
    {
    }

    /** The block at label `dflt`: a class with its repetition. */
    method DefaultItem(s: nat, p: nat) returns (next: Next)
      requires Ready(s) && p <= |pat| && At(pat, p) != NUL
      modifies this`level, capture
      ensures Valid()
      ensures next.Done? ==> Reports(Search(ParseRep(pat, p), src, s, old(Caps())), next.r, old(Caps()))
      ensures next.Goto? ==>
                && Caps() == old(Caps()) && s <= next.s <= |src| && p < next.p <= |pat|
                && Search(ParseRep(pat, p), src, s, Caps()) == Search(Parse(pat, next.p), src, next.s, Caps())
      decreases |pat| - p, 3
    {
      hide Search, SearchDown, SearchUp, Run, ClassAt, Parse;
      var ends := FindClassEnd(p);
      if ends.None? {
        BadItem(src, s, Caps());
        return Done(Error);
      }
      var ep := ends.value;
      var m := false;
      if s < |src| { m := SingleMatch(src[s], p, ep); }
      assert m == HasAt(ClassAt(pat, p, ep), src, s);
      RepItem(ClassAt(pat, p, ep), RepeatAt(pat, ep), Parse(pat, AfterRepeat(pat, ep)), s, Caps());
      var r := Null;
      match RepeatAt(pat, ep) {
        case Optional =>
          if m {
            r := DoMatch(s + 1, ep + 1);
            if r != Null { return Done(r); }
          }
          return Goto(s, AfterRepeat(pat, ep));
        case Greedy =>
          r := MaxExpand(s, p, ep);
        case GreedyPlus =>
          if m { r := MaxExpand(s + 1, p, ep); }
        case Lazy =>
          r := MinExpand(s, p, ep);
        case Once =>
          if m { return Goto(s + 1, AfterRepeat(pat, ep)); }
      }
      return Done(r);
    }
  }

  // ---------------------------------------------------------------- string.find and string.match

  /** Where an unanchored search may start; an anchored one only starts at `init`. */
  predicate Start(src: string, init: nat, anchored: bool, s: nat) {
    init <= s <= |src| && (anchored ==> s == init)
  }

  /** Neither a match nor an error. */
  ghost predicate NoMatchAt(items: seq<Item>, src: string, s: nat)
    requires s <= |src|
  {
    NoDerivation(items, src, s, [])
  }

  /** The first outcome is an error, or a match with a capture that is still open. */
  ghost predicate ErrorAt(items: seq<Item>, src: string, s: nat)
    requires s <= |src|
  {
    || IsFirstOutcome(items, src, s, [], Raise)
    || exists out :: IsFirstMatch(items, src, s, [], out) && !Finished(out.caps)
  }

  /** The leftmost start that has an outcome at all has an error. */
  ghost predicate FailsFirst(items: seq<Item>, src: string, init: nat, anchored: bool) {
    exists s :: FailsAt(items, src, init, anchored, s)
  }

  ghost predicate FailsAt(items: seq<Item>, src: string, init: nat, anchored: bool, s: nat) {
    && Start(src, init, anchored, s) && ErrorAt(items, src, s)
    && forall t :: init <= t < s ==> NoMatchAt(items, src, t)
  }

  predicate Finished(caps: seq<Capture>) { forall i :: 0 <= i < |caps| ==> caps[i].len != CAP_UNFINISHED }

  datatype Found = Nothing | Failed | Occurrence(start: nat, end: nat, caps: seq<Capture>)

  predicate Anchored(p: string) { At(p, 0) == '^' }

  function StripAnchor(p: string): string {
    if Anchored(p) then p[1..] else p
  }

  lemma OpenFails(items: seq<Item>, src: string, init: nat, anchored: bool, s: nat, out: Outcome)
    requires Start(src, init, anchored, s) && IsFirstMatch(items, src, s, [], out) && !Finished(out.caps)
    requires forall t :: init <= t < s ==> NoMatchAt(items, src, t)
    ensures FailsAt(items, src, init, anchored, s)
  {
  }

  /** The pattern branch of `str_find_aux`: the leftmost start that matches wins. Captures that are still
      open when they are pushed are an error. */
  method FindAux(src: string, p: string, init: nat) returns (r: Found)
    requires init <= |src|
    ensures var (items, anchored) := (Parse(StripAnchor(p), 0), Anchored(p));
            && (r.Nothing? ==> forall s :: Start(src, init, anchored, s) ==> NoMatchAt(items, src, s))
            && (r.Occurrence? ==>
                  && Start(src, init, anchored, r.start)
                  && IsFirstMatch(items, src, r.start, [], Match(r.end, r.caps))
                  && Finished(r.caps)
                  && forall s :: init <= s < r.start ==> NoMatchAt(items, src, s))
            && (r.Failed? ==> FailsFirst(items, src, init, anchored))
            && (PatternTheorems.WellFormed(items, []) ==> !r.Failed?)
  {
    var anchored := Anchored(p);
    var ms := new MatchState(src, StripAnchor(p));
    ghost var items := Parse(ms.pat, 0);
    var s1 := init;
    while true
      invariant init <= s1 <= |src| && ms.Valid() && fresh(ms) && fresh(ms.capture)
      invariant anchored ==> s1 == init
      invariant forall s :: init <= s < s1 ==> NoMatchAt(items, src, s)
      decreases |src| - s1
    {
      ms.level := 0;
      assert ms.Caps() == [];
      var e := ms.DoMatch(s1, 0);
      PatternTheorems.SearchIsFirstMatch(items, src, s1, []);
      if PatternTheorems.WellFormed(items, []) {
        PatternTheorems.WellFormedSoundComplete(ms.pat, src, s1);
      }
      if e == Error {
        assert FailsAt(items, src, init, anchored, s1);
        return Failed;
      }
      if e.Pos? {
        var finished := ms.AllFinished();
        if !finished {
          OpenFails(items, src, init, anchored, s1, Match(e.pos, ms.Caps()));
          return Failed;
        }
        var caps := ms.capture[..ms.level];
        assert caps == ms.Caps();
        return Occurrence(s1, e.pos, caps);
      }
      if s1 >= |src| || anchored { return Nothing; }
      s1 := s1 + 1;
    }
  }
}
