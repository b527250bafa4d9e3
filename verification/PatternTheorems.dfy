/** The backtracking search of lua/lstrlib.c:301-440 returns what the earliest derivation leads to, a match or an error,
    and never raises on a well-formed pattern. */
module PatternTheorems {
  import opened Wrappers
  import opened PatternSyntax
  import opened PatternSpec

  /** What a search outcome has to say about the derivations; `ks` is the witness of a match or an error. */
  ghost predicate Explains(items: seq<Item>, src: string, s: nat, caps: seq<Capture>, r: Outcome, ks: seq<nat>)
    requires s <= |src| && CapsOk(caps, s)
  {
    && (!r.Fail? ==> Derives(items, src, s, caps, ks, r) && IsFirst(items, src, s, caps, ks))
    && (r.Fail? ==> NoDerivation(items, src, s, caps))
  }

  /** An item with no choice: every derivation goes through the same next state. */
  lemma Forced(items: seq<Item>, src: string, s: nat, caps: seq<Capture>, k: nat, s': nat, caps': seq<Capture>,
               r: Outcome, ks: seq<nat>)
    requires items != [] && s <= |src| && CapsOk(caps, s) && s' <= |src| && CapsOk(caps', s')
    requires Explains(items[1..], src, s', caps', r, ks)
    requires forall js, out ::
               Derives(items, src, s, caps, js, out) ==>
                 |js| > 0 && js[0] == k && Derives(items[1..], src, s', caps', js[1..], out)
    requires forall js, out ::
               Derives(items[1..], src, s', caps', js, out) ==> Derives(items, src, s, caps, [k] + js, out)
    ensures Explains(items, src, s, caps, r, [k] + ks)
  {
    if !r.Fail? {
      var all := [k] + ks;
      assert all[1..] == ks;
      forall js, out | Derives(items, src, s, caps, js, out)
        ensures js == all || Earlier(items, all, js)
      {
        assert js == [k] + js[1..];
        assert Derives(items[1..], src, s', caps', js[1..], out);
      }
    }
  }

  /** No derivation of the rest from any position strictly between `lo` and `hi`. */
  ghost predicate NoneBetween(rest: seq<Item>, src: string, lo: int, hi: nat, s: nat, caps: seq<Capture>)
    requires hi <= |src| + 1 && CapsOk(caps, s)
  {
    forall t: nat :: lo < t < hi && s <= t ==> NoDerivation(rest, src, t, caps)
  }

  /** What `SearchDown` from `s` with `n` or fewer characters says: `k` is the largest count that leads on. */
  ghost predicate DownExplains(rest: seq<Item>, src: string, s: nat, caps: seq<Capture>, n: nat, k: nat, ks: seq<nat>)
    requires s + n <= |src| && CapsOk(caps, s)
  {
    var r := SearchDown(rest, src, s, caps, n);
    && (!r.Fail? ==> k <= n && Derives(rest, src, s + k, caps, ks, r) && IsFirst(rest, src, s + k, caps, ks)
                     && NoneBetween(rest, src, s + k, s + n + 1, s, caps))
    && (r.Fail? ==> NoneBetween(rest, src, s - 1, s + n + 1, s, caps))
  }

  /** What `SearchUp` says: `k` is the smallest count that leads on. */
  ghost predicate UpExplains(rest: seq<Item>, cls: CharClass, src: string, s: nat, caps: seq<Capture>, k: nat,
                             ks: seq<nat>)
    requires s <= |src| && CapsOk(caps, s)
  {
    var r := SearchUp(rest, cls, src, s, caps);
    && (!r.Fail? ==>
          AllHave(cls, src, s, k) && Derives(rest, src, s + k, caps, ks, r) && IsFirst(rest, src, s + k, caps, ks)
                     && NoneBetween(rest, src, s - 1, s + k, s, caps))
    && (r.Fail? ==> NoneBetween(rest, src, s - 1, s + Run(cls, src, s) + 1, s, caps))
  }

  lemma {:induction false} SearchDownExplained(rest: seq<Item>, src: string, s: nat, caps: seq<Capture>, k: nat)
      returns (j: nat, ks: seq<nat>)
    requires s + k <= |src| && CapsOk(caps, s)
    ensures DownExplains(rest, src, s, caps, k, j, ks)
    decreases |rest|, 3, k
  {
    ks := SearchExplained(rest, src, s + k, caps);
    j := k;
    if Search(rest, src, s + k, caps) == Fail && k > 0 {
      j, ks := SearchDownExplained(rest, src, s, caps, k - 1);
    }
  }

  lemma {:induction false} SearchUpExplained(rest: seq<Item>, cls: CharClass, src: string, s: nat, caps: seq<Capture>)
      returns (j: nat, ks: seq<nat>)
    requires s <= |src| && CapsOk(caps, s)
    ensures UpExplains(rest, cls, src, s, caps, j, ks)
    decreases |rest|, 3, |src| - s
  {
    ks := SearchExplained(rest, src, s, caps);
    j := 0;
    if Search(rest, src, s, caps) == Fail && HasAt(cls, src, s) {
      j, ks := SearchUpExplained(rest, cls, src, s + 1, caps);
      j := j + 1;
    }
  }

  lemma RepDerives(items: seq<Item>, src: string, s: nat, caps: seq<Capture>, ks: seq<nat>, out: Outcome)
    requires s <= |src| && CapsOk(caps, s) && items != [] && items[0].Rep?
    ensures Derives(items, src, s, caps, ks, out) <==>
            && |ks| == |items| && !out.Fail? && AllowedCount(items[0].rep, ks[0])
            && AllHave(items[0].cls, src, s, ks[0])
            && Derives(items[1..], src, s + ks[0], caps, ks[1..], out)
  {
  }

  /** `k` repetitions of the first item and then `ks` are the best way to derive `r`, if `r` is no failure;
      no number of repetitions leads anywhere, if `r` is a failure. */
  ghost predicate BestCount(items: seq<Item>, src: string, s: nat, caps: seq<Capture>, r: Outcome, k: nat, ks: seq<nat>)
    requires items != [] && items[0].Rep? && s <= |src| && CapsOk(caps, s)
  {
    var cls, rep, rest := items[0].cls, items[0].rep, items[1..];
    && (!r.Fail? ==>
          && AllowedCount(rep, k) && AllHave(cls, src, s, k)
          && Derives(rest, src, s + k, caps, ks, r) && IsFirst(rest, src, s + k, caps, ks)
          && forall t: nat :: s <= t <= |src| && t != s + k && AllowedCount(rep, t - s) && AllHave(cls, src, s, t - s)
               ==> NoDerivation(rest, src, t, caps) || (if rep == Lazy then s + k < t else t < s + k))
    && (r.Fail? ==>
          forall t: nat :: s <= t <= |src| && AllowedCount(rep, t - s) && AllHave(cls, src, s, t - s)
            ==> NoDerivation(rest, src, t, caps))
  }

  /** From the best count for the first item to the best derivation of the whole list. */
  lemma BestCountExplains(items: seq<Item>, src: string, s: nat, caps: seq<Capture>, r: Outcome, k: nat, ks: seq<nat>)
    requires items != [] && items[0].Rep? && s <= |src| && CapsOk(caps, s)
    requires BestCount(items, src, s, caps, r, k, ks)
    ensures Explains(items, src, s, caps, r, [k] + ks)
  {
    var all, rest := [k] + ks, items[1..];
    assert all[1..] == ks;
    RepDerives(items, src, s, caps, all, r);
    forall js, out | Derives(items, src, s, caps, js, out)
      ensures !r.Fail? && (js == all || Earlier(items, all, js))
    {
      RepDerives(items, src, s, caps, js, out);
      assert js == [js[0]] + js[1..];
      if js[0] == k {
        assert !r.Fail? ==> js[1..] == ks || Earlier(rest, ks, js[1..]);
      }
      assert !NoDerivation(rest, src, s + js[0], caps);
    }
  }

  /** The central induction: the search explains itself by a derivation or by the absence of one. */
  lemma {:induction false} SearchExplained(items: seq<Item>, src: string, s: nat, caps: seq<Capture>)
      returns (ks: seq<nat>)
    requires s <= |src| && CapsOk(caps, s)
    ensures Explains(items, src, s, caps, Search(items, src, s, caps), ks)
    decreases |items|, 2
  {
    ks := [];
    if items != [] {
      if items[0].Rep? {
        ks := RepExplained(items, src, s, caps);
      } else {
        ks := StepExplained(items, src, s, caps);
      }
    }
  }

  /** An item that is refused ends every choice. */
  lemma RefusedExplained(items: seq<Item>, src: string, s: nat, caps: seq<Capture>) returns (ks: seq<nat>)
    requires s <= |src| && CapsOk(caps, s) && items != [] && Refused(items[0], caps)
    ensures Search(items, src, s, caps) == Raise && Explains(items, src, s, caps, Raise, ks)
  {
    ks := seq(|items|, _ => 0);
    forall js, out | Derives(items, src, s, caps, js, out) ensures js == ks { }
  }

  lemma {:induction false} StepExplained(items: seq<Item>, src: string, s: nat, caps: seq<Capture>)
      returns (ks: seq<nat>)
    requires s <= |src| && CapsOk(caps, s) && items != [] && !items[0].Rep?
    ensures Explains(items, src, s, caps, Search(items, src, s, caps), ks)
    decreases |items|, 1
  {
    var rest, r := items[1..], Search(items, src, s, caps);
    var s', caps' := s, caps;
    if Refused(items[0], caps) {
      ks := RefusedExplained(items, src, s, caps);
      return;
    }
    ks := [];
    match items[0] {
      case OpenCapture => caps' := Open(caps, s, CAP_UNFINISHED);
      case PositionCapture => caps' := Open(caps, s, CAP_POSITION);
      case CloseCapture => caps' := Close(caps, LastOpen(caps).value, s);
      case Balance(open, close) =>
        var e := BalanceEnd(src, open, close, s);
        if e.None? { return; }
        s' := e.value;
      case Frontier(cls) => if !AtFrontier(cls, src, s) { return; }
      case BackRef(l) =>
        if !RefersTo(src, caps, l, s) { return; }
        s' := s + caps[l].len;
      case EndAnchor => if s != |src| { return; }
    }
    ks := SearchExplained(rest, src, s', caps');
    forall js, out | Derives(rest, src, s', caps', js, out)
      ensures Derives(items, src, s, caps, [0] + js, out)
    {
      assert ([0] + js)[1..] == js;
    }
    Forced(items, src, s, caps, 0, s', caps', r, ks);
    ks := [0] + ks;
  }

  lemma {:induction false} RepExplained(items: seq<Item>, src: string, s: nat, caps: seq<Capture>)
      returns (ks: seq<nat>)
    requires s <= |src| && CapsOk(caps, s) && items != [] && items[0].Rep?
    ensures Explains(items, src, s, caps, Search(items, src, s, caps), ks)
    decreases |items|, 1
  {
    var k;
    k, ks := RepCounted(items, src, s, caps);
    BestCountExplains(items, src, s, caps, Search(items, src, s, caps), k, ks);
    ks := [k] + ks;
  }

  lemma {:induction false} RepCounted(items: seq<Item>, src: string, s: nat, caps: seq<Capture>)
      returns (k: nat, ks: seq<nat>)
    requires s <= |src| && CapsOk(caps, s) && items != [] && items[0].Rep?
    ensures BestCount(items, src, s, caps, Search(items, src, s, caps), k, ks)
    decreases |items|, 0
  {
    var cls, rest := items[0].cls, items[1..];
    match items[0].rep {
      case Once =>
        k, ks := 1, [];
        if HasAt(cls, src, s) { ks := SearchExplained(rest, src, s + 1, caps); }
        OnceCounted(items, src, s, caps, ks);
      case Optional =>
        k, ks := SearchDownExplained(rest, src, s, caps, if HasAt(cls, src, s) then 1 else 0);
        DownCounted(items, src, s, caps, k, ks, if HasAt(cls, src, s) then 1 else 0);
      case Greedy =>
        k, ks := SearchDownExplained(rest, src, s, caps, Run(cls, src, s));
        DownCounted(items, src, s, caps, k, ks, Run(cls, src, s));
      case GreedyPlus =>
        k, ks := 0, [];
        if HasAt(cls, src, s) { k, ks := SearchDownExplained(rest, src, s + 1, caps, Run(cls, src, s + 1)); }
        PlusCounted(items, src, s, caps, k, ks);
        k := k + 1;
      case Lazy =>
        k, ks := SearchUpExplained(rest, cls, src, s, caps);
        UpCounted(items, src, s, caps, k, ks);
    }
  }

  lemma RunFacts(cls: CharClass, src: string, s: nat)
    requires s <= |src|
    ensures AllHave(cls, src, s, 1) <==> HasAt(cls, src, s)
    ensures HasAt(cls, src, s) ==> Run(cls, src, s) == 1 + Run(cls, src, s + 1)
    ensures forall i: nat :: AllHave(cls, src, s, i) ==> i <= Run(cls, src, s) && (i > 0 ==> HasAt(cls, src, s))
  {
  }

  lemma OnceCounted(items: seq<Item>, src: string, s: nat, caps: seq<Capture>, ks: seq<nat>)
    requires s <= |src| && CapsOk(caps, s) && items != [] && items[0].Rep? && items[0].rep == Once
    requires HasAt(items[0].cls, src, s) ==>
               Explains(items[1..], src, s + 1, caps, Search(items[1..], src, s + 1, caps), ks)
    ensures BestCount(items, src, s, caps, Search(items, src, s, caps), 1, ks)
  {
    RunFacts(items[0].cls, src, s);
  }

  lemma DownCounted(items: seq<Item>, src: string, s: nat, caps: seq<Capture>, k: nat, ks: seq<nat>, n: nat)
    requires s <= |src| && CapsOk(caps, s) && items != [] && items[0].Rep?
    requires match items[0].rep
             case Greedy => n == Run(items[0].cls, src, s)
             case Optional => n == if HasAt(items[0].cls, src, s) then 1 else 0
             case _ => false
    requires DownExplains(items[1..], src, s, caps, n, k, ks)
    ensures BestCount(items, src, s, caps, Search(items, src, s, caps), k, ks)
  {
    RunFacts(items[0].cls, src, s);
  }

  lemma UpCounted(items: seq<Item>, src: string, s: nat, caps: seq<Capture>, k: nat, ks: seq<nat>)
    requires s <= |src| && CapsOk(caps, s) && items != [] && items[0].Rep? && items[0].rep == Lazy
    requires UpExplains(items[1..], items[0].cls, src, s, caps, k, ks)
    ensures BestCount(items, src, s, caps, Search(items, src, s, caps), k, ks)
  {
    RunFacts(items[0].cls, src, s);
  }

  lemma PlusCounted(items: seq<Item>, src: string, s: nat, caps: seq<Capture>, k: nat, ks: seq<nat>)
    requires s <= |src| && CapsOk(caps, s) && items != [] && items[0].Rep? && items[0].rep == GreedyPlus
    requires HasAt(items[0].cls, src, s) ==>
               DownExplains(items[1..], src, s + 1, caps, Run(items[0].cls, src, s + 1), k, ks)
    ensures BestCount(items, src, s, caps, Search(items, src, s, caps), k + 1, ks)
  {
    var cls := items[0].cls;
    RunFacts(cls, src, s);
    if HasAt(cls, src, s) && !Search(items, src, s, caps).Fail? {
      assert AllHave(cls, src, s, 1 + k);
    }
  }

  // ---------------------------------------------------------------- the first match is unique

  /** Where an item that is not refused leads to, for a number of repetitions. */
  ghost function After(item: Item, src: string, s: nat, caps: seq<Capture>, k: nat): (nat, seq<Capture>)
    requires s <= |src| && CapsOk(caps, s) && !Refused(item, caps)
  {
    match item
    case OpenCapture => (s, Open(caps, s, CAP_UNFINISHED))
    case PositionCapture => (s, Open(caps, s, CAP_POSITION))
    case CloseCapture => (s, Close(caps, LastOpen(caps).value, s))
    case Balance(open, close) =>
      var e := BalanceEnd(src, open, close, s); (if e.Some? then e.value else s, caps)
    case BackRef(l) => (if caps[l].len >= 0 then s + caps[l].len else s, caps)
    case Rep(_, _) => (s + k, caps)
    case _ => (s, caps)
  }

  lemma BalanceAfter(items: seq<Item>, src: string, s: nat, caps: seq<Capture>, ks: seq<nat>, out: Outcome)
    requires s <= |src| && CapsOk(caps, s) && items != [] && !Refused(items[0], caps)
    requires items[0].Balance? && Derives(items, src, s, caps, ks, out)
    ensures var (s', caps') := After(items[0], src, s, caps, ks[0]);
            s' <= |src| && CapsOk(caps', s') && Derives(items[1..], src, s', caps', ks[1..], out)
  {
    var item := items[0];
    var e: nat :| BalancedTo(src, item.open, item.close, s, e) && Derives(items[1..], src, e, caps, ks[1..], out);
    hide BalancedTo, Derives;
  }

  lemma CloseAfter(items: seq<Item>, src: string, s: nat, caps: seq<Capture>, ks: seq<nat>, out: Outcome)
    requires s <= |src| && CapsOk(caps, s) && items != [] && !Refused(items[0], caps)
    requires items[0].CloseCapture? && Derives(items, src, s, caps, ks, out)
    ensures var (s', caps') := After(items[0], src, s, caps, ks[0]);
            s' <= |src| && CapsOk(caps', s') && Derives(items[1..], src, s', caps', ks[1..], out)
  {
  }

  lemma OpenAfter(items: seq<Item>, src: string, s: nat, caps: seq<Capture>, ks: seq<nat>, out: Outcome)
    requires s <= |src| && CapsOk(caps, s) && items != [] && !Refused(items[0], caps)
    requires (items[0].OpenCapture? || items[0].PositionCapture?) && Derives(items, src, s, caps, ks, out)
    ensures var (s', caps') := After(items[0], src, s, caps, ks[0]);
            s' <= |src| && CapsOk(caps', s') && Derives(items[1..], src, s', caps', ks[1..], out)
  {
  }

  lemma RefAfter(items: seq<Item>, src: string, s: nat, caps: seq<Capture>, ks: seq<nat>, out: Outcome)
    requires s <= |src| && CapsOk(caps, s) && items != [] && !Refused(items[0], caps)
    requires items[0].BackRef? && Derives(items, src, s, caps, ks, out)
    ensures var (s', caps') := After(items[0], src, s, caps, ks[0]);
            s' <= |src| && CapsOk(caps', s') && Derives(items[1..], src, s', caps', ks[1..], out)
  {
  }

  lemma OtherAfter(items: seq<Item>, src: string, s: nat, caps: seq<Capture>, ks: seq<nat>, out: Outcome)
    requires s <= |src| && CapsOk(caps, s) && items != [] && !Refused(items[0], caps)
    requires (items[0].Frontier? || items[0].EndAnchor? || items[0].Rep?) && Derives(items, src, s, caps, ks, out)
    ensures var (s', caps') := After(items[0], src, s, caps, ks[0]);
            s' <= |src| && CapsOk(caps', s') && Derives(items[1..], src, s', caps', ks[1..], out)
  {
  }

  lemma DerivesAfter(items: seq<Item>, src: string, s: nat, caps: seq<Capture>, ks: seq<nat>, out: Outcome)
    requires s <= |src| && CapsOk(caps, s) && items != [] && !Refused(items[0], caps)
    requires Derives(items, src, s, caps, ks, out)
    ensures var (s', caps') := After(items[0], src, s, caps, ks[0]);
            s' <= |src| && CapsOk(caps', s') && Derives(items[1..], src, s', caps', ks[1..], out)
  {
    hide Derives, After, CapsOk;
    match items[0]
    case OpenCapture => OpenAfter(items, src, s, caps, ks, out);
    case PositionCapture => OpenAfter(items, src, s, caps, ks, out);
    case CloseCapture => CloseAfter(items, src, s, caps, ks, out);
    case Balance(_, _) => BalanceAfter(items, src, s, caps, ks, out);
    case BackRef(_) => RefAfter(items, src, s, caps, ks, out);
    case Bad =>
    case _ => OtherAfter(items, src, s, caps, ks, out);
  }

  lemma {:induction false} DerivesUnique(items: seq<Item>, src: string, s: nat, caps: seq<Capture>, ks: seq<nat>,
                                         out: Outcome, out': Outcome)
    requires s <= |src| && CapsOk(caps, s)
    requires Derives(items, src, s, caps, ks, out) && Derives(items, src, s, caps, ks, out')
    ensures out == out'
    decreases |items|
  {
    if items != [] && !Refused(items[0], caps) {
      hide Derives, CapsOk, After;
      DerivesAfter(items, src, s, caps, ks, out);
      DerivesAfter(items, src, s, caps, ks, out');
      var (s', caps') := After(items[0], src, s, caps, ks[0]);
      DerivesUnique(items[1..], src, s', caps', ks[1..], out, out');
    }
  }

  lemma {:induction false} EarlierAsymmetric(items: seq<Item>, ks: seq<nat>, js: seq<nat>)
    requires |ks| == |js| == |items|
    requires Earlier(items, ks, js)
    ensures ks != js && !Earlier(items, js, ks)
    decreases |items|
  {
    if ks[0] == js[0] { EarlierAsymmetric(items[1..], ks[1..], js[1..]); }
  }

  lemma FirstUnique(items: seq<Item>, src: string, s: nat, caps: seq<Capture>, out: Outcome, out': Outcome)
    requires s <= |src| && CapsOk(caps, s)
    requires IsFirstOutcome(items, src, s, caps, out) && IsFirstOutcome(items, src, s, caps, out')
    ensures out == out'
  {
    var ks :| Derives(items, src, s, caps, ks, out) && IsFirst(items, src, s, caps, ks);
    var js :| Derives(items, src, s, caps, js, out') && IsFirst(items, src, s, caps, js);
    if ks != js {
      EarlierAsymmetric(items, ks, js);
    }
    DerivesUnique(items, src, s, caps, ks, out, out');
  }

  // ---------------------------------------------------------------- well-formed patterns never raise

  ghost function Shape(caps: seq<Capture>): (r: seq<bool>)
    ensures |r| == |caps|
  {
    seq(|caps|, i requires 0 <= i < |caps| => caps[i].len == CAP_UNFINISHED)
  }

  /** A static check of a pattern. `open[i]` says whether capture `i` is still open at this point of the
      pattern; it does not depend on the subject. */
  predicate WellFormed(items: seq<Item>, open: seq<bool>)
    decreases |items|
  {
    if items == [] then true !in open
    else
      var rest := items[1..];
      match items[0]
      case OpenCapture => |open| < MAXCAPTURES && WellFormed(rest, open + [true])
      case PositionCapture => |open| < MAXCAPTURES && WellFormed(rest, open + [false])
      case CloseCapture => LastTrue(open).Some? && WellFormed(rest, open[LastTrue(open).value := false])
      case BackRef(l) => 0 <= l < |open| && !open[l] && WellFormed(rest, open)
      case Bad => false
      case _ => WellFormed(rest, open)
  }

  function LastTrue(open: seq<bool>): (r: Option<nat>)
    ensures r.Some? ==> r.value < |open| && open[r.value]
  {
    if open == [] then None
    else if open[|open| - 1] then Some(|open| - 1)
    else LastTrue(open[..|open| - 1])
  }

  lemma LastTrueOfShape(caps: seq<Capture>)
    ensures LastTrue(Shape(caps)) == LastOpen(caps)
  {
    if caps != [] {
      assert Shape(caps)[..|caps| - 1] == Shape(caps[..|caps| - 1]);
    }
  }

  ghost predicate Settled(r: Outcome) {
    !r.Raise? && (r.Match? ==> forall i :: 0 <= i < |r.caps| ==> r.caps[i].len != CAP_UNFINISHED)
  }

  lemma {:induction false} WellFormedSettles(items: seq<Item>, src: string, s: nat, caps: seq<Capture>)
    requires s <= |src| && CapsOk(caps, s) && WellFormed(items, Shape(caps))
    ensures Settled(Search(items, src, s, caps))
    decreases |items|, 0
  {
    if items == [] {
      forall i | 0 <= i < |caps| ensures caps[i].len != CAP_UNFINISHED {
        assert Shape(caps)[i] in Shape(caps);
      }
    } else {
      var rest := items[1..];
      match items[0] {
        case OpenCapture =>
          assert Shape(Open(caps, s, CAP_UNFINISHED)) == Shape(caps) + [true];
          WellFormedSettles(rest, src, s, Open(caps, s, CAP_UNFINISHED));
        case PositionCapture =>
          assert Shape(Open(caps, s, CAP_POSITION)) == Shape(caps) + [false];
          WellFormedSettles(rest, src, s, Open(caps, s, CAP_POSITION));
        case CloseCapture =>
          LastTrueOfShape(caps);
          var l := LastOpen(caps).value;
          assert Shape(Close(caps, l, s)) == Shape(caps)[l := false];
          WellFormedSettles(rest, src, s, Close(caps, l, s));
        case Balance(open, close) =>
          var e := BalanceEnd(src, open, close, s);
          if e.Some? { WellFormedSettles(rest, src, e.value, caps); }
        case BackRef(l) =>
          if RefersTo(src, caps, l, s) { WellFormedSettles(rest, src, s + caps[l].len, caps); }
        case Rep(cls, rep) => RepSettles(items, src, s, caps);
        case Frontier(_) | EndAnchor => WellFormedSettles(rest, src, s, caps);
      }
    }
  }

  lemma {:induction false} RepSettles(items: seq<Item>, src: string, s: nat, caps: seq<Capture>)
    requires s <= |src| && CapsOk(caps, s) && WellFormed(items, Shape(caps)) && items != [] && items[0].Rep?
    ensures Settled(Search(items, src, s, caps))
    decreases |items| - 1, 2
  {
    var cls, rest := items[0].cls, items[1..];
    match items[0].rep {
      case Once => if HasAt(cls, src, s) { WellFormedSettles(rest, src, s + 1, caps); }
      case Optional => DownSettles(rest, src, s, caps, if HasAt(cls, src, s) then 1 else 0);
      case Greedy => DownSettles(rest, src, s, caps, Run(cls, src, s));
      case GreedyPlus => if HasAt(cls, src, s) { DownSettles(rest, src, s + 1, caps, Run(cls, src, s + 1)); }
      case Lazy => UpSettles(rest, cls, src, s, caps);
    }
  }

  lemma {:induction false} DownSettles(rest: seq<Item>, src: string, s: nat, caps: seq<Capture>, k: nat)
    requires s + k <= |src| && CapsOk(caps, s) && WellFormed(rest, Shape(caps))
    ensures Settled(SearchDown(rest, src, s, caps, k))
    decreases |rest|, 1, k
  {
    WellFormedSettles(rest, src, s + k, caps);
    if k > 0 { DownSettles(rest, src, s, caps, k - 1); }
  }

  lemma {:induction false} UpSettles(rest: seq<Item>, cls: CharClass, src: string, s: nat, caps: seq<Capture>)
    requires s <= |src| && CapsOk(caps, s) && WellFormed(rest, Shape(caps))
    ensures Settled(SearchUp(rest, cls, src, s, caps))
    decreases |rest|, 1, |src| - s
  {
    WellFormedSettles(rest, src, s, caps);
    if HasAt(cls, src, s) { UpSettles(rest, cls, src, s + 1, caps); }
  }

  // ---------------------------------------------------------------- main results

  /** For every pattern and subject: a reported match is the first one, and a reported failure means that
      there is none. */
  lemma SearchIsFirstMatch(items: seq<Item>, src: string, s: nat, caps: seq<Capture>)
    requires s <= |src| && CapsOk(caps, s)
    ensures var r := Search(items, src, s, caps);
            && (r.Match? ==> IsFirstMatch(items, src, s, caps, r))
            && (r.Fail? ==> NoDerivation(items, src, s, caps))
            && (r.Raise? ==> IsFirstOutcome(items, src, s, caps, Raise))
  {
    var ks := SearchExplained(items, src, s, caps);
  }

  /** For every pattern, well-formed or not: a match or an error is reported exactly if it is what the first of the
      choices that lead to either leads to, and a failure exactly if no choice does. */
  lemma OutcomeExactly(items: seq<Item>, src: string, s: nat, caps: seq<Capture>, out: Outcome)
    requires s <= |src| && CapsOk(caps, s)
    ensures Search(items, src, s, caps) == out <==>
            if out.Fail? then NoDerivation(items, src, s, caps) else IsFirstOutcome(items, src, s, caps, out)
  {
    var r := Search(items, src, s, caps);
    var ks := SearchExplained(items, src, s, caps);
    hide Search, Derives;
    if !r.Fail? && IsFirstOutcome(items, src, s, caps, out) { FirstUnique(items, src, s, caps, r, out); }
  }

  /** For a well-formed pattern, a match is reported exactly when there is one, and all its captures are
      finished. */
  lemma WellFormedSoundComplete(p: string, src: string, s: nat)
    requires s <= |src| && WellFormed(Parse(p, 0), [])
    ensures var (items, r) := (Parse(p, 0), Search(Parse(p, 0), src, s, []));
            && (r.Match? <==> exists out :: IsMatch(items, src, s, [], out))
            && Settled(r)
  {
    assert Shape([]) == [];
    WellFormedSettles(Parse(p, 0), src, s, []);
    SearchIsFirstMatch(Parse(p, 0), src, s, []);
    var r := Search(Parse(p, 0), src, s, []);
    if r.Match? {
      assert IsMatch(Parse(p, 0), src, s, [], r);
    }
    if r.Fail? {
      forall out ensures !IsMatch(Parse(p, 0), src, s, [], out) { }
    }
  }

  /** For a well-formed pattern, what is reported is a match exactly if it is the first one. */
  lemma FirstMatchExactly(p: string, src: string, s: nat, out: Outcome)
    requires s <= |src| && WellFormed(Parse(p, 0), [])
    ensures Search(Parse(p, 0), src, s, []) == out && out.Match? <==> IsFirstMatch(Parse(p, 0), src, s, [], out)
  {
    var items, r := Parse(p, 0), Search(Parse(p, 0), src, s, []);
    WellFormedSoundComplete(p, src, s);
    SearchIsFirstMatch(items, src, s, []);
    if IsFirstMatch(items, src, s, [], out) {
      assert IsMatch(items, src, s, [], out);
      FirstUnique(items, src, s, [], r, out);
    }
  }
}
