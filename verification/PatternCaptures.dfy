/** What captures hold (lua/lstrlib.c:330-362; section 5.4.1 of the Lua 5.1 Reference Manual): the part of the subject
    that
    the items between the parentheses match, or a position. */
module PatternCaptures {
  import opened PatternSyntax
  import opened PatternSpec

  predicate IsCapture(item: Item) { item.OpenCapture? || item.PositionCapture? || item.CloseCapture? }

  predicate NoCaptures(items: seq<Item>) { forall i :: 0 <= i < |items| ==> !IsCapture(items[i]) }

  /** The items `a` match from `s` to `e` and leave the captures as they are, and the items `b` match from there. */
  ghost predicate Divides(a: seq<Item>, b: seq<Item>, src: string, s: nat, caps: seq<Capture>, ks: seq<nat>,
                          out: Outcome,
                          e: nat)
    requires s <= |src| && CapsOk(caps, s) && |ks| == |a| + |b|
  {
    && s <= e <= |src| && Derives(a, src, s, caps, ks[..|a|], Match(e, caps))
    && Derives(b, src, e, caps, ks[|a|..], out)
  }

  lemma {:induction false} DerivesBoth(a: seq<Item>, b: seq<Item>, src: string, s: nat, caps: seq<Capture>,
                                       ks: seq<nat>,
                                       out: Outcome)
    requires s <= |src| && CapsOk(caps, s) && NoCaptures(a) && out.Match? && Derives(a + b, src, s, caps, ks, out)
    ensures exists e :: Divides(a, b, src, s, caps, ks, out, e)
    decreases |a|
  {
    if a == [] {
      assert a + b == b && ks[|a|..] == ks;
      assert Divides(a, b, src, s, caps, ks, out, s);
    } else {
      hide Derives, Goes;
      assert (a + b)[0] == a[0] && (a + b)[1..] == a[1..] + b && !IsCapture(a[0]) && NoCaptures(a[1..]);
      var s' := AfterFirst(a + b, src, s, caps, ks, out);
      DerivesBoth(a[1..], b, src, s', caps, ks[1..], out);
      var e :| Divides(a[1..], b, src, s', caps, ks[1..], out, e);
      assert ks[1..][|a| - 1..] == ks[|a|..] && ks[..|a|][1..] == ks[1..][..|a| - 1];
      FirstThen(a, src, s, s', caps, ks[..|a|], Match(e, caps));
      assert Divides(a, b, src, s, caps, ks, out, e);
    }
  }

  /** How far the first item goes, if it is no capture. */
  ghost predicate Goes(item: Item, src: string, s: nat, caps: seq<Capture>, k: nat, s': nat)
    requires s <= |src| && CapsOk(caps, s)
  {
    match item
    case Balance(open, close) => k == 0 && BalancedTo(src, open, close, s, s')
    case Frontier(cls) => k == 0 && AtFrontier(cls, src, s) && s' == s
    case BackRef(l) => k == 0 && ValidRef(caps, l) && RefersTo(src, caps, l, s) && s' == s + caps[l].len
    case EndAnchor => k == 0 && s == |src| && s' == s
    case Rep(cls, rep) => AllowedCount(rep, k) && AllHave(cls, src, s, k) && s' == s + k
    case _ => false
  }

  lemma AfterFirst(items: seq<Item>, src: string, s: nat, caps: seq<Capture>, ks: seq<nat>, out: Outcome)
      returns (s': nat)
    requires s <= |src| && CapsOk(caps, s) && items != [] && !IsCapture(items[0])
    requires out.Match? && Derives(items, src, s, caps, ks, out)
    ensures Goes(items[0], src, s, caps, ks[0], s') && s <= s' <= |src|
    ensures Derives(items[1..], src, s', caps, ks[1..], out)
  {
    match items[0]
    case Balance(open, close) =>
      s' :| BalancedTo(src, open, close, s, s') && Derives(items[1..], src, s', caps, ks[1..], out);
    case BackRef(l) => s' := s + caps[l].len;
    case Rep(_, _) => s' := s + ks[0];
    case _ => s' := s;
  }

  lemma FirstThen(a: seq<Item>, src: string, s: nat, s': nat, caps: seq<Capture>, ks: seq<nat>, out: Outcome)
    requires s <= s' <= |src| && CapsOk(caps, s) && a != [] && |ks| == |a|
    requires Goes(a[0], src, s, caps, ks[0], s') && Derives(a[1..], src, s', caps, ks[1..], out)
    ensures out.Match? ==> Derives(a, src, s, caps, ks, out)
  {
  }

  // ---------------------------------------------------------------- finished captures

  /** A capture that is finished does not change any more. */
  ghost predicate FinishedStay(caps: seq<Capture>, caps': seq<Capture>) {
    |caps| <= |caps'| && forall i :: 0 <= i < |caps| && caps[i].len != CAP_UNFINISHED ==> caps'[i] == caps[i]
  }

  lemma {:induction false} DerivesKeeps(items: seq<Item>, src: string, s: nat, caps: seq<Capture>, ks: seq<nat>,
                                        out: Outcome)
    requires s <= |src| && CapsOk(caps, s) && out.Match? && Derives(items, src, s, caps, ks, out)
    ensures FinishedStay(caps, out.caps)
    decreases |items|
  {
    if items != [] {
      var rest, ks' := items[1..], ks[1..];
      if items[0].OpenCapture? {
        DerivesKeeps(rest, src, s, Open(caps, s, CAP_UNFINISHED), ks', out);
      } else if items[0].PositionCapture? {
        DerivesKeeps(rest, src, s, Open(caps, s, CAP_POSITION), ks', out);
      } else if items[0].CloseCapture? {
        DerivesKeeps(rest, src, s, Close(caps, LastOpen(caps).value, s), ks', out);
      } else {
        hide Derives, Goes;
        var s' := AfterFirst(items, src, s, caps, ks, out);
        DerivesKeeps(rest, src, s', caps, ks', out);
      }
    }
  }

  // ---------------------------------------------------------------- main results

  /** The items between the parentheses match from `s` to `e`; the capture holds exactly this part, and the rest goes on
      from there. */
  ghost predicate Captures(inner: seq<Item>, rest: seq<Item>, src: string, s: nat, caps: seq<Capture>, out: Outcome,
                           e: nat)
    requires s <= |src| && CapsOk(caps, s)
  {
    && |caps| < MAXCAPTURES && s <= e <= |src| && out.Match?
    && IsMatch(inner, src, s, caps + [Capture(s, CAP_UNFINISHED)], Match(e, caps + [Capture(s, CAP_UNFINISHED)]))
    && IsMatch(rest, src, e, caps + [Capture(s, e - s)], out)
    && |out.caps| > |caps| && out.caps[|caps|] == Capture(s, e - s)
  }

  lemma CaptureHolds(inner: seq<Item>, rest: seq<Item>, src: string, s: nat, caps: seq<Capture>, out: Outcome)
    requires s <= |src| && CapsOk(caps, s) && NoCaptures(inner)
    requires IsMatch([OpenCapture] + inner + [CloseCapture] + rest, src, s, caps, out)
    ensures exists e :: Captures(inner, rest, src, s, caps, out, e)
  {
    var items := [OpenCapture] + inner + [CloseCapture] + rest;
    var ks :| Derives(items, src, s, caps, ks, out);
    var caps1, b := caps + [Capture(s, CAP_UNFINISHED)], [CloseCapture] + rest;
    assert items[1..] == inner + b && Open(caps, s, CAP_UNFINISHED) == caps1;
    DerivesBoth(inner, b, src, s, caps1, ks[1..], out);
    var e :| Divides(inner, b, src, s, caps1, ks[1..], out, e);
    ClosesLast(rest, src, s, e, caps, ks[1..][|inner|..], out);
    assert Captures(inner, rest, src, s, caps, out, e);
  }

  lemma ClosesLast(rest: seq<Item>, src: string, s: nat, e: nat, caps: seq<Capture>, ks: seq<nat>, out: Outcome)
    requires s <= e <= |src| && CapsOk(caps, s) && |caps| < MAXCAPTURES
    requires out.Match? && Derives([CloseCapture] + rest, src, e, caps + [Capture(s, CAP_UNFINISHED)], ks, out)
    ensures IsMatch(rest, src, e, caps + [Capture(s, e - s)], out)
    ensures |out.caps| > |caps| && out.caps[|caps|] == Capture(s, e - s)
  {
    var caps1, caps2 := caps + [Capture(s, CAP_UNFINISHED)], caps + [Capture(s, e - s)];
    assert ([CloseCapture] + rest)[1..] == rest;
    assert LastOpen(caps1).value == |caps| && Close(caps1, |caps|, e) == caps2;
    DerivesKeeps(rest, src, e, caps2, ks[1..], out);
    assert out.caps[|caps|] == caps2[|caps|];
  }

  /** An empty pair of parentheses captures the position. */
  lemma PositionHolds(rest: seq<Item>, src: string, s: nat, caps: seq<Capture>, out: Outcome)
    requires s <= |src| && CapsOk(caps, s) && IsMatch([PositionCapture] + rest, src, s, caps, out)
    ensures |out.caps| > |caps| && out.caps[|caps|] == Capture(s, CAP_POSITION)
  {
    var ks :| Derives([PositionCapture] + rest, src, s, caps, ks, out);
    assert ([PositionCapture] + rest)[1..] == rest;
    var caps1 := Open(caps, s, CAP_POSITION);
    DerivesKeeps(rest, src, s, caps1, ks[1..], out);
    assert out.caps[|caps|] == caps1[|caps|];
  }
}
