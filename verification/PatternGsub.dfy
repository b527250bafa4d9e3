/** `string.gsub` (lua/lstrlib.c:643-680): which matches it replaces, and what it leaves. */
module PatternGsub {
  import opened Wrappers
  import opened PatternSyntax
  import opened PatternSpec
  import opened PatternMatcher

  datatype Hit = Hit(start: nat, end: nat, caps: seq<Capture>)

  /** What a match is replaced by; `None` if making it raises an error. */
  type Replacement = Hit -> Option<string>

  /** Where the search goes on after a match: an empty one is not found twice. */
  function Onward(h: Hit): nat { if h.end > h.start then h.end else h.start + 1 }

  /** Where the search for match `i` began. */
  function Begin(hits: seq<Hit>, i: nat): nat
    requires i <= |hits|
  {
    if i == 0 then 0 else Onward(hits[i - 1])
  }

  /** Match `i` is the first match at its place, and there is none from where the search began. */
  ghost predicate HitOk(items: seq<Item>, src: string, hits: seq<Hit>, i: nat)
    requires i < |hits|
  {
    var h := hits[i];
    && Begin(hits, i) <= h.start <= h.end <= |src| && IsFirstMatch(items, src, h.start, [], Match(h.end, h.caps))
    && NoneBetween(items, src, Begin(hits, i), h.start)
  }

  ghost predicate NoneBetween(items: seq<Item>, src: string, from: nat, to: int) {
    forall p :: from <= p < to && p <= |src| ==> NoMatchAt(items, src, p)
  }

  ghost predicate HitsOk(items: seq<Item>, src: string, hits: seq<Hit>) {
    forall i :: 0 <= i < |hits| ==> HitOk(items, src, hits, i)
  }

  /** The subject up to `upto` with the matches replaced. */
  function Made(src: string, hits: seq<Hit>, repl: Replacement, upto: nat): string {
    if hits == [] then Piece(src, 0, upto)
    else
      var h := hits[|hits| - 1];
      Made(src, hits[..|hits| - 1], repl, h.start) + (if repl(h).Some? then repl(h).value else "")
        + Piece(src, h.end, upto)
  }

  function Piece(src: string, from: nat, to: nat): string { if from <= to <= |src| then src[from..to] else "" }

  ghost predicate AllMade(hits: seq<Hit>, repl: Replacement) { forall i :: 0 <= i < |hits| ==> repl(hits[i]).Some? }

  lemma HitsMore(items: seq<Item>, src: string, hits: seq<Hit>, h: Hit)
    requires HitsOk(items, src, hits) && Begin(hits, |hits|) <= h.start <= h.end <= |src|
    requires IsFirstMatch(items, src, h.start, [], Match(h.end, h.caps))
             && NoneBetween(items, src, Begin(hits, |hits|), h.start)
    ensures HitsOk(items, src, hits + [h])
  {
    var hits' := hits + [h];
    forall i | 0 <= i < |hits'| ensures HitOk(items, src, hits', i) {
      assert Begin(hits', i) == Begin(hits, i);
      if i < |hits| { assert HitOk(items, src, hits, i); }
    }
  }

  lemma MadeMore(src: string, hits: seq<Hit>, repl: Replacement, h: Hit, s: nat)
    requires repl(h).Some? && s <= |src|
    ensures h.end <= s ==>
              Made(src, hits + [h], repl, s) == Made(src, hits, repl, h.start) + repl(h).value + Piece(src, h.end, s)
  {
    assert (hits + [h])[..|hits|] == hits;
  }

  lemma PieceSplit(src: string, a: nat, b: nat, c: nat)
    requires a <= b <= c <= |src|
    ensures Piece(src, a, c) == Piece(src, a, b) + Piece(src, b, c)
  {
  }

  /** What has been made grows with the subject. */
  lemma MadeOn(src: string, hits: seq<Hit>, repl: Replacement, s: nat, t: nat)
    requires s <= t <= |src| && (hits != [] ==> hits[|hits| - 1].end <= s)
    ensures Made(src, hits, repl, t) == Made(src, hits, repl, s) + Piece(src, s, t)
  {
    var from := if hits == [] then 0 else hits[|hits| - 1].end;
    PieceSplit(src, from, s, t);
    hide Piece;
    if hits != [] {
      var h := hits[|hits| - 1];
      Assoc(Made(src, hits[..|hits| - 1], repl, h.start) + (if repl(h).Some? then repl(h).value else ""),
        Piece(src, from, s), Piece(src, s, t));
    }
  }

  datatype Answer = Replaced(out: string, n: nat) | Refused

  /** The matches up to `s` have been replaced, and `b` has been made. */
  ghost predicate Reached(items: seq<Item>, src: string, repl: Replacement, hits: seq<Hit>, s: nat, b: string) {
    && HitsOk(items, src, hits) && AllMade(hits, repl) && s <= |src| && (hits != [] ==> hits[|hits| - 1].end <= s)
    && b == Made(src, hits, repl, s)
  }

  /** There is no match that has not been replaced before `s`. */
  ghost predicate Searched(items: seq<Item>, src: string, hits: seq<Hit>, s: nat) {
    Begin(hits, |hits|) <= s && NoneBetween(items, src, Begin(hits, |hits|), s)
  }

  lemma AllMadeMore(hits: seq<Hit>, repl: Replacement, h: Hit)
    requires AllMade(hits, repl) && repl(h).Some?
    ensures AllMade(hits + [h], repl)
  {
  }

  lemma NoPiece(src: string, b: string, s: nat)
    ensures b + Piece(src, s, s) == b
  {
  }

  lemma AfterHit(items: seq<Item>, src: string, repl: Replacement, hits: seq<Hit>, s: nat, b: string, h: Hit)
    requires Reached(items, src, repl, hits, s, b) && Searched(items, src, hits, s) && repl(h).Some?
    requires h.start == s <= h.end <= |src| && IsFirstMatch(items, src, s, [], Match(h.end, h.caps))
    ensures Reached(items, src, repl, hits + [h], h.end, b + repl(h).value)
    ensures Begin(hits + [h], |hits| + 1) == Onward(h) && NoneBetween(items, src, Onward(h), Onward(h))
  {
    hide HitsOk, Made, Piece, AllMade;
    HitsMore(items, src, hits, h);
    MadeMore(src, hits, repl, h, h.end);
    AllMadeMore(hits, repl, h);
    NoPiece(src, b + repl(h).value, h.end);
  }

  lemma AfterChar(items: seq<Item>, src: string, repl: Replacement, hits: seq<Hit>, s: nat, b: string)
    requires Reached(items, src, repl, hits, s, b) && s < |src|
    ensures Reached(items, src, repl, hits, s + 1, b + [src[s]])
  {
    MadeOn(src, hits, repl, s, s + 1);
  }

  lemma NoHit(items: seq<Item>, src: string, hits: seq<Hit>, s: nat)
    requires Searched(items, src, hits, s) && s <= |src| && NoMatchAt(items, src, s)
    ensures NoneBetween(items, src, Begin(hits, |hits|), s + 1)
  {
  }

  /** `match` for one start. */
  method TryAt(ms: MatchState, s: nat) returns (e: PatternMatcher.Result)
    requires ms.Valid() && s <= |ms.src|
    modifies ms, ms.capture
    ensures ms.Valid() && ms.capture == old(ms.capture)
    ensures e == Null ==> NoMatchAt(Parse(ms.pat, 0), ms.src, s)
    ensures e.Pos? ==> s <= e.pos <= |ms.src| && IsFirstMatch(Parse(ms.pat, 0), ms.src, s, [], Match(e.pos, ms.Caps()))
    ensures e == Error ==> IsFirstOutcome(Parse(ms.pat, 0), ms.src, s, [], Raise)
    ensures PatternTheorems.WellFormed(Parse(ms.pat, 0), []) ==> e != Error
  {
    ghost var items := Parse(ms.pat, 0);
    ms.level := 0;
    assert ms.Caps() == [];
    e := ms.DoMatch(s, 0);
    PatternTheorems.SearchIsFirstMatch(items, ms.src, s, []);
    if PatternTheorems.WellFormed(items, []) { PatternTheorems.WellFormedSoundComplete(ms.pat, ms.src, s); }
  }

  /** At some place the first outcome is an error, or a match for which no replacement can be made. */
  ghost predicate RefusedAt(items: seq<Item>, src: string, repl: Replacement, s: nat) {
    && s <= |src|
    && (IsFirstOutcome(items, src, s, [], Raise) || exists h :: HitRefused(items, src, repl, s, h))
  }

  ghost predicate HitRefused(items: seq<Item>, src: string, repl: Replacement, s: nat, h: Hit)
    requires s <= |src|
  {
    h.start == s && IsFirstMatch(items, src, s, [], Match(h.end, h.caps)) && repl(h).None?
  }

  ghost predicate SomewhereRefused(items: seq<Item>, src: string, repl: Replacement) {
    exists s :: RefusedAt(items, src, repl, s)
  }

  /** `str_gsub`. `hits` are the matches that were replaced. */
  method Gsub(src: string, p: string, maxS: int, repl: Replacement) returns (r: Answer, ghost hits: seq<Hit>)
    ensures r.Replaced? ==>
              var (items, anchored) := (Parse(StripAnchor(p), 0), Anchored(p));
              && HitsOk(items, src, hits) && AllMade(hits, repl) && r.out == Made(src, hits, repl, |src|)
              && r.n == |hits|
              && (r.n == 0 || r.n <= maxS)
              && (anchored ==>
                    (hits == [] && (maxS > 0 ==> NoMatchAt(items, src, 0))) || (|hits| == 1 && hits[0].start == 0))
              && (!anchored && r.n < maxS ==> NoneBetween(items, src, Begin(hits, |hits|), |src| + 1))
    ensures r.Refused? ==> SomewhereRefused(Parse(StripAnchor(p), 0), src, repl)
    ensures PatternTheorems.WellFormed(Parse(StripAnchor(p), 0), []) && (forall h :: repl(h).Some?) ==> r.Replaced?
  {
    hide HitsOk, AllMade, NoneBetween, Made, Piece;
    var anchored := Anchored(p);
    var ms := new MatchState(src, StripAnchor(p));
    ghost var items := Parse(ms.pat, 0);
    var n: nat, s: nat, b := 0, 0, "";
    hits := [];
    AtFirst(items, src, repl);
    var stop := false;
    while n < maxS && !stop
      invariant ms.Valid() && fresh(ms) && fresh(ms.capture) && n == |hits| && (n == 0 || n <= maxS)
      invariant Reached(items, src, repl, hits, s, b)
      invariant !stop ==> Searched(items, src, hits, s) && (anchored ==> s == 0 && hits == [])
      invariant stop ==>
                  if anchored then (hits == [] && NoMatchAt(items, src, 0)) || (|hits| == 1 && hits[0].start == 0)
                         else NoneBetween(items, src, Begin(hits, |hits|), |src| + 1)
      decreases if stop then 0 else 1, |src| - s
    {
      var e := TryAt(ms, s);
      if e == Error {
        assert RefusedAt(items, src, repl, s);
        return Refused, hits;
      }
      var next := s;
      if e.Pos? {
        var h := Hit(s, e.pos, ms.capture[..ms.level]);
        n := n + 1;
        if repl(h).None? {
          assert HitRefused(items, src, repl, s, h) && RefusedAt(items, src, repl, s);
          return Refused, hits;
        }
        AfterHit(items, src, repl, hits, s, b, h);
        b := b + repl(h).value;
        hits := hits + [h];
        next := e.pos;
      } else {
        NoHit(items, src, hits, s);
      }
      if next > s {
        s := next;
      } else if s < |src| {
        AfterChar(items, src, repl, hits, s, b);
        b := b + [src[s]];
        s := s + 1;
      } else {
        stop := true;
      }
      stop := stop || anchored;
    }
    MadeOn(src, hits, repl, s, |src|);
    WholeRest(src, s);
    return Replaced(b + src[s..], n), hits;
  }

  lemma AtFirst(items: seq<Item>, src: string, repl: Replacement)
    ensures Reached(items, src, repl, [], 0, "") && Searched(items, src, [], 0)
  {
  }

  lemma WholeRest(src: string, s: nat)
    requires s <= |src|
    ensures Piece(src, s, |src|) == src[s..]
  {
  }

  /** Whatever the pattern, replacing each match by itself changes nothing. */
  lemma {:induction false} ItselfIsNothing(items: seq<Item>, src: string, hits: seq<Hit>, repl: Replacement, upto: nat)
    requires HitsOk(items, src, hits) && upto <= |src| && (hits != [] ==> hits[|hits| - 1].end <= upto)
    requires forall i :: 0 <= i < |hits| ==> repl(hits[i]) == Some(Piece(src, hits[i].start, hits[i].end))
    ensures Made(src, hits, repl, upto) == src[..upto]
    decreases |hits|
  {
    hide Piece, HitOk, HitsOk;
    if hits == [] {
      WholePiece(src, upto);
    } else {
      var n := |hits| - 1;
      var h, front := hits[n], hits[..n];
      FrontOk(items, src, hits);
      ItselfIsNothing(items, src, front, repl, h.start);
      WholePiece(src, h.start);
      WholePiece(src, upto);
      PieceSplit(src, 0, h.end, upto);
      PieceSplit(src, 0, h.start, h.end);
    }
  }

  lemma WholePiece(src: string, upto: nat)
    requires upto <= |src|
    ensures Piece(src, 0, upto) == src[..upto]
  {
  }

  lemma FrontOk(items: seq<Item>, src: string, hits: seq<Hit>)
    requires HitsOk(items, src, hits) && hits != []
    ensures var front, h := hits[..|hits| - 1], hits[|hits| - 1];
            HitsOk(items, src, front) && (front != [] ==> front[|front| - 1].end <= h.start)
              && h.start <= h.end <= |src|
  {
    var front, n := hits[..|hits| - 1], |hits| - 1;
    assert HitOk(items, src, hits, n);
    forall i | 0 <= i < n ensures HitOk(items, src, front, i) {
      assert HitOk(items, src, hits, i) && Begin(front, i) == Begin(hits, i);
    }
  }
}
