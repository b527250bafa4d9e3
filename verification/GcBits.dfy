/** The mark byte (lua/lgc.h:20-85, lua/lgc.c:29-45, 410-425): every macro does to the byte what the model does
    to the record, and the sweep's one test of a byte tells the dead from all others. */
module GcBits {
  import opened GcHeap
  import opened GcCollector

  const WHITE0: bv8 := 0x01
  const WHITE1: bv8 := 0x02
  const WHITEBITS: bv8 := 0x03
  const BLACKBIT: bv8 := 0x04
  const BIT3: bv8 := 0x08
  const VALUEWEAK: bv8 := 0x10
  const FIXEDBIT: bv8 := 0x20
  const SFIXEDBIT: bv8 := 0x40

  function If(b: bool, v: bv8): bv8 { if b then v else 0 }

  function ColourBits(c: Colour): bv8 {
    match c
    case White(w) => if w then WHITE1 else WHITE0
    case Gray => 0
    case Black => BLACKBIT
  }

  /** The byte of an object. Bit 3 is the finalized bit of userdata and the weak-key bit of tables. */
  function Encode(k: Mark, isTable: bool, sfixed: bool): bv8 {
    ColourBits(k.colour) | If(if isTable then k.weakKey else k.finalized, BIT3) | If(k.weakVal, VALUEWEAK)
    | If(k.fixed, FIXEDBIT) | If(sfixed, SFIXEDBIT)
  }

  /** `g->currentwhite`, which always has the fixed bit. */
  function CurrentWhite(w: bool): bv8 { ColourBits(White(w)) | FIXEDBIT }

  function OtherWhite(currentwhite: bv8): bv8 { currentwhite ^ WHITEBITS }

  predicate IsWhiteByte(b: bv8) { b & WHITEBITS != 0 }

  predicate IsBlackByte(b: bv8) { b & BLACKBIT != 0 }

  function MakeWhite(b: bv8, currentwhite: bv8): bv8 { (b & !(BLACKBIT | WHITEBITS)) | (currentwhite & WHITEBITS) }

  function WhiteToGray(b: bv8): bv8 { b & !WHITEBITS }

  function BlackToGray(b: bv8): bv8 { b & !BLACKBIT }

  function GrayToBlack(b: bv8): bv8 { b | BLACKBIT }

  function ChangeWhite(b: bv8): bv8 { b ^ WHITEBITS }

  predicate IsDeadByte(b: bv8, currentwhite: bv8) { b & OtherWhite(currentwhite) & WHITEBITS != 0 }

  /** The test of `sweeplist`. */
  predicate SweepKeeps(b: bv8, deadmask: bv8) { (b ^ WHITEBITS) & deadmask != 0 }

  lemma ColourTests(k: Mark, t: bool, s: bool)
    ensures IsWhiteByte(Encode(k, t, s)) <==> k.colour.White?
    ensures IsBlackByte(Encode(k, t, s)) <==> k.colour.Black?
  {
  }

  lemma FlippedByte(w: bool)
    ensures OtherWhite(CurrentWhite(w)) == CurrentWhite(!w) && CurrentWhite(w) & FIXEDBIT != 0
  {
  }

  lemma MakeWhiteByte(k: Mark, t: bool, s: bool, w: bool)
    ensures MakeWhite(Encode(k, t, s), CurrentWhite(w)) == Encode(k.(colour := White(w)), t, s)
  {
  }

  lemma GrayBytes(k: Mark, t: bool, s: bool)
    ensures k.colour.White? ==> WhiteToGray(Encode(k, t, s)) == Encode(k.(colour := Gray), t, s)
    ensures k.colour.Black? ==> BlackToGray(Encode(k, t, s)) == Encode(k.(colour := Gray), t, s)
    ensures k.colour.Gray? ==> GrayToBlack(Encode(k, t, s)) == Encode(k.(colour := Black), t, s)
    ensures k.colour.White? ==> ChangeWhite(Encode(k, t, s)) == Encode(k.(colour := White(!k.colour.w)), t, s)
  {
  }

  lemma DeadByte(k: Mark, t: bool, s: bool, w: bool)
    ensures IsDeadByte(Encode(k, t, s), CurrentWhite(w)) <==> k.colour == White(!w)
  {
  }

  /** One test keeps what is fixed and what does not have the other white. */
  lemma SweepTest(m: Marking, id: Id, t: bool, s: bool)
    requires id in m.marks
    ensures SweepKeeps(Encode(m.marks[id], t, s), OtherWhite(CurrentWhite(m.cw))) <==> !IsDead(m, id)
  {
    SweepByte(m.marks[id], t, s, m.cw);
  }

  lemma SweepByte(k: Mark, t: bool, s: bool, w: bool)
    ensures SweepKeeps(Encode(k, t, s), OtherWhite(CurrentWhite(w))) <==> k.fixed || k.colour != White(!w)
  {
  }

  /** `luaC_freeall` sets the current white so that the same test keeps only the main thread. */
  lemma FreeAllTest(k: Mark, t: bool, s: bool)
    ensures SweepKeeps(Encode(k, t, s), OtherWhite(WHITEBITS | SFIXEDBIT)) <==> s
  {
  }
}
