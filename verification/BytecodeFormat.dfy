/** The bytes of a precompiled chunk, place by place (lua/ldump.c:30-164, lua/lundump.c:216-227,
    lua/lundump.h:25-32). */
module BytecodeFormat {
  import opened Wrappers
  import opened Bytecode

  /** The i-th byte of a number: the least significant comes first. */
  function ByteOf(x: nat, i: nat): Byte {
    if i == 0 then x % 256 else ByteOf(x / 256, i - 1)
  }

  lemma {:induction false} LittleEndian(x: nat, size: nat, i: nat)
    requires i < size
    ensures DumpNat(x, size)[i] == ByteOf(x, i)
    decreases size
  {
    if i > 0 { LittleEndian(x / 256, size - 1, i - 1); }
  }

  predicate At(b: Bytes, i: nat, t: Bytes) { i + |t| <= |b| && b[i..i + |t|] == t }

  lemma AtBoth(b: Bytes, i: nat, s: Bytes, t: Bytes)
    requires At(b, i, s + t)
    ensures At(b, i, s) && At(b, i + |s|, t)
  {
    assert b[i..i + |s + t|][..|s|] == s && b[i..i + |s + t|][|s|..] == t;
  }

  /** A chunk begins with the signature, the version 5.1, the official format, little-endian order, and the sizes of
      `int`, `size_t`, instructions and numbers, which are not integral. */
  lemma HeaderBytes(f: Proto, strip: bool)
    ensures At(Dump(f, strip), 0, [27, 'L' as int, 'u' as int, 'a' as int])
    ensures At(Dump(f, strip), 4, [5 * 16 + 1, 0, 1, 4, 8, 4, 8, 0])
    ensures At(Dump(f, strip), 12, DumpFunction(f, None, strip))
  {
    var b := Dump(f, strip);
    hide DumpFunction;
    assert b[..12] == HEADER && b[12..] == DumpFunction(f, None, strip);
    assert b[0..4] == HEADER[..4] == [27, 'L' as int, 'u' as int, 'a' as int];
    assert b[4..12] == HEADER[4..] == [5 * 16 + 1, 0, 1, 4, 8, 4, 8, 0];
  }

  /** A string is its length with the final zero, and its bytes with the zero; no string has length 0. */
  lemma StringBytes(t: Bytes)
    requires |t| + 1 < 256
    ensures DumpString(Some(t)) == [|t| + 1, 0, 0, 0, 0, 0, 0, 0] + t + [0]
    ensures DumpString(None) == [0, 0, 0, 0, 0, 0, 0, 0]
  {
    hide DumpNat;
    SmallNat(|t| + 1, 8);
    SmallNat(0, 8);
    Zeros();
  }

  lemma Zeros()
    ensures seq<Byte>(7, _ => 0) == [0, 0, 0, 0, 0, 0, 0]
  {
  }

  lemma {:induction false} SmallNat(x: nat, size: nat)
    requires x < 256 && size > 0
    ensures DumpNat(x, size) == [x] + seq<Byte>(size - 1, _ => 0)
    decreases size
  {
    if size > 1 { SmallNat(0, size - 1); }
  }

  /** The type of a constant comes before its value. */
  lemma ConstBytes(x: Image, s: Text)
    ensures DumpConst(KNil) == [0] && DumpConst(KBool(false)) == [1, 0] && DumpConst(KBool(true)) == [1, 1]
    ensures DumpConst(KNumber(x))[0] == 3 && DumpConst(KNumber(x))[1..] == DumpNat(x, 8)
    ensures DumpConst(KString(s))[0] == 4 && DumpConst(KString(s))[1..] == DumpString(s)
  {
  }

  /** The fields of a function in their order, after its source. */
  lemma FieldsInOrder(f: Proto, parent: Text, strip: bool)
    ensures var b, n := DumpFunction(f, parent, strip), |DumpString(SourceOf(f, parent, strip))|;
            && At(b, 0, DumpString(SourceOf(f, parent, strip)))
            && At(b, n, DumpInt(f.linedefined)) && At(b, n + 4, DumpInt(f.lastlinedefined))
            && At(b, n + 8, [f.nups, f.numparams, f.isVararg, f.maxstacksize])
            && At(b, n + 12, DumpInt(|f.code|)) && At(b, n + 16, DumpWords(f.code))
            && At(b, n + 16 + |DumpWords(f.code)|, DumpInt(|f.k|))
  {
    hide DumpFunction, DumpProtos, DumpDebug, DumpString, DumpWords, DumpConsts, DumpNat, DumpHead, DumpInt, At,
      SourceOf;
    var s, h := DumpString(SourceOf(f, parent, strip)), DumpHead(f);
    var b := DumpFunction(f, parent, strip);
    var rest := FunctionIs(f, parent, strip);
    AtBoth(b, 0, s + h, rest);
    AtBoth(b, 0, s, h);
    HeadInOrder(f, b, |s|);
  }

  lemma FunctionIs(f: Proto, parent: Text, strip: bool) returns (rest: Bytes)
    ensures At(DumpFunction(f, parent, strip), 0, DumpString(SourceOf(f, parent, strip)) + DumpHead(f) + rest)
  {
    hide DumpProtos, DumpDebug, DumpString, DumpHead, DumpInt, SourceOf;
    rest := (DumpInt(|f.p|) + DumpProtos(f, 0, strip)) + DumpDebug(Stripped(f, strip));
    assert DumpFunction(f, parent, strip) == DumpString(SourceOf(f, parent, strip)) + DumpHead(f) + rest;
  }

  lemma HeadInOrder(f: Proto, b: Bytes, n: nat)
    requires At(b, n, DumpHead(f))
    ensures At(b, n, DumpInt(f.linedefined)) && At(b, n + 4, DumpInt(f.lastlinedefined))
    ensures At(b, n + 8, [f.nups, f.numparams, f.isVararg, f.maxstacksize])
    ensures At(b, n + 12, DumpInt(|f.code|)) && At(b, n + 16, DumpWords(f.code))
    ensures At(b, n + 16 + |DumpWords(f.code)|, DumpInt(|f.k|))
  {
    hide At, DumpNat, DumpWords, DumpConsts;
    var l, ll := DumpInt(f.linedefined), DumpInt(f.lastlinedefined);
    var bytes := [f.nups, f.numparams, f.isVararg, f.maxstacksize];
    var code, k := DumpVector(f.code), DumpInt(|f.k|) + DumpConsts(f.k);
    AtBoth(b, n, l + ll + bytes + code, k);
    AtBoth(b, n, l + ll + bytes, code);
    AtBoth(b, n, l + ll, bytes);
    AtBoth(b, n, l, ll);
    AtBoth(b, n + 12, DumpInt(|f.code|), DumpWords(f.code));
    AtBoth(b, n + 12 + |code|, DumpInt(|f.k|), DumpConsts(f.k));
  }
}
