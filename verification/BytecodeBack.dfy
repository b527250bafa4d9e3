/** Reading what was written gives it back: exactly when, and what stripping changes. */
module BytecodeBack {
  import opened Wrappers
  import opened Bytecode

  // ---------------------------------------------------------------- items

  lemma {:induction false} NatBack(x: nat, size: nat)
    requires x < Power(size)
    ensures Decoded(DumpNat(x, size)) == x
    decreases size
  {
    if size > 0 { NatBack(x / 256, size - 1); }
  }

  lemma LoadNatBack(b: Bytes, x: nat, size: nat, rest: Bytes)
    requires x < Power(size) && b == DumpNat(x, size) + rest
    ensures LoadNat(b, size) == Ok(x, rest)
  {
    NatBack(x, size);
    assert b[..size] == DumpNat(x, size) && b[size..] == rest;
  }

  lemma IntBack(b: Bytes, x: Count, rest: Bytes)
    requires b == DumpInt(x) + rest
    ensures LoadInt(b) == Ok(x, rest)
  {
    Powers();
    LoadNatBack(b, x, SIZE_INT, rest);
  }

  lemma StringBack(b: Bytes, s: Text, rest: Bytes)
    requires TextFits(s) && b == DumpString(s) + rest
    ensures LoadString(b) == Ok(s, rest)
  {
    Powers();
    match s
    case None => LoadNatBack(b, 0, SIZE_SIZE_T, rest);
    case Some(t) =>
      var size, rest' := |t| + 1, (t + [0]) + rest;
      Assoc(DumpNat(size, SIZE_SIZE_T), t + [0], rest);
      LoadNatBack(b, size, SIZE_SIZE_T, rest');
      hide LoadNat, DumpNat;
      assert rest'[..size] == t + [0] && rest'[size..] == rest && (t + [0])[..size - 1] == t;
  }

  lemma {:induction false} WordsBack(ws: seq<Word>)
    ensures |DumpWords(ws)| == 4 * |ws| && Words(DumpWords(ws)) == ws
  {
    if ws != [] {
      var d := DumpWords(ws);
      WordsBack(ws[1..]);
      Powers();
      NatBack(ws[0], 4);
      assert d[..4] == DumpNat(ws[0], 4) && d[4..] == DumpWords(ws[1..]);
    }
  }

  lemma VectorBack(b: Bytes, ws: seq<Word>, rest: Bytes)
    requires CountFits(ws) && b == DumpVector(ws) + rest
    ensures LoadVector(b) == Ok(ws, rest)
  {
    Assoc(DumpInt(|ws|), DumpWords(ws), rest);
    IntBack(b, |ws|, DumpWords(ws) + rest);
    WordsBack(ws);
    hide DumpInt, LoadInt, DumpWords, Words;
    assert (DumpWords(ws) + rest)[..4 * |ws|] == DumpWords(ws) && (DumpWords(ws) + rest)[4 * |ws|..] == rest;
  }

  predicate ConstFits(c: Const) { c.KString? ==> TextFits(c.s) }

  lemma TagBack(b: Bytes, t: Byte, body: Bytes, rest: Bytes)
    requires b == ([t] + body) + rest
    ensures LoadByte(b) == Ok(t, body + rest)
  {
    assert b[..1] == [t] && b[1..] == body + rest;
  }

  lemma ImageBack(b: Bytes, x: Image, rest: Bytes)
    requires b == DumpNat(x, SIZE_NUMBER) + rest
    ensures LoadBlock(b, SIZE_NUMBER).Ok? && Decoded(LoadBlock(b, SIZE_NUMBER).v) == x
            && LoadBlock(b, SIZE_NUMBER).rest == rest
  {
    Powers();
    NatBack(x, SIZE_NUMBER);
    assert b[..SIZE_NUMBER] == DumpNat(x, SIZE_NUMBER) && b[SIZE_NUMBER..] == rest;
  }

  lemma ConstBack(b: Bytes, c: Const, rest: Bytes)
    requires ConstFits(c) && b == DumpConst(c) + rest
    ensures LoadConst(b) == Ok(c, rest)
  {
    hide LoadByte, LoadBlock, LoadString, DumpNat, DumpString;
    match c
    case KNil =>
      assert b == ([LUA_TNIL] + []) + rest && [] + rest == rest;
      TagBack(b, LUA_TNIL, [], rest);
    case KBool(x) =>
      var v: Byte := if x then 1 else 0;
      assert b == ([LUA_TBOOLEAN] + [v]) + rest && [v] + rest == ([v] + []) + rest && [] + rest == rest;
      TagBack(b, LUA_TBOOLEAN, [v], rest);
      TagBack([v] + rest, v, [], rest);
    case KNumber(x) =>
      TagBack(b, LUA_TNUMBER, DumpNat(x, SIZE_NUMBER), rest);
      ImageBack(DumpNat(x, SIZE_NUMBER) + rest, x, rest);
    case KString(s) =>
      TagBack(b, LUA_TSTRING, DumpString(s), rest);
      StringBack(DumpString(s) + rest, s, rest);
  }

  lemma LocVarBack(b: Bytes, v: LocVar, rest: Bytes)
    requires TextFits(v.varname) && b == DumpLocVar(v) + rest
    ensures LoadLocVar(b) == Ok(v, rest)
  {
    hide DumpString, DumpInt, LoadString, LoadInt;
    var s, x, y := DumpString(v.varname), DumpInt(v.startpc), DumpInt(v.endpc);
    Assoc(s + x, y, rest);
    Assoc(s, x, y + rest);
    StringBack(b, v.varname, x + (y + rest));
    IntBack(x + (y + rest), v.startpc, y + rest);
    IntBack(y + rest, v.endpc, rest);
  }

  // ---------------------------------------------------------------- lists of items

  lemma {:induction false} ConstsBack(b: Bytes, ks: seq<Const>, rest: Bytes)
    requires (forall i :: 0 <= i < |ks| ==> ConstFits(ks[i])) && b == DumpConsts(ks) + rest
    ensures LoadMany(b, |ks|, LoadConst) == Ok(ks, rest)
    decreases |ks|
  {
    hide LoadConst, DumpConst;
    if ks != [] {
      Assoc(DumpConst(ks[0]), DumpConsts(ks[1..]), rest);
      ConstBack(b, ks[0], DumpConsts(ks[1..]) + rest);
      ConstsBack(DumpConsts(ks[1..]) + rest, ks[1..], rest);
      assert [ks[0]] + ks[1..] == ks;
    }
  }

  lemma {:induction false} LocVarsBack(b: Bytes, vs: seq<LocVar>, rest: Bytes)
    requires (forall i :: 0 <= i < |vs| ==> TextFits(vs[i].varname)) && b == DumpLocVars(vs) + rest
    ensures LoadMany(b, |vs|, LoadLocVar) == Ok(vs, rest)
    decreases |vs|
  {
    hide LoadLocVar, DumpLocVar;
    if vs != [] {
      Assoc(DumpLocVar(vs[0]), DumpLocVars(vs[1..]), rest);
      LocVarBack(b, vs[0], DumpLocVars(vs[1..]) + rest);
      LocVarsBack(DumpLocVars(vs[1..]) + rest, vs[1..], rest);
      assert [vs[0]] + vs[1..] == vs;
    }
  }

  lemma {:induction false} TextsBack(b: Bytes, ts: seq<Text>, rest: Bytes)
    requires (forall i :: 0 <= i < |ts| ==> TextFits(ts[i])) && b == DumpTexts(ts) + rest
    ensures LoadMany(b, |ts|, LoadString) == Ok(ts, rest)
    decreases |ts|
  {
    hide LoadString, DumpString;
    if ts != [] {
      Assoc(DumpString(ts[0]), DumpTexts(ts[1..]), rest);
      StringBack(b, ts[0], DumpTexts(ts[1..]) + rest);
      TextsBack(DumpTexts(ts[1..]) + rest, ts[1..], rest);
      assert [ts[0]] + ts[1..] == ts;
    }
  }

  /** A count comes back before its items. */
  lemma CountBack(b: Bytes, n: Count, items: Bytes, rest: Bytes)
    requires b == (DumpInt(n) + items) + rest
    ensures LoadInt(b) == Ok(n, items + rest)
  {
    Assoc(DumpInt(n), items, rest);
    IntBack(b, n, items + rest);
  }

  // ---------------------------------------------------------------- functions

  lemma HeadBack(b: Bytes, f: Proto, source: Text, rest: Bytes)
    requires Fits(f) && b == DumpHead(f) + rest
    ensures LoadHead(b, source)
            == Ok(EMPTY.(source := source, linedefined := f.linedefined, lastlinedefined := f.lastlinedefined,
            nups := f.nups,
                                             numparams := f.numparams, isVararg := f.isVararg,
                                               maxstacksize := f.maxstacksize, code := f.code, k := f.k), rest)
  {
    hide DumpInt, DumpVector, DumpConsts, LoadInt, LoadVector, LoadMany, Fits;
    assert CountFits(f.code) && CountFits(f.k) && forall i :: 0 <= i < |f.k| ==> ConstFits(f.k[i]) by { FitsIs(f); }
    var l, ll, bs, c, k := DumpInt(f.linedefined), DumpInt(f.lastlinedefined),
      [f.nups, f.numparams, f.isVararg, f.maxstacksize], DumpVector(f.code), DumpInt(|f.k|) + DumpConsts(f.k);
    var r3 := k + rest;
    var r2 := c + r3;
    var r1 := bs + r2;
    Assoc(l + ll + bs + c, k, rest);
    Assoc(l + ll + bs, c, r3);
    Assoc(l + ll, bs, r2);
    Assoc(l, ll, r1);
    IntBack(b, f.linedefined, ll + r1);
    IntBack(ll + r1, f.lastlinedefined, r1);
    assert r1[..4] == bs && r1[4..] == r2;
    VectorBack(r2, f.code, r3);
    CountBack(r3, |f.k|, DumpConsts(f.k), rest);
    ConstsBack(DumpConsts(f.k) + rest, f.k, rest);
  }

  lemma FitsIs(f: Proto)
    requires Fits(f)
    ensures TextFits(f.source) && CountFits(f.code) && CountFits(f.k) && CountFits(f.p)
            && forall i :: 0 <= i < |f.k| ==> ConstFits(f.k[i])
    ensures CountFits(f.lineinfo) && CountFits(f.locvars) && CountFits(f.upvalues)
    ensures forall i :: 0 <= i < |f.locvars| ==> TextFits(f.locvars[i].varname)
    ensures forall i :: 0 <= i < |f.upvalues| ==> TextFits(f.upvalues[i])
  {
  }

  lemma DebugBack(b: Bytes, f: Proto, g: Proto, rest: Bytes)
    requires Fits(f) && b == DumpDebug(f) + rest
    ensures LoadDebug(b, g) == Ok(g.(lineinfo := f.lineinfo, locvars := f.locvars, upvalues := f.upvalues), rest)
  {
    hide DumpInt, DumpVector, DumpLocVars, DumpTexts, LoadInt, LoadVector, LoadMany, Fits;
    FitsIs(f);
    var l, v, u := DumpVector(f.lineinfo), DumpInt(|f.locvars|) + DumpLocVars(f.locvars),
      DumpInt(|f.upvalues|) + DumpTexts(f.upvalues);
    Assoc(l + v, u, rest);
    Assoc(l, v, u + rest);
    VectorBack(b, f.lineinfo, v + (u + rest));
    CountBack(v + (u + rest), |f.locvars|, DumpLocVars(f.locvars), u + rest);
    LocVarsBack(DumpLocVars(f.locvars) + (u + rest), f.locvars, u + rest);
    CountBack(u + rest, |f.upvalues|, DumpTexts(f.upvalues), rest);
    TextsBack(DumpTexts(f.upvalues) + rest, f.upvalues, rest);
  }

  /** What comes back: a source that was not written is that of the loaded parent. */
  function Loaded(f: Proto, written: Text, strip: bool, parent: Text): Proto
    decreases f, 1
  {
    var source := if SourceOf(f, written, strip).None? then parent else f.source;
    Stripped(f, strip).(source := source, p := LoadedAll(f, source, strip))
  }

  function LoadedAll(f: Proto, source: Text, strip: bool): (gs: seq<Proto>)
    ensures |gs| == |f.p|
    decreases f, 0
  {
    seq(|f.p|, i requires 0 <= i < |f.p| => Loaded(f.p[i], f.source, strip, source))
  }

  /** The check accepts every function of the tree. */
  predicate Accepted(f: Proto, check: Proto -> bool) {
    check(f) && forall i :: 0 <= i < |f.p| ==> Accepted(f.p[i], check)
  }

  predicate Shallow(f: Proto, room: nat) { room > 0 && forall i :: 0 <= i < |f.p| ==> Shallow(f.p[i], room - 1) }

  predicate Right(g: Proto, check: Proto -> bool, room: nat) { Accepted(g, check) && Shallow(g, room) }

  predicate AllRight(gs: seq<Proto>, check: Proto -> bool, room: nat) {
    forall i :: 0 <= i < |gs| ==> Right(gs[i], check, room)
  }

  lemma FirstRight(g: Proto, gs: seq<Proto>, check: Proto -> bool, room: nat)
    ensures AllRight([g] + gs, check, room) <==> Right(g, check, room) && AllRight(gs, check, room)
  {
    hide Right;
    var all := [g] + gs;
    if AllRight(all, check, room) {
      assert Right(all[0], check, room);
      forall i | 0 <= i < |gs| ensures Right(gs[i], check, room) { assert gs[i] == all[i + 1]; }
    }
  }

  lemma RightParts(g: Proto, check: Proto -> bool, room: nat)
    requires room > 0
    ensures Right(g, check, room) <==> check(g) && AllRight(g.p, check, room - 1)
  {
  }

  lemma {:induction false} LoadedFits(f: Proto, written: Text, strip: bool, parent: Text)
    requires Fits(f)
    ensures Fits(Stripped(f, strip))
  {
  }

  lemma FunctionParts(f: Proto, written: Text, strip: bool, rest: Bytes)
    ensures DumpFunction(f, written, strip) + rest
            == DumpString(SourceOf(f, written, strip))
            + (DumpHead(f) + ((DumpInt(|f.p|) + DumpProtos(f, 0, strip)) + (DumpDebug(Stripped(f, strip)) + rest)))
  {
    hide DumpString, DumpHead, DumpInt, DumpProtos, DumpDebug;
    var s, h, p, d := DumpString(SourceOf(f, written, strip)), DumpHead(f), DumpInt(|f.p|) + DumpProtos(f, 0, strip),
      DumpDebug(Stripped(f, strip));
    Assoc(s + h + p, d, rest);
    Assoc(s + h, p, d + rest);
    Assoc(s, h, p + (d + rest));
  }

  /** The parts of a function are put together. */
  lemma Assembled(b: Bytes, parent: Text, check: Proto -> bool, room: nat, s: Text, b1: Bytes, h: Proto, b2: Bytes,
                  n: Count, b3: Bytes)
    requires room > 0 && LoadString(b) == Ok(s, b1) && LoadHead(b1, if s.None? then parent else s) == Ok(h, b2)
             && LoadInt(b2) == Ok(n, b3)
    ensures var ps := LoadProtos(b3, n, h.source, check, room - 1); var r := LoadFunction(b, parent, check, room);
            if ps.Err? then r.Err?
            else var d := LoadDebug(ps.rest, h.(p := ps.v)); d.Ok? ==> r == if check(d.v) then d else Err(BadCode)
  {
    hide LoadString, LoadHead, LoadInt, LoadProtos, LoadDebug;
  }

  lemma NoRoom(b: Bytes, parent: Text, check: Proto -> bool, g: Proto)
    ensures LoadFunction(b, parent, check, 0).Err? && !Right(g, check, 0)
  {
  }

  /** The function comes back if its children do. */
  lemma FromProtos(b: Bytes, f: Proto, written: Text, strip: bool, parent: Text, check: Proto -> bool, room: nat,
                   rest: Bytes, source: Text, gs: seq<Proto>)
    requires room > 0 && Fits(f) && b == DumpFunction(f, written, strip) + rest
    requires source == if SourceOf(f, written, strip).None? then parent else f.source
    requires var d := DumpDebug(Stripped(f, strip)) + rest;
             var r := LoadProtos(DumpProtos(f, 0, strip) + d, |f.p|, source, check, room - 1);
             if AllRight(gs, check, room - 1) then r == Ok(gs, d) else r.Err?
    ensures var r, g := LoadFunction(b, parent, check, room), Stripped(f, strip).(source := source, p := gs);
            if Right(g, check, room) then r == Ok(g, rest) else r.Err?
  {
    hide DumpFunction, LoadFunction, LoadProtos, DumpProtos, Right, AllRight, LoadString, LoadHead, LoadInt, LoadDebug,
      DumpString, DumpHead, DumpDebug, DumpInt, Fits;
    var s, f' := SourceOf(f, written, strip), Stripped(f, strip);
    var g := f'.(source := source, p := gs);
    RightParts(g, check, room);
    var h := EMPTY.(source := source, linedefined := f.linedefined, lastlinedefined := f.lastlinedefined,
      nups := f.nups,
                    numparams := f.numparams, isVararg := f.isVararg, maxstacksize := f.maxstacksize, code := f.code,
                      k := f.k);
    assert h.(p := gs).(lineinfo := f'.lineinfo, locvars := f'.locvars, upvalues := f'.upvalues) == g;
    LoadedFits(f, written, strip, parent);
    FitsIs(f);
    var d := DumpDebug(f') + rest;
    var p := (DumpInt(|f.p|) + DumpProtos(f, 0, strip)) + d;
    FunctionParts(f, written, strip, rest);
    StringBack(b, s, DumpHead(f) + p);
    HeadBack(DumpHead(f) + p, f, source, p);
    CountBack(p, |f.p|, DumpProtos(f, 0, strip), d);
    DebugBack(d, f', h.(p := gs), rest);
    Assembled(b, parent, check, room, s, DumpHead(f) + p, h, p, |f.p|, DumpProtos(f, 0, strip) + d);
  }

  lemma LoadedIs(f: Proto, written: Text, strip: bool, parent: Text)
    ensures var source := if SourceOf(f, written, strip).None? then parent else f.source;
            Loaded(f, written, strip, parent) == Stripped(f, strip).(source := source, p := LoadedAll(f, source, strip))
  {
    hide LoadedAll;
  }

  lemma {:induction false} FunctionBack(b: Bytes, f: Proto, written: Text, strip: bool, parent: Text,
                                        check: Proto -> bool, room: nat, rest: Bytes)
    requires Fits(f) && b == DumpFunction(f, written, strip) + rest
    ensures var r, g := LoadFunction(b, parent, check, room), Loaded(f, written, strip, parent);
            if Right(g, check, room) then r == Ok(g, rest) else r.Err?
    decreases f, 0
  {
    hide DumpFunction, LoadFunction, LoadProtos, DumpProtos, Right, AllRight, Loaded, LoadedAll, DumpDebug, Fits;
    LoadedIs(f, written, strip, parent);
    if room == 0 {
      NoRoom(b, parent, check, Loaded(f, written, strip, parent));
    } else {
      var source, d := if SourceOf(f, written, strip).None? then parent
        else f.source, DumpDebug(Stripped(f, strip)) + rest;
      ProtosBack(DumpProtos(f, 0, strip) + d, f, 0, strip, source, check, room - 1, d);
      FromProtos(b, f, written, strip, parent, check, room, rest, source, LoadedAll(f, source, strip));
    }
  }

  lemma NextProto(f: Proto, i: nat, strip: bool, source: Text)
    requires i < |f.p|
    ensures DumpProtos(f, i, strip) == DumpFunction(f.p[i], f.source, strip) + DumpProtos(f, i + 1, strip)
    ensures var gs := LoadedAll(f, source, strip); gs[i..] == [Loaded(f.p[i], f.source, strip, source)] + gs[i + 1..]
    ensures Fits(f) ==> Fits(f.p[i])
  {
    hide DumpFunction, Loaded;
  }

  lemma LoadFirst(b: Bytes, n: nat, parent: Text, check: Proto -> bool, room: nat)
    ensures LoadProtos(b, 0, parent, check, room) == Ok([], b)
    ensures var r := LoadFunction(b, parent, check, room);
            LoadProtos(b, n + 1, parent, check, room) == if r.Err? then Err(r.e)
              else After([r.v], LoadProtos(r.rest, n, parent, check, room))
  {
    hide LoadFunction;
  }

  lemma {:induction false} ProtosBack(b: Bytes, f: Proto, i: nat, strip: bool, source: Text, check: Proto -> bool,
                                      room: nat, rest: Bytes)
    requires Fits(f) && i <= |f.p| && b == DumpProtos(f, i, strip) + rest
    ensures var r, gs := LoadProtos(b, |f.p| - i, source, check, room), LoadedAll(f, source, strip)[i..];
            if AllRight(gs, check, room) then r == Ok(gs, rest) else r.Err?
    decreases f, 0, |f.p| - i
  {
    hide LoadFunction, Loaded, Right, DumpFunction, Fits, LoadProtos, LoadedAll;
    LoadFirst(b, if i == |f.p| then 0 else |f.p| - i - 1, source, check, room);
    if i == |f.p| {
      assert DumpProtos(f, i, strip) + rest == rest && LoadedAll(f, source, strip)[i..] == [];
    } else {
      var rest' := DumpProtos(f, i + 1, strip) + rest;
      NextProto(f, i, strip, source);
      hide DumpProtos, AllRight;
      Assoc(DumpFunction(f.p[i], f.source, strip), DumpProtos(f, i + 1, strip), rest);
      FunctionBack(b, f.p[i], f.source, strip, source, check, room, rest');
      ProtosBack(rest', f, i + 1, strip, source, check, room, rest);
      FirstRight(Loaded(f.p[i], f.source, strip, source), LoadedAll(f, source, strip)[i + 1..], check, room);
    }
  }

  // ---------------------------------------------------------------- the whole chunk

  /** Every function of the tree has a source. */
  predicate Sourced(f: Proto) { f.source.Some? && forall i :: 0 <= i < |f.p| ==> Sourced(f.p[i]) }

  /** `g` is `f` apart from sources and debug information. */
  predicate SameCode(f: Proto, g: Proto) {
    && g == f.(source := g.source, lineinfo := g.lineinfo, locvars := g.locvars, upvalues := g.upvalues, p := g.p)
    && |g.p| == |f.p| && forall i :: 0 <= i < |f.p| ==> SameCode(f.p[i], g.p[i])
  }

  lemma LoadedAt(f: Proto, source: Text, strip: bool, i: nat)
    requires i < |f.p|
    ensures LoadedAll(f, source, strip)[i] == Loaded(f.p[i], f.source, strip, source)
  {
    hide Loaded;
  }

  lemma {:induction false} LoadedSame(f: Proto, written: Text, parent: Text)
    requires parent.Some? && (written == parent || written == None)
    ensures Loaded(f, written, false, parent) == f <==> Sourced(f)
    decreases f
  {
    var g := Loaded(f, written, false, parent);
    LoadedIs(f, written, false, parent);
    hide Loaded, LoadedAll;
    if f.source.Some? {
      forall i | 0 <= i < |f.p| ensures g.p[i] == f.p[i] <==> Sourced(f.p[i]) {
        LoadedSame(f.p[i], f.source, f.source);
        LoadedAt(f, f.source, false, i);
      }
      assert g == f.(p := g.p);
    }
  }

  lemma {:induction false} LoadedCode(f: Proto, written: Text, strip: bool, parent: Text)
    ensures SameCode(f, Loaded(f, written, strip, parent))
    decreases f
  {
    var g := Loaded(f, written, strip, parent);
    LoadedIs(f, written, strip, parent);
    hide Loaded, LoadedAll;
    forall i | 0 <= i < |f.p| ensures SameCode(f.p[i], g.p[i]) {
      LoadedCode(f.p[i], f.source, strip, g.source);
      LoadedAt(f, g.source, strip, i);
    }
  }

  /** Undumping what was dumped, stripped or not: the same code, and the sources as `Loaded` says; it fails exactly if
      the check refuses a function or the tree is too deep. What follows the chunk is not read. */
  lemma UndumpDump(f: Proto, strip: bool, check: Proto -> bool, room: nat, rest: Bytes)
    requires Fits(f)
    ensures var r, g := Undump(Dump(f, strip) + rest, check, room), Loaded(f, None, strip, UNKNOWN);
            (if Right(g, check, room) then r == Ok(g, rest) else r.Err?) && SameCode(f, g)
  {
    var b := Dump(f, strip) + rest;
    LoadedCode(f, None, strip, UNKNOWN);
    hide DumpFunction, LoadFunction, Loaded, Right, SameCode;
    Assoc(HEADER, DumpFunction(f, None, strip), rest);
    assert b[..|HEADER|] == HEADER && b[|HEADER|..] == DumpFunction(f, None, strip) + rest;
    FunctionBack(b[|HEADER|..], f, None, strip, UNKNOWN, check, room, rest);
  }

  /** The function itself comes back exactly if every function of the tree has a source, the check accepts all of
      them and the tree is not too deep. */
  lemma UndumpIsInverse(f: Proto, check: Proto -> bool, room: nat, rest: Bytes)
    requires Fits(f)
    ensures Undump(Dump(f, false) + rest, check, room) == Ok(f, rest) <==> Sourced(f) && Right(f, check, room)
  {
    hide Dump, Undump, Loaded, Right, Sourced, SameCode;
    UndumpDump(f, false, check, room, rest);
    LoadedSame(f, None, UNKNOWN);
  }
}
