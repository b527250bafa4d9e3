/** Dumping to a writer and undumping from a reader that hands out chunks of any sizes (lua/ldump.c,
    lua/lundump.c, lua/lzio.c): the methods write and read what the functions in `Bytecode` say. */
module BytecodeStreams {
  import opened Wrappers
  import opened Bytecode
  import opened BytecodeBack

  // ---------------------------------------------------------------- writing

  /** `out` is what the writer has been given; `writer(n)` is what its n-th call returns. */
  class DumpState {
    const writer: nat -> int
    const strip: bool
    var out: Bytes
    var calls: nat
    var status: int

    constructor (writer: nat -> int, strip: bool)
      ensures this.writer == writer && this.strip == strip && out == [] && status == 0
    {
      this.writer, this.strip, out, calls, status := writer, strip, [], 0, 0;
    }

    /** Of `all`, `left` is still to be written. Nothing is written after the writer has failed. */
    twostate predicate Writing(all: Bytes, left: Bytes)
      reads this
    {
      if old(status) == 0 then (status == 0 ==> out + left == old(out) + all)
        else status == old(status) && out == old(out)
    }

    twostate predicate Wrote(all: Bytes)
      reads this
    {
      if old(status) == 0 then (status == 0 ==> out == old(out) + all) else status == old(status) && out == old(out)
    }

    method DumpBlock(b: Bytes)
      modifies this
      ensures Wrote(b)
    {
      if status == 0 {
        status := writer(calls);
        out, calls := out + b, calls + 1;
      }
    }

    method DumpString(s: Text)
      modifies this
      ensures Wrote(Bytecode.DumpString(s))
    {
      match s
      case None => DumpBlock(DumpNat(0, SIZE_SIZE_T));
      case Some(t) =>
        DumpBlock(DumpNat(|t| + 1, SIZE_SIZE_T));
        DumpBlock(t + [0]);
    }

    method DumpVector(ws: seq<Word>)
      modifies this
      ensures Wrote(Bytecode.DumpVector(ws))
    {
      DumpBlock(DumpInt(|ws|));
      DumpBlock(DumpWords(ws));
    }

    method DumpConstant(c: Const)
      modifies this
      ensures Wrote(DumpConst(c))
    {
      match c
      case KNil =>
        DumpBlock([LUA_TNIL]);
      case KBool(b) =>
        DumpBlock([LUA_TBOOLEAN]);
        DumpBlock([if b then 1 else 0]);
      case KNumber(x) =>
        DumpBlock([LUA_TNUMBER]);
        DumpBlock(DumpNat(x, SIZE_NUMBER));
      case KString(s) =>
        DumpBlock([LUA_TSTRING]);
        DumpString(s);
    }

    /** The first part of `DumpConstants`. */
    method DumpConstants(f: Proto)
      modifies this
      ensures Wrote(DumpInt(|f.k|) + DumpConsts(f.k))
    {
      hide DumpConst, DumpInt;
      DumpBlock(DumpInt(|f.k|));
      ghost var all := DumpInt(|f.k|) + DumpConsts(f.k);
      for i := 0 to |f.k|
        invariant Writing(all, DumpConsts(f.k[i..]))
      {
        DumpConstant(f.k[i]);
        assert f.k[i..][1..] == f.k[i + 1..];
      }
      assert out + DumpConsts(f.k[|f.k|..]) == out;
    }

    /** Its second part. */
    method DumpChildren(f: Proto)
      modifies this
      ensures Wrote(DumpInt(|f.p|) + DumpProtos(f, 0, strip))
      decreases f, 0
    {
      hide Bytecode.DumpFunction, DumpInt;
      DumpBlock(DumpInt(|f.p|));
      ghost var all := DumpInt(|f.p|) + DumpProtos(f, 0, strip);
      for i := 0 to |f.p|
        invariant Writing(all, DumpProtos(f, i, strip))
      {
        DumpFunction(f.p[i], f.source);
      }
      assert out + DumpProtos(f, |f.p|, strip) == out;
    }

    method DumpLocals(vs: seq<LocVar>)
      modifies this
      ensures Wrote(DumpInt(|vs|) + DumpLocVars(vs))
    {
      hide DumpInt, Bytecode.DumpString;
      DumpBlock(DumpInt(|vs|));
      ghost var all := DumpInt(|vs|) + DumpLocVars(vs);
      for i := 0 to |vs|
        invariant Writing(all, DumpLocVars(vs[i..]))
      {
        DumpLocal(vs[i]);
        assert vs[i..][1..] == vs[i + 1..];
      }
      assert out + DumpLocVars(vs[|vs|..]) == out;
    }

    method DumpLocal(v: LocVar)
      modifies this
      ensures Wrote(DumpLocVar(v))
    {
      DumpString(v.varname);
      DumpBlock(DumpInt(v.startpc));
      DumpBlock(DumpInt(v.endpc));
    }

    method DumpUpvalues(ts: seq<Text>)
      modifies this
      ensures Wrote(DumpInt(|ts|) + DumpTexts(ts))
    {
      hide DumpInt, Bytecode.DumpString;
      DumpBlock(DumpInt(|ts|));
      ghost var all := DumpInt(|ts|) + DumpTexts(ts);
      for i := 0 to |ts|
        invariant Writing(all, DumpTexts(ts[i..]))
      {
        DumpString(ts[i]);
        assert ts[i..][1..] == ts[i + 1..];
      }
      assert out + DumpTexts(ts[|ts|..]) == out;
    }

    method DumpDebug(f: Proto)
      modifies this
      ensures Wrote(Bytecode.DumpDebug(Stripped(f, strip)))
    {
      hide DumpInt, Bytecode.DumpVector, DumpLocVars, DumpTexts;
      DumpVector(if strip then [] else f.lineinfo);
      DumpLocals(if strip then [] else f.locvars);
      DumpUpvalues(if strip then [] else f.upvalues);
    }

    method DumpHeadOf(f: Proto)
      modifies this
      ensures Wrote(DumpHead(f))
    {
      hide DumpInt, Bytecode.DumpVector, DumpConsts;
      DumpBlock(DumpInt(f.linedefined));
      DumpBlock(DumpInt(f.lastlinedefined));
      DumpBlock([f.nups]);
      DumpBlock([f.numparams]);
      DumpBlock([f.isVararg]);
      DumpBlock([f.maxstacksize]);
      DumpVector(f.code);
      DumpConstants(f);
    }

    method DumpFunction(f: Proto, parent: Text)
      modifies this
      ensures Wrote(Bytecode.DumpFunction(f, parent, strip))
      decreases f, 1
    {
      hide Bytecode.DumpString, DumpHead, DumpInt, DumpProtos, Bytecode.DumpDebug;
      DumpString(if f.source == parent || strip then None else f.source);
      DumpHeadOf(f);
      DumpChildren(f);
      DumpDebug(f);
    }
  }

  /** `luaU_dump` */
  method DumpTo(writer: nat -> int, f: Proto, strip: bool) returns (out: Bytes, status: int)
    ensures status == 0 ==> out == Dump(f, strip)
  {
    hide DumpFunction;
    var d := new DumpState(writer, strip);
    d.DumpBlock(HEADER);
    d.DumpFunction(f, None);
    return d.out, d.status;
  }

  // ---------------------------------------------------------------- reading

  datatype Outcome<+T> = Got(v: T) | Failed(e: Error)

  /** The method did what the function says, and `now` is left to be read. */
  ghost predicate Gave<T>(r: Result<T>, o: Outcome<T>, now: Bytes) {
    match r
    case Ok(v, rest) => o == Got(v) && now == rest
    case Err(e) => o == Failed(e)
  }

  /** What a reader gives before it gives nothing. */
  function Joined(chunks: seq<Bytes>): Bytes {
    if chunks == [] || chunks[0] == [] then [] else chunks[0] + Joined(chunks[1..])
  }

  lemma AfterTwice<T>(xs: seq<T>, x: T, r: Result<seq<T>>)
    ensures After(xs, After([x], r)) == After(xs + [x], r)
  {
    if r.Ok? { assert xs + ([x] + r.v) == xs + [x] + r.v; }
  }

  lemma AfterNone<T>(r: Result<seq<T>>)
    ensures After([], r) == r
  {
    if r.Ok? { assert [] + r.v == r.v; }
  }

  lemma AfterLast<T>(xs: seq<T>, b: Bytes)
    ensures After(xs, Ok([], b)) == Ok(xs, b)
  {
    assert xs + [] == xs;
  }

  lemma Copied(b: Bytes, cur: Bytes, m: nat, ahead: Bytes)
    requires m <= |cur|
    ensures (b + cur[..m]) + (cur[m..] + ahead) == b + (cur + ahead)
  {
  }

  /** `LoadState` with its `ZIO`: `cur` is what is left of the current chunk. */
  class LoadState {
    const check: Proto -> bool
    var chunks: seq<Bytes>
    var cur: Bytes
    var nCcalls: nat

    constructor (chunks: seq<Bytes>, check: Proto -> bool, nCcalls: nat)
      ensures this.check == check && Contents() == Joined(chunks) && this.nCcalls == nCcalls
    {
      this.check, this.chunks, cur, this.nCcalls := check, chunks, [], nCcalls;
      new;
      assert [] + Joined(chunks) == Joined(chunks);
    }

    function Contents(): Bytes reads this { cur + Joined(chunks) }

    function Room(): nat reads this { if nCcalls <= LUAI_MAXCCALLS then LUAI_MAXCCALLS - nCcalls else 0 }

    /** `luaZ_lookahead`: there is a byte to read, unless the reader has ended. */
    method Lookahead() returns (more: bool)
      modifies this`chunks, this`cur
      ensures Contents() == old(Contents()) && more == (Contents() != []) && (more ==> cur != [])
              && |chunks| <= old(|chunks|)
    {
      if cur == [] {
        if chunks == [] || chunks[0] == [] { return false; }
        assert chunks[0] + Joined(chunks[1..]) == Joined(chunks) && [] + Joined(chunks) == Joined(chunks);
        cur, chunks := chunks[0], chunks[1..];
      }
      return true;
    }

    /** `luaZ_read`: gives the number of missing bytes. */
    method Read(n: nat) returns (b: Bytes, missing: nat)
      modifies this`chunks, this`cur
      ensures missing == 0 ==> |b| == n && old(Contents()) == b + Contents()
      ensures missing > 0 <==> n > |old(Contents())|
    {
      hide Joined;
      b, missing := [], n;
      while missing > 0
        invariant old(Contents()) == b + Contents() && |b| + missing == n
        decreases missing
      {
        var more := Lookahead();
        if !more { return; }
        var m := if missing <= |cur| then missing else |cur|;
        Copied(b, cur, m, Joined(chunks));
        b, cur, missing := b + cur[..m], cur[m..], missing - m;
      }
    }

    method LoadBlock(n: nat) returns (o: Outcome<Bytes>)
      modifies this`chunks, this`cur
      ensures Gave(Bytecode.LoadBlock(old(Contents()), n), o, Contents())
    {
      var b, missing := Read(n);
      if missing != 0 { return Failed(UnexpectedEnd); }
      assert (b + Contents())[..n] == b && (b + Contents())[n..] == Contents();
      return Got(b);
    }

    method LoadNat(size: nat) returns (o: Outcome<nat>)
      modifies this`chunks, this`cur
      ensures Gave(Bytecode.LoadNat(old(Contents()), size), o, Contents())
    {
      var b := LoadBlock(size);
      if b.Failed? { return Failed(b.e); }
      return Got(Decoded(b.v));
    }

    method LoadByte() returns (o: Outcome<Byte>)
      modifies this`chunks, this`cur
      ensures Gave(Bytecode.LoadByte(old(Contents())), o, Contents())
    {
      var b := LoadBlock(1);
      if b.Failed? { return Failed(b.e); }
      return Got(b.v[0]);
    }

    method LoadInt() returns (o: Outcome<Count>)
      modifies this`chunks, this`cur
      ensures Gave(Bytecode.LoadInt(old(Contents())), o, Contents())
    {
      var x := LoadNat(SIZE_INT);
      if x.Failed? { return Failed(x.e); }
      if x.v >= 0x8000_0000 { return Failed(BadInteger); }
      return Got(x.v);
    }

    method LoadString() returns (o: Outcome<Text>)
      modifies this`chunks, this`cur
      ensures Gave(Bytecode.LoadString(old(Contents())), o, Contents())
    {
      var size := LoadNat(SIZE_SIZE_T);
      if size.Failed? { return Failed(size.e); }
      if size.v == 0 { return Got(None); }
      var s := LoadBlock(size.v);
      if s.Failed? { return Failed(s.e); }
      return Got(Some(s.v[..size.v - 1]));
    }

    method LoadVector() returns (o: Outcome<seq<Word>>)
      modifies this`chunks, this`cur
      ensures Gave(Bytecode.LoadVector(old(Contents())), o, Contents())
    {
      var n := LoadInt();
      if n.Failed? { return Failed(n.e); }
      var b := LoadBlock(4 * n.v as int);
      if b.Failed? { return Failed(b.e); }
      return Got(Words(b.v));
    }

    method LoadConstant() returns (o: Outcome<Const>)
      modifies this`chunks, this`cur
      ensures Gave(LoadConst(old(Contents())), o, Contents())
    {
      var t := LoadByte();
      if t.Failed? { return Failed(t.e); }
      if t.v == LUA_TNIL {
        return Got(KNil);
      } else if t.v == LUA_TBOOLEAN {
        var b := LoadByte();
        return if b.Failed? then Failed(b.e) else Got(KBool(b.v != 0));
      } else if t.v == LUA_TNUMBER {
        var b := LoadBlock(SIZE_NUMBER);
        if b.Failed? { return Failed(b.e); }
        Powers();
        return Got(KNumber(Decoded(b.v)));
      } else if t.v == LUA_TSTRING {
        var s := LoadString();
        return if s.Failed? then Failed(s.e) else Got(KString(s.v));
      }
      return Failed(BadConstant);
    }

    /** The first part of `LoadConstants`. */
    method LoadConstants() returns (o: Outcome<seq<Const>>)
      modifies this`chunks, this`cur
      ensures Gave(LoadList(old(Contents()), LoadConst), o, Contents())
    {
      hide LoadConst, Bytecode.LoadInt;
      var n := LoadInt();
      if n.Failed? { return Failed(n.e); }
      var k: seq<Const> := [];
      ghost var b := Contents();
      AfterNone(LoadMany(b, n.v, LoadConst));
      for i := 0 to n.v
        invariant LoadMany(b, n.v, LoadConst) == After(k, LoadMany(Contents(), n.v - i, LoadConst))
      {
        ghost var c := Contents();
        var x := LoadConstant();
        if x.Failed? { return Failed(x.e); }
        AfterTwice(k, x.v, LoadMany(Contents(), n.v - i - 1, LoadConst));
        k := k + [x.v];
      }
      AfterLast(k, Contents());
      return Got(k);
    }

    method LoadLocal() returns (o: Outcome<LocVar>)
      modifies this`chunks, this`cur
      ensures Gave(LoadLocVar(old(Contents())), o, Contents())
    {
      hide Bytecode.LoadString, Bytecode.LoadInt;
      var s := LoadString();
      if s.Failed? { return Failed(s.e); }
      var x := LoadInt();
      if x.Failed? { return Failed(x.e); }
      var y := LoadInt();
      if y.Failed? { return Failed(y.e); }
      return Got(LocVar(s.v, x.v, y.v));
    }

    method LoadLocals() returns (o: Outcome<seq<LocVar>>)
      modifies this`chunks, this`cur
      ensures Gave(LoadList(old(Contents()), LoadLocVar), o, Contents())
    {
      hide LoadLocVar, Bytecode.LoadInt;
      var n := LoadInt();
      if n.Failed? { return Failed(n.e); }
      var vs: seq<LocVar> := [];
      ghost var b := Contents();
      AfterNone(LoadMany(b, n.v, LoadLocVar));
      for i := 0 to n.v
        invariant LoadMany(b, n.v, LoadLocVar) == After(vs, LoadMany(Contents(), n.v - i, LoadLocVar))
      {
        var x := LoadLocal();
        if x.Failed? { return Failed(x.e); }
        AfterTwice(vs, x.v, LoadMany(Contents(), n.v - i - 1, LoadLocVar));
        vs := vs + [x.v];
      }
      AfterLast(vs, Contents());
      return Got(vs);
    }

    method LoadUpvalues() returns (o: Outcome<seq<Text>>)
      modifies this`chunks, this`cur
      ensures Gave(LoadList(old(Contents()), Bytecode.LoadString), o, Contents())
    {
      hide Bytecode.LoadString, Bytecode.LoadInt;
      var n := LoadInt();
      if n.Failed? { return Failed(n.e); }
      var ts: seq<Text> := [];
      ghost var b := Contents();
      AfterNone(LoadMany(b, n.v, Bytecode.LoadString));
      for i := 0 to n.v
        invariant LoadMany(b, n.v, Bytecode.LoadString) == After(ts, LoadMany(Contents(), n.v - i, Bytecode.LoadString))
      {
        var x := LoadString();
        if x.Failed? { return Failed(x.e); }
        AfterTwice(ts, x.v, LoadMany(Contents(), n.v - i - 1, Bytecode.LoadString));
        ts := ts + [x.v];
      }
      AfterLast(ts, Contents());
      return Got(ts);
    }

    /** The fields up to the constants. */
    method LoadHeadOf(source: Text) returns (o: Outcome<Proto>)
      modifies this`chunks, this`cur
      ensures Gave(LoadHead(old(Contents()), source), o, Contents())
    {
      hide Bytecode.LoadInt, Bytecode.LoadVector, LoadList;
      var l := LoadInt();
      if l.Failed? { return Failed(l.e); }
      var ll := LoadInt();
      if ll.Failed? { return Failed(ll.e); }
      var bs := LoadBlock(4);
      if bs.Failed? { return Failed(bs.e); }
      var code := LoadVector();
      if code.Failed? { return Failed(code.e); }
      var k := LoadConstants();
      if k.Failed? { return Failed(k.e); }
      return Got(EMPTY.(source := source, linedefined := l.v, lastlinedefined := ll.v, nups := bs.v[0],
        numparams := bs.v[1], isVararg := bs.v[2],
                        maxstacksize := bs.v[3], code := code.v, k := k.v));
    }

    method LoadDebug(f: Proto) returns (o: Outcome<Proto>)
      modifies this`chunks, this`cur
      ensures Gave(Bytecode.LoadDebug(old(Contents()), f), o, Contents())
    {
      hide Bytecode.LoadVector, LoadList;
      var lines := LoadVector();
      if lines.Failed? { return Failed(lines.e); }
      var vs := LoadLocals();
      if vs.Failed? { return Failed(vs.e); }
      var us := LoadUpvalues();
      if us.Failed? { return Failed(us.e); }
      return Got(f.(lineinfo := lines.v, locvars := vs.v, upvalues := us.v));
    }

    method LoadFunction(parent: Text) returns (o: Outcome<Proto>)
      modifies this
      ensures Gave(Bytecode.LoadFunction(old(Contents()), parent, check, old(Room())), o, Contents())
      ensures o.Got? ==> nCcalls == old(nCcalls)
      decreases Room(), 1
    {
      hide Bytecode.LoadString, LoadHead, Bytecode.LoadInt, LoadProtos, Bytecode.LoadDebug;
      nCcalls := nCcalls + 1;
      if nCcalls > LUAI_MAXCCALLS { return Failed(TooDeep); }
      var s := LoadString();
      if s.Failed? { return Failed(s.e); }
      var h := LoadHeadOf(if s.v.None? then parent else s.v);
      if h.Failed? { return Failed(h.e); }
      var n := LoadInt();
      if n.Failed? { return Failed(n.e); }
      var ps := LoadChildren(n.v, h.v.source);
      if ps.Failed? { return Failed(ps.e); }
      var f := LoadDebug(h.v.(p := ps.v));
      if f.Failed? { return f; }
      if !check(f.v) { return Failed(BadCode); }
      nCcalls := nCcalls - 1;
      return f;
    }

    method LoadChildren(n: nat, source: Text) returns (o: Outcome<seq<Proto>>)
      modifies this
      ensures Gave(LoadProtos(old(Contents()), n, source, check, old(Room())), o, Contents())
      ensures o.Got? ==> nCcalls == old(nCcalls)
      decreases Room(), 2
    {
      hide Bytecode.LoadFunction;
      var ps: seq<Proto> := [];
      ghost var b, room := Contents(), Room();
      AfterNone(LoadProtos(b, n, source, check, room));
      for i := 0 to n
        invariant nCcalls == old(nCcalls) && room == Room()
        invariant LoadProtos(b, n, source, check, room) == After(ps, LoadProtos(Contents(), n - i, source, check, room))
      {
        var f := LoadFunction(source);
        if f.Failed? { return Failed(f.e); }
        AfterTwice(ps, f.v, LoadProtos(Contents(), n - i - 1, source, check, room));
        ps := ps + [f.v];
      }
      AfterLast(ps, Contents());
      return Got(ps);
    }
  }

  /** `luaU_undump`: the result depends on the bytes alone, not on how the reader splits them. */
  method UndumpFrom(chunks: seq<Bytes>, check: Proto -> bool, nCcalls: nat) returns (o: Outcome<Proto>)
    requires nCcalls <= LUAI_MAXCCALLS
    ensures match Undump(Joined(chunks), check, LUAI_MAXCCALLS - nCcalls)
            case Ok(f, _) => o == Got(f)
            case Err(e) => o == Failed(e)
  {
    hide LoadFunction;
    var S := new LoadState(chunks, check, nCcalls);
    var h := S.LoadBlock(|HEADER|);
    if h.Failed? { return Failed(h.e); }
    if h.v != HEADER { return Failed(BadHeader); }
    o := S.LoadFunction(UNKNOWN);
  }

  /** What the writer was given, split into any chunks, is read back: the same code, and the function itself exactly
      if all its functions have sources. */
  method DumpAndUndump(f: Proto, strip: bool, writer: nat -> int, split: Bytes -> seq<Bytes>, check: Proto -> bool)
      returns (status: int, o: Outcome<Proto>)
    requires Fits(f) && forall b :: Joined(split(b)) == b
    ensures status == 0 && Right(Loaded(f, None, strip, UNKNOWN), check, LUAI_MAXCCALLS) ==> o.Got? && SameCode(f, o.v)
    ensures status == 0 && !strip ==> (o == Got(f) <==> Sourced(f) && Right(f, check, LUAI_MAXCCALLS))
  {
    hide Dump, Undump, Loaded, Right, SameCode, Sourced, Joined;
    var out;
    out, status := DumpTo(writer, f, strip);
    o := Failed(UnexpectedEnd);
    if status == 0 {
      o := UndumpFrom(split(out), check, 0);
      assert out + [] == out;
      UndumpDump(f, strip, check, LUAI_MAXCCALLS, []);
      UndumpIsInverse(f, check, LUAI_MAXCCALLS, []);
    }
  }
}
