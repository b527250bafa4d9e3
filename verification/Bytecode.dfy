/** Precompiled chunks: what lua/ldump.c writes and what lua/lundump.c makes of bytes, as functions. The sizes and
    the byte order are those of a little-endian machine with 32-bit `int` and 64-bit `size_t`; the header says so.
    A number is its memory image. */
module Bytecode {
  import opened Wrappers

  type Byte = x: int | 0 <= x < 256

  type Bytes = seq<Byte>

  const SIZE_INT := 4
  const SIZE_SIZE_T := 8
  const SIZE_INSTRUCTION := 4
  const SIZE_NUMBER := 8
  const LUAI_MAXCCALLS := 200

  const LUA_TNIL: Byte := 0
  const LUA_TBOOLEAN: Byte := 1
  const LUA_TNUMBER: Byte := 3
  const LUA_TSTRING: Byte := 4

  /** An `int` that is not negative, a 32-bit word, and the memory image of a number. */
  type Count = x: int | 0 <= x < 0x8000_0000

  type Word = x: int | 0 <= x < 0x1_0000_0000

  type Image = x: int | 0 <= x < 0x1_0000_0000_0000_0000

  /** A string object, or none. */
  type Text = Option<Bytes>

  datatype Const = KNil | KBool(b: bool) | KNumber(image: Image) | KString(s: Text)

  datatype LocVar = LocVar(varname: Text, startpc: Count, endpc: Count)

  datatype Proto = Proto(source: Text, linedefined: Count, lastlinedefined: Count,
                         nups: Byte, numparams: Byte, isVararg: Byte, maxstacksize: Byte,
                         code: seq<Word>, k: seq<Const>, p: seq<Proto>,
                         lineinfo: seq<Word>, locvars: seq<LocVar>, upvalues: seq<Text>)

  // ---------------------------------------------------------------- what can be counted

  predicate TextFits(s: Text) { s.Some? ==> |s.value| + 1 < 0x1_0000_0000_0000_0000 }

  predicate CountFits<T>(s: seq<T>) { |s| < 0x8000_0000 }

  /** The lengths of strings and vectors are within their C types. */
  predicate Fits(f: Proto) {
    && TextFits(f.source) && CountFits(f.code) && CountFits(f.lineinfo)
    && CountFits(f.k) && CountFits(f.p) && CountFits(f.locvars) && CountFits(f.upvalues)
    && (forall i :: 0 <= i < |f.k| ==> f.k[i].KString? ==> TextFits(f.k[i].s))
    && (forall i :: 0 <= i < |f.locvars| ==> TextFits(f.locvars[i].varname))
    && (forall i :: 0 <= i < |f.upvalues| ==> TextFits(f.upvalues[i]))
    && forall i :: 0 <= i < |f.p| ==> Fits(f.p[i])
  }

  // ---------------------------------------------------------------- writing

  /** The memory image of a number. */
  function DumpNat(x: nat, size: nat): (r: Bytes)
    ensures |r| == size
  {
    if size == 0 then [] else [x % 256] + DumpNat(x / 256, size - 1)
  }

  function DumpInt(x: nat): Bytes { DumpNat(x, SIZE_INT) }

  function DumpString(s: Text): Bytes {
    match s
    case None => DumpNat(0, SIZE_SIZE_T)
    case Some(t) => DumpNat(|t| + 1, SIZE_SIZE_T) + (t + [0])
  }

  function DumpWords(ws: seq<Word>): Bytes { if ws == [] then [] else DumpNat(ws[0], 4) + DumpWords(ws[1..]) }

  function DumpVector(ws: seq<Word>): Bytes { DumpInt(|ws|) + DumpWords(ws) }

  function DumpConst(c: Const): Bytes {
    match c
    case KNil => [LUA_TNIL]
    case KBool(b) => [LUA_TBOOLEAN, if b then 1 else 0]
    case KNumber(x) => [LUA_TNUMBER] + DumpNat(x, SIZE_NUMBER)
    case KString(s) => [LUA_TSTRING] + DumpString(s)
  }

  function DumpLocVar(v: LocVar): Bytes { DumpString(v.varname) + DumpInt(v.startpc) + DumpInt(v.endpc) }

  function DumpConsts(ks: seq<Const>): Bytes { if ks == [] then [] else DumpConst(ks[0]) + DumpConsts(ks[1..]) }

  function DumpLocVars(vs: seq<LocVar>): Bytes { if vs == [] then [] else DumpLocVar(vs[0]) + DumpLocVars(vs[1..]) }

  function DumpTexts(ts: seq<Text>): Bytes { if ts == [] then [] else DumpString(ts[0]) + DumpTexts(ts[1..]) }

  function DumpDebug(f: Proto): Bytes {
    DumpVector(f.lineinfo) + (DumpInt(|f.locvars|) + DumpLocVars(f.locvars))
      + (DumpInt(|f.upvalues|) + DumpTexts(f.upvalues))
  }

  /** Without debug information. */
  function Stripped(f: Proto, strip: bool): Proto {
    if strip then f.(lineinfo := [], locvars := [], upvalues := []) else f
  }

  function SourceOf(f: Proto, parent: Text, strip: bool): Text {
    if f.source == parent || strip then None else f.source
  }

  function DumpHead(f: Proto): Bytes {
    DumpInt(f.linedefined) + DumpInt(f.lastlinedefined) + [f.nups, f.numparams, f.isVararg, f.maxstacksize]
    + DumpVector(f.code) + (DumpInt(|f.k|) + DumpConsts(f.k))
  }

  function DumpFunction(f: Proto, parent: Text, strip: bool): Bytes
    decreases f, 0
  {
    DumpString(SourceOf(f, parent, strip)) + DumpHead(f) + (DumpInt(|f.p|) + DumpProtos(f, 0, strip))
      + DumpDebug(Stripped(f, strip))
  }

  /** The functions inside `f` from the i-th on. */
  function DumpProtos(f: Proto, i: nat, strip: bool): Bytes
    requires i <= |f.p|
    decreases f, 0, |f.p| - i
  {
    if i == |f.p| then [] else DumpFunction(f.p[i], f.source, strip) + DumpProtos(f, i + 1, strip)
  }

  const HEADER: Bytes := [0x1B, 0x4C, 0x75, 0x61, 0x51, 0, 1, SIZE_INT, SIZE_SIZE_T, SIZE_INSTRUCTION, SIZE_NUMBER, 0]

  /** `luaU_dump` */
  function Dump(f: Proto, strip: bool): Bytes { HEADER + DumpFunction(f, None, strip) }

  // ---------------------------------------------------------------- reading

  datatype Error = UnexpectedEnd | BadInteger | BadConstant | TooDeep | BadCode | BadHeader

  datatype Result<+T> = Ok(v: T, rest: Bytes) | Err(e: Error)

  function LoadBlock(b: Bytes, n: nat): Result<Bytes> { if n <= |b| then Ok(b[..n], b[n..]) else Err(UnexpectedEnd) }

  function Power(n: nat): nat { if n == 0 then 1 else 256 * Power(n - 1) }

  lemma Powers()
    ensures Power(4) == 0x1_0000_0000 && Power(8) == 0x1_0000_0000_0000_0000
  {
    assert Power(2) == 0x1_0000 && Power(3) == 0x100_0000;
    assert Power(5) == 0x100_0000_0000 && Power(6) == 0x1_0000_0000_0000 && Power(7) == 0x100_0000_0000_0000;
  }

  /** The number with this memory image. */
  function Decoded(b: Bytes): (r: nat)
    ensures r < Power(|b|)
  {
    if b == [] then 0 else b[0] as int + 256 * Decoded(b[1..])
  }

  function LoadNat(b: Bytes, size: nat): Result<nat> {
    match LoadBlock(b, size)
    case Ok(v, rest) => Ok(Decoded(v), rest)
    case Err(e) => Err(e)
  }

  function LoadByte(b: Bytes): Result<Byte> {
    match LoadBlock(b, 1)
    case Ok(v, rest) => Ok(v[0], rest)
    case Err(e) => Err(e)
  }

  function LoadInt(b: Bytes): Result<Count> {
    match LoadNat(b, SIZE_INT)
    case Ok(x, rest) => if x >= 0x8000_0000 then Err(BadInteger) else Ok(x, rest)
    case Err(e) => Err(e)
  }

  function LoadString(b: Bytes): Result<Text> {
    match LoadNat(b, SIZE_SIZE_T)
    case Err(e) => Err(e)
    case Ok(size, rest) =>
      if size == 0 then Ok(None, rest)
      else
        match LoadBlock(rest, size)
        case Ok(t, rest) => Ok(Some(t[..size - 1]), rest)
        case Err(e) => Err(e)
  }

  function WordAt(b: Bytes): Word
    requires |b| >= 4
  {
    Powers();
    Decoded(b[..4])
  }

  function Words(b: Bytes): seq<Word> { if |b| < 4 then [] else [WordAt(b)] + Words(b[4..]) }

  function LoadVector(b: Bytes): Result<seq<Word>> {
    match LoadInt(b)
    case Err(e) => Err(e)
    case Ok(n, rest) =>
      match LoadBlock(rest, 4 * n)
      case Ok(v, rest) => Ok(Words(v), rest)
      case Err(e) => Err(e)
  }

  function LoadConst(b: Bytes): Result<Const> {
    match LoadByte(b)
    case Err(e) => Err(e)
    case Ok(t, rest) =>
      if t == LUA_TNIL then Ok(KNil, rest)
      else if t == LUA_TBOOLEAN then
        match LoadByte(rest)
        case Ok(x, rest) => Ok(KBool(x != 0), rest)
        case Err(e) => Err(e)
      else if t == LUA_TNUMBER then
        match LoadBlock(rest, SIZE_NUMBER)
        case Ok(v, rest) => Powers(); Ok(KNumber(Decoded(v)), rest)
        case Err(e) => Err(e)
      else if t == LUA_TSTRING then
        match LoadString(rest)
        case Ok(s, rest) => Ok(KString(s), rest)
        case Err(e) => Err(e)
      else Err(BadConstant)
  }

  function LoadLocVar(b: Bytes): Result<LocVar> {
    match LoadString(b)
    case Err(e) => Err(e)
    case Ok(s, rest) =>
      match LoadInt(rest)
      case Err(e) => Err(e)
      case Ok(x, rest) =>
        match LoadInt(rest)
        case Ok(y, rest) => Ok(LocVar(s, x, y), rest)
        case Err(e) => Err(e)
  }

  /** `n` items, one after the other. */
  function LoadMany<T>(b: Bytes, n: nat, item: Bytes -> Result<T>): Result<seq<T>>
    decreases n
  {
    if n == 0 then Ok([], b)
    else
      match item(b)
      case Err(e) => Err(e)
      case Ok(x, rest) => After([x], LoadMany(rest, n - 1, item))
  }

  /** The items that have been read come first. */
  function After<T>(xs: seq<T>, r: Result<seq<T>>): Result<seq<T>> { if r.Ok? then Ok(xs + r.v, r.rest) else r }

  /** A count and as many items. */
  function LoadList<T>(b: Bytes, item: Bytes -> Result<T>): Result<seq<T>> {
    match LoadInt(b)
    case Ok(n, rest) => LoadMany(rest, n, item)
    case Err(e) => Err(e)
  }

  const EMPTY := Proto(None, 0, 0, 0, 0, 0, 0, [], [], [], [], [], [])

  /** The fields up to the constants. */
  function LoadHead(b: Bytes, source: Text): Result<Proto> {
    match LoadInt(b) case Err(e) => Err(e) case Ok(l, b) =>
    match LoadInt(b) case Err(e) => Err(e) case Ok(ll, b) =>
    match LoadBlock(b, 4) case Err(e) => Err(e) case Ok(bs, b) =>
    match LoadVector(b) case Err(e) => Err(e) case Ok(code, b) =>
    match LoadList(b, LoadConst) case Err(e) => Err(e) case Ok(k, b) =>
    Ok(EMPTY.(source := source, linedefined := l, lastlinedefined := ll, nups := bs[0], numparams := bs[1],
      isVararg := bs[2],
              maxstacksize := bs[3], code := code, k := k), b)
  }

  function LoadDebug(b: Bytes, f: Proto): Result<Proto> {
    match LoadVector(b) case Err(e) => Err(e) case Ok(lines, b) =>
    match LoadList(b, LoadLocVar) case Err(e) => Err(e) case Ok(vs, b) =>
    match LoadList(b, LoadString) case Err(e) => Err(e) case Ok(us, b) =>
    Ok(f.(lineinfo := lines, locvars := vs, upvalues := us), b)
  }

  /** `check` is `luaG_checkcode`, whatever it accepts; `room` calls may still be nested. */
  function LoadFunction(b: Bytes, parent: Text, check: Proto -> bool, room: nat): Result<Proto>
    decreases room, 1, 0
  {
    if room == 0 then Err(TooDeep) else
    match LoadString(b) case Err(e) => Err(e) case Ok(s, b) =>
    match LoadHead(b, if s.None? then parent else s) case Err(e) => Err(e) case Ok(f, b) =>
    match LoadInt(b) case Err(e) => Err(e) case Ok(n, b) =>
    match LoadProtos(b, n, f.source, check, room - 1) case Err(e) => Err(e) case Ok(ps, b) =>
    match LoadDebug(b, f.(p := ps)) case Err(e) => Err(e) case Ok(f, b) =>
    if check(f) then Ok(f, b) else Err(BadCode)
  }

  function LoadProtos(b: Bytes, n: nat, parent: Text, check: Proto -> bool, room: nat): Result<seq<Proto>>
    decreases room, 2, n
  {
    if n == 0 then Ok([], b)
    else
      match LoadFunction(b, parent, check, room)
      case Err(e) => Err(e)
      case Ok(f, rest) => After([f], LoadProtos(rest, n - 1, parent, check, room))
  }

  const UNKNOWN: Text := Some([0x3D, 0x3F])

  /** `luaU_undump`; `room` is what the nesting of C calls leaves. */
  function Undump(b: Bytes, check: Proto -> bool, room: nat): Result<Proto> {
    match LoadBlock(b, |HEADER|)
    case Err(e) => Err(e)
    case Ok(h, rest) => if h != HEADER then Err(BadHeader) else LoadFunction(rest, UNKNOWN, check, room)
  }
}
