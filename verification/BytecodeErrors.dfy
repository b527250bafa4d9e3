/** What undumping makes of bytes that are not a whole chunk (lua/lundump.c:33-48, 161-190): reading goes on exactly the
    same if more bytes follow, so that every chunk that is cut off is reported as such. */
module BytecodeErrors {
  import opened Bytecode

  /** `r'` is the outcome with more bytes `t` after the input of `r`: it is the same, unless the input was too short. */
  ghost predicate Extends<T>(r: Result<T>, r': Result<T>, t: Bytes) {
    match r
    case Ok(v, rest) => r' == Ok(v, rest + t)
    case Err(e) => e == UnexpectedEnd || r' == Err(e)
  }

  lemma BlockExtends(b: Bytes, t: Bytes, n: nat)
    ensures Extends(LoadBlock(b, n), LoadBlock(b + t, n), t)
  {
    if n <= |b| { assert (b + t)[..n] == b[..n] && (b + t)[n..] == b[n..] + t; }
  }

  lemma NatExtends(b: Bytes, t: Bytes, size: nat)
    ensures Extends(LoadNat(b, size), LoadNat(b + t, size), t)
  {
    BlockExtends(b, t, size);
    hide LoadBlock, Decoded;
  }

  lemma ByteExtends(b: Bytes, t: Bytes)
    ensures Extends(LoadByte(b), LoadByte(b + t), t)
  {
    BlockExtends(b, t, 1);
  }

  lemma IntExtends(b: Bytes, t: Bytes)
    ensures Extends(LoadInt(b), LoadInt(b + t), t)
  {
    NatExtends(b, t, SIZE_INT);
    hide LoadNat;
  }

  lemma StringExtends(b: Bytes, t: Bytes)
    ensures Extends(LoadString(b), LoadString(b + t), t)
  {
    NatExtends(b, t, SIZE_SIZE_T);
    hide LoadNat;
    var r := LoadNat(b, SIZE_SIZE_T);
    if r.Ok? { BlockExtends(r.rest, t, r.v); }
  }

  lemma VectorExtends(b: Bytes, t: Bytes)
    ensures Extends(LoadVector(b), LoadVector(b + t), t)
  {
    IntExtends(b, t);
    hide LoadInt, Words;
    var r := LoadInt(b);
    if r.Ok? {
      var n: nat := 4 * (r.v as int);
      BlockExtends(r.rest, t, n);
    }
  }

  lemma ConstExtends(b: Bytes, t: Bytes)
    ensures Extends(LoadConst(b), LoadConst(b + t), t)
  {
    ByteExtends(b, t);
    var r := LoadByte(b);
    if r.Ok? {
      ByteExtends(r.rest, t);
      BlockExtends(r.rest, t, SIZE_NUMBER);
      StringExtends(r.rest, t);
    }
    hide LoadByte, LoadBlock, LoadString, Decoded;
  }

  lemma LocVarExtends(b: Bytes, t: Bytes)
    ensures Extends(LoadLocVar(b), LoadLocVar(b + t), t)
  {
    hide LoadString, LoadInt;
    StringExtends(b, t);
    var r := LoadString(b);
    if r.Ok? {
      IntExtends(r.rest, t);
      var r2 := LoadInt(r.rest);
      if r2.Ok? { IntExtends(r2.rest, t); }
    }
  }

  /** Items that extend make lists that do. */
  ghost predicate ItemExtends<T(!new)>(item: Bytes -> Result<T>) {
    forall b, t :: Extends(item(b), item(b + t), t)
  }

  lemma {:induction false} ManyExtends<T(!new)>(b: Bytes, t: Bytes, n: nat, item: Bytes -> Result<T>)
    requires ItemExtends(item)
    ensures Extends(LoadMany(b, n, item), LoadMany(b + t, n, item), t)
    decreases n
  {
    if n > 0 {
      assert Extends(item(b), item(b + t), t);
      if item(b).Ok? { ManyExtends(item(b).rest, t, n - 1, item); }
    }
  }

  lemma ListExtends<T(!new)>(b: Bytes, t: Bytes, item: Bytes -> Result<T>)
    requires ItemExtends(item)
    ensures Extends(LoadList(b, item), LoadList(b + t, item), t)
  {
    hide ItemExtends, LoadInt, LoadMany;
    IntExtends(b, t);
    if LoadInt(b).Ok? { ManyExtends(LoadInt(b).rest, t, LoadInt(b).v, item); }
  }

  lemma ItemsExtend()
    ensures ItemExtends(LoadConst) && ItemExtends(LoadLocVar) && ItemExtends(LoadString)
  {
    forall b, t ensures Extends(LoadConst(b), LoadConst(b + t), t) { ConstExtends(b, t); }
    forall b, t ensures Extends(LoadLocVar(b), LoadLocVar(b + t), t) { LocVarExtends(b, t); }
    forall b, t ensures Extends(LoadString(b), LoadString(b + t), t) { StringExtends(b, t); }
    hide LoadConst, LoadLocVar, LoadString, Extends;
  }

  lemma HeadExtends(b: Bytes, t: Bytes, source: Text)
    ensures Extends(LoadHead(b, source), LoadHead(b + t, source), t)
  {
    hide LoadInt, LoadBlock, LoadVector, LoadList, ItemExtends;
    ItemsExtend();
    IntExtends(b, t);
    var r1 := LoadInt(b);
    if r1.Ok? {
      IntExtends(r1.rest, t);
      var r2 := LoadInt(r1.rest);
      if r2.Ok? {
        BlockExtends(r2.rest, t, 4);
        var r3 := LoadBlock(r2.rest, 4);
        if r3.Ok? {
          VectorExtends(r3.rest, t);
          var r4 := LoadVector(r3.rest);
          if r4.Ok? { ListExtends(r4.rest, t, LoadConst); }
        }
      }
    }
  }

  lemma DebugExtends(b: Bytes, t: Bytes, f: Proto)
    ensures Extends(LoadDebug(b, f), LoadDebug(b + t, f), t)
  {
    hide LoadVector, LoadList, ItemExtends;
    ItemsExtend();
    VectorExtends(b, t);
    var r1 := LoadVector(b);
    if r1.Ok? {
      ListExtends(r1.rest, t, LoadLocVar);
      var r2 := LoadList(r1.rest, LoadLocVar);
      if r2.Ok? { ListExtends(r2.rest, t, LoadString); }
    }
  }

  lemma {:induction false} FunctionExtends(b: Bytes, t: Bytes, parent: Text, check: Proto -> bool, room: nat)
    ensures Extends(LoadFunction(b, parent, check, room), LoadFunction(b + t, parent, check, room), t)
    decreases room, 1, 0
  {
    hide LoadString, LoadHead, LoadInt, LoadProtos, LoadDebug;
    if room > 0 {
      StringExtends(b, t);
      var r1 := LoadString(b);
      if r1.Ok? {
        var source := if r1.v.None? then parent else r1.v;
        HeadExtends(r1.rest, t, source);
        var r2 := LoadHead(r1.rest, source);
        if r2.Ok? {
          IntExtends(r2.rest, t);
          var r3 := LoadInt(r2.rest);
          if r3.Ok? {
            ProtosExtend(r3.rest, t, r3.v, r2.v.source, check, room - 1);
            var r4 := LoadProtos(r3.rest, r3.v, r2.v.source, check, room - 1);
            if r4.Ok? { DebugExtends(r4.rest, t, r2.v.(p := r4.v)); }
          }
        }
      }
    }
  }

  lemma {:induction false} ProtosExtend(b: Bytes, t: Bytes, n: nat, parent: Text, check: Proto -> bool, room: nat)
    ensures Extends(LoadProtos(b, n, parent, check, room), LoadProtos(b + t, n, parent, check, room), t)
    decreases room, 2, n
  {
    hide LoadFunction, LoadProtos, After, Extends;
    if n == 0 {
      NoProtos(b, t, parent, check, room);
    } else {
      var r, r' := LoadFunction(b, parent, check, room), LoadFunction(b + t, parent, check, room);
      FunctionExtends(b, t, parent, check, room);
      ProtosStep(b, n, parent, check, room);
      ProtosStep(b + t, n, parent, check, room);
      if r.Ok? {
        ExtendsIs(r, r', t);
        ProtosExtend(r.rest, t, n - 1, parent, check, room);
        AfterExtends([r.v], LoadProtos(r.rest, n - 1, parent, check, room),
          LoadProtos(r.rest + t, n - 1, parent, check, room), t);
      } else {
        ExtendsErr(LoadProtos(b, n, parent, check, room), LoadProtos(b + t, n, parent, check, room), r, r', t);
      }
    }
  }

  lemma NoProtos(b: Bytes, t: Bytes, parent: Text, check: Proto -> bool, room: nat)
    ensures Extends(LoadProtos(b, 0, parent, check, room), LoadProtos(b + t, 0, parent, check, room), t)
  {
  }

  lemma ExtendsIs<T>(r: Result<T>, r': Result<T>, t: Bytes)
    requires Extends(r, r', t)
    ensures r.Ok? ==> r' == Ok(r.v, r.rest + t)
  {
  }

  lemma ExtendsErr<S, T>(q: Result<S>, q': Result<S>, r: Result<T>, r': Result<T>, t: Bytes)
    requires Extends(r, r', t) && r.Err? && q == Err(r.e) && (r'.Err? ==> q' == Err(r'.e))
    ensures Extends(q, q', t)
  {
  }

  lemma ProtosStep(b: Bytes, n: nat, parent: Text, check: Proto -> bool, room: nat)
    requires n > 0
    ensures var r := LoadFunction(b, parent, check, room);
            LoadProtos(b, n, parent, check, room)
            == if r.Ok? then After([r.v], LoadProtos(r.rest, n - 1, parent, check, room)) else Err(r.e)
  {
    hide LoadFunction;
  }

  lemma AfterExtends<T>(xs: seq<T>, r: Result<seq<T>>, r': Result<seq<T>>, t: Bytes)
    requires Extends(r, r', t)
    ensures Extends(After(xs, r), After(xs, r'), t)
  {
  }

  // ---------------------------------------------------------------- main results

  /** More bytes after the input change nothing but what is left, unless the input was too short. */
  lemma UndumpExtends(b: Bytes, t: Bytes, check: Proto -> bool, room: nat)
    ensures Extends(Undump(b, check, room), Undump(b + t, check, room), t)
  {
    hide LoadBlock, LoadFunction;
    BlockExtends(b, t, |HEADER|);
    var r := LoadBlock(b, |HEADER|);
    if r.Ok? { FunctionExtends(r.rest, t, UNKNOWN, check, room); }
  }

  /** If reading takes all bytes of a chunk, or fails at their end, every chunk that is cut off before is truncated. */
  lemma CutOffIsTruncated(b: Bytes, t: Bytes, check: Proto -> bool, room: nat)
    requires t != [] && Undump(b + t, check, room).Ok? && Undump(b + t, check, room).rest == []
    ensures Undump(b, check, room) == Err(UnexpectedEnd)
  {
    hide Undump;
    UndumpExtends(b, t, check, room);
    var r := Undump(b, check, room);
    forall rest: Bytes ensures rest + t != [] { }
  }

  /** Nothing is accepted that does not begin with the header. */
  lemma HeaderNeeded(b: Bytes, check: Proto -> bool, room: nat)
    ensures Undump(b, check, room).Ok? ==> |b| >= 12 && b[..12] == HEADER
    ensures |b| >= 12 && b[..12] != HEADER ==> Undump(b, check, room) == Err(BadHeader)
    ensures |b| < 12 ==> Undump(b, check, room) == Err(UnexpectedEnd)
  {
    hide LoadFunction;
  }
}
