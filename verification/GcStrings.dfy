/** The string table while it is being swept and resized (lua/lstring.c:22-92): strings of equal content are
    one object, each in the list that its hash selects, and a dead string that is found again is revived. */
module GcStrings {
  import opened Wrappers
  import opened GcHeap
  import opened GcMark
  import opened GcCollector
  import opened GcState
  import opened GcMutator
  import opened GcAllocate

  // ---------------------------------------------------------------- resizing

  lemma {:induction false} RehashCount(g: G, l: seq<Id>, t: seq<seq<Id>>, b: nat, id: Id)
    requires b < |t|
    ensures multiset(Rehash(g, l, t)[b])[id]
         == multiset(t[b])[id] + if Bucket(g, TextOf(g.m, id), |t|) == b then multiset(l)[id] else 0
    decreases |l|
  {
    if l != [] {
      var c := Bucket(g, TextOf(g.m, l[0]), |t|);
      RehashCount(g, l[1..], t[c := [l[0]] + t[c]], b, id);
      assert l == [l[0]] + l[1..];
    }
  }

  function Total(ls: seq<seq<Id>>, id: Id): nat { if ls == [] then 0 else multiset(ls[0])[id] + Total(ls[1..], id) }

  lemma {:induction false} RehashAllCount(g: G, ls: seq<seq<Id>>, t: seq<seq<Id>>, b: nat, id: Id)
    requires b < |t|
    ensures multiset(RehashAll(g, ls, t)[b])[id]
         == multiset(t[b])[id] + if Bucket(g, TextOf(g.m, id), |t|) == b then Total(ls, id) else 0
    decreases |ls|
  {
    if ls != [] {
      RehashCount(g, ls[0], t, b, id);
      RehashAllCount(g, ls[1..], Rehash(g, ls[0], t), b, id);
    }
  }

  predicate IsStr(m: Marking, id: Id) { id in m.objs && m.objs[id].Str? }

  lemma {:induction false} TotalIs(g: G, k: nat, id: Id)
    requires StringsOk(g) && k <= |g.strt|
    ensures Total(g.strt[k..], id) == if IsStr(g.m, id) && Bucket(g, TextOf(g.m, id), |g.strt|) >= k then 1 else 0
    decreases |g.strt| - k
  {
    if k < |g.strt| {
      TotalIs(g, k + 1, id);
      assert g.strt[k..][1..] == g.strt[k + 1..];
      assert multiset(g.strt[k])[id] == if InStringList(g, id, k) then 1 else 0;
    }
  }

  /** Every string moves to its new list, and only there. */
  lemma ResizeStrings(g: G, size: nat)
    requires StringsOk(g) && size > 0
    ensures StringsOk(Resize(g, size))
  {
    var g' := Resize(g, size);
    if g.phase != SweepString {
      var t := seq(size, _ => []);
      forall b, id | 0 <= b < |g'.strt| ensures multiset(g'.strt[b])[id] == if InStringList(g', id, b) then 1 else 0 {
        RehashAllCount(g, g.strt, t, b, id);
        TotalIs(g, 0, id);
        assert g.strt[0..] == g.strt;
      }
    }
  }

  lemma ResizeStruct(g: G, size: nat)
    requires Struct(g) && size > 0
    ensures Struct(Resize(g, size))
  {
    var g' := Resize(g, size);
    StructIs(g, {});
    ResizeOwners(g, size);
    hide StructBut, RootsOk, UdataOk, StringsOk, OpenOk, ThreadsOk, HomesOk, Interned, FixedOk, Resize, StringIds;
    ResizeStrings(g, size);
    StructMade(g', {});
  }

  lemma ResizeOwners(g: G, size: nat)
    requires RootsOk(g, {}) && UdataOk(g, {}) && OpenOk(g) && FixedOk(g)
    ensures var g' := Resize(g, size);
            RootsOk(g', {}) && UdataOk(g', {}) && OpenOk(g') && FixedOk(g') && g'.m == g.m && g'.nuse == g.nuse
              && g'.hash == g.hash
  {
    hide RootKind, IsOpen, RehashAll;
  }

  lemma ResizeSwept(g: G, size: nat)
    requires SweptOk(g)
    ensures SweptOk(Resize(g, size))
  {
    var g' := Resize(g, size);
    forall x ensures Passed(g', x) == Passed(g, x) { }
    hide Passed;
    forall j | j in g'.m.objs && SweptId(g', j) ensures Clean(g'.m, j) { assert SweptId(g, j); }
  }

  lemma ResizeBase(g: G, size: nat)
    requires BaseInv(g) && size > 0
    ensures BaseInv(Resize(g, size))
    ensures var g' := Resize(g, size);
            g'.m == g.m && g'.phase == g.phase && g'.tmudata == g.tmudata && RootList(g') == RootList(g)
              && g'.swept == g.swept
            && g'.sweepstr == g.sweepstr && (g.phase == SweepString ==> g'.strt == g.strt) && g'.main == g.main
            && g'.registry == g.registry
  {
    var g' := Resize(g, size);
    assert g'.m == g.m && RootVals(g') == RootVals(g) && g'.tmudata == g.tmudata;
    hide Struct, KindsOk, AliveClosed, Resize;
    ResizeStruct(g, size);
  }

  lemma ResizeKeeps(g: G, size: nat)
    requires Inv(g) && size > 0
    ensures Inv(Resize(g, size))
  {
    var g' := Resize(g, size);
    if g.phase == Propagating {
      MarkBaseIs(g);
      hide Inv, BaseInv, MarkInv, OneWhite, BlackExist, Resize;
      ResizeBase(g, size);
      MarkBaseIs(g');
    } else {
      IdleIs(g);
      hide Inv, BaseInv, SweptOk, Resize;
      ResizeBase(g, size);
      ResizeSwept(g, size);
      IdleIs(g');
    }
  }

  // ---------------------------------------------------------------- looking a string up

  function Find(m: Marking, l: seq<Id>, text: string): Val {
    if l == [] then Nil else if IsStr(m, l[0]) && m.objs[l[0]].text == text then Ref(l[0]) else Find(m, l[1..], text)
  }

  lemma {:induction false} FindIs(m: Marking, l: seq<Id>, text: string)
    ensures var r := Find(m, l, text);
            && (r.Ref? ==> r.id in l && IsStr(m, r.id) && m.objs[r.id].text == text)
            && (r == Nil ==> forall id :: id in l && IsStr(m, id) ==> m.objs[id].text != text)
            && (r.Ref? || r == Nil)
    decreases |l|
  {
    if l != [] {
      FindIs(m, l[1..], text);
      assert l == [l[0]] + l[1..];
    }
  }

  /** `newlstr`: the table grows when it holds more strings than lists. */
  function NewString(g: G, id: Id, text: string): G
    requires |g.strt| > 0
  {
    var b := Bucket(g, text, |g.strt|);
    var g1 := g.(m := AddObj(g.m, id, Str(text)), strt := g.strt[b := [id] + g.strt[b]], nuse := g.nuse + 1);
    if g1.nuse > |g.strt| && |g.strt| <= MAX_INT / 2 then Resize(g1, |g.strt| * 2) else g1
  }

  /** The string with this content, if there is one. */
  function StringWith(g: G, text: string): Val
    requires |g.strt| > 0
  {
    Find(g.m, g.strt[Bucket(g, text, |g.strt|)], text)
  }

  function Revive(g: G, id: Id): G {
    if id in g.m.marks && g.m.marks[id].colour == White(!g.m.cw) then g.(m := SetColour(g.m, id, White(g.m.cw))) else g
  }

  /** `luaS_newlstr`: `id` is used if the string is new. */
  function Intern(g: G, id: Id, text: string): G
    requires |g.strt| > 0
  {
    var r := StringWith(g, text);
    if r.Ref? then Revive(g, r.id) else NewString(g, id, text)
  }

  function Interning(g: G, id: Id, text: string): Val
    requires |g.strt| > 0
  {
    var r := StringWith(g, text);
    if r.Ref? then r else Ref(id)
  }

  /** A string is found exactly if there is one with this content. */
  lemma LookupIs(g: G, text: string)
    requires StringsOk(g)
    ensures var r := StringWith(g, text);
            && (r.Ref? ==> IsStr(g.m, r.id) && g.m.objs[r.id].text == text)
            && (r == Nil ==> forall id :: IsStr(g.m, id) ==> g.m.objs[id].text != text)
            && (r.Ref? || r == Nil)
  {
    var b := Bucket(g, text, |g.strt|);
    FindIs(g.m, g.strt[b], text);
    forall id | IsStr(g.m, id) && g.m.objs[id].text == text ensures id in g.strt[b] {
      assert multiset(g.strt[b])[id] == if InStringList(g, id, b) then 1 else 0;
    }
  }

  // ---------------------------------------------------------------- a string that is found

  /** An object that refers to nothing may be whitened even if it is dead. */
  lemma ReviveAlive(g: G, id: Id)
    requires AliveClosed(g.m) && RootsAlive(g) && id in g.m.objs
             && forall x :: Refers(g.m.objs, id, x) ==> Alive(g.m, x)
    ensures var g' := g.(m := SetColour(g.m, id, White(g.m.cw)));
            AliveClosed(g'.m) && RootsAlive(g') && Alive(g'.m, id)
  {
    var g' := g.(m := SetColour(g.m, id, White(g.m.cw)));
    forall j ensures Alive(g.m, j) ==> Alive(g'.m, j) { }
    forall j | j != id ensures Alive(g'.m, j) == Alive(g.m, j) { }
    assert Alive(g'.m, id);
    assert RootVals(g') == RootVals(g);
    hide Alive;
    forall j, x | Alive(g'.m, j) && Refers(g'.m.objs, j, x) ensures Alive(g'.m, x) { assert Refers(g.m.objs, j, x); }
  }

  lemma WhiteKinds(m: Marking, id: Id)
    requires KindsOk(m) && id in m.objs
    ensures KindsOk(SetColour(m, id, White(m.cw)))
  {
    WhiteIsOk(m.objs[id], m.cw);
  }

  lemma ReviveIdle(g: G, id: Id)
    requires IdleInv(g) && id in g.m.objs && forall x :: Refers(g.m.objs, id, x) ==> Alive(g.m, x)
    ensures var g' := g.(m := SetColour(g.m, id, White(g.m.cw))); IdleInv(g') && Alive(g'.m, id)
  {
    WhiteKinds(g.m, id);
    hide Struct, AliveClosed, RootsAlive, KindsOk, Alive, SetColour, SweptOk, RootList;
    RecolourStruct(g, id, White(g.m.cw));
    ReviveAlive(g, id);
    RecolourSwept(g, id, White(g.m.cw));
  }

  /** In the mark phase nothing is dead. */
  lemma NothingDead(g: G, id: Id)
    requires MarkBase(g, []) && id in g.m.objs
    ensures Alive(g.m, id) && Revive(g, id) == g
  {
  }

  lemma ReviveKeeps(g: G, id: Id)
    requires Inv(g) && id in g.m.objs && forall x :: Refers(g.m.objs, id, x) ==> Alive(g.m, x)
    ensures Inv(Revive(g, id)) && Alive(Revive(g, id).m, id)
  {
    if g.phase == Propagating {
      MarkBaseIs(g);
      NothingDead(g, id);
    } else {
      AliveOrDead(g, id);
      hide Inv, IdleInv, Revive, Alive, SetColour;
      IdleIs(g);
      if Revive(g, id) != g {
        ReviveIdle(g, id);
        IdleIs(Revive(g, id));
      }
    }
  }

  lemma AliveOrDead(g: G, id: Id)
    requires Inv(g) && id in g.m.objs
    ensures if Revive(g, id) == g then Alive(g.m, id) else Revive(g, id) == g.(m := SetColour(g.m, id, White(g.m.cw)))
    ensures Revive(g, id).phase == g.phase
  {
    hide Struct, AliveClosed, RootsAlive, PhaseOk;
  }

  // ---------------------------------------------------------------- a new string

  /** `NewString` before the table grows. */
  function Chained(g: G, id: Id, text: string): G
    requires |g.strt| > 0
  {
    var b := Bucket(g, text, |g.strt|);
    g.(m := AddObj(g.m, id, Str(text)), strt := g.strt[b := [id] + g.strt[b]], nuse := g.nuse + 1)
  }

  lemma ChainedTable(g: G, id: Id, text: string)
    requires StringsOk(g) && id !in g.m.objs
    ensures StringsOk(Chained(g, id, text))
  {
    var g', b0 := Chained(g, id, text), Bucket(g, text, |g.strt|);
    forall b, s | 0 <= b < |g'.strt| ensures multiset(g'.strt[b])[s] == if InStringList(g', s, b) then 1 else 0 {
      assert multiset(g.strt[b])[s] == if InStringList(g, s, b) then 1 else 0;
      assert multiset([id] + g.strt[b0])[s] == multiset(g.strt[b0])[s] + if s == id then 1 else 0;
    }
  }

  lemma ChainedStrings(g: G, id: Id, text: string)
    requires StringsOk(g) && Interned(g.m) && id !in g.m.objs && g.nuse == |StringIds(g.m)|
    requires forall s :: IsStr(g.m, s) ==> g.m.objs[s].text != text
    ensures var g' := Chained(g, id, text); StringsOk(g') && Interned(g'.m) && g'.nuse == |StringIds(g'.m)|
  {
    var g' := Chained(g, id, text);
    assert StringIds(g'.m) == StringIds(g.m) + {id};
    assert StringsOk(g') by { ChainedTable(g, id, text); }
    hide StringsOk, InStringList;
    forall s | s in g'.m.objs && s != id ensures g'.m.objs[s] == g.m.objs[s] && s in g.m.objs { }
    assert forall s :: s in g.m.objs && g.m.objs[s].Str? ==> IsStr(g.m, s);
  }

  predicate IsRoot(m: Marking, x: Id) { x in m.objs && RootKind(m.objs[x]) }

  predicate IsUdata(m: Marking, x: Id) { x in m.objs && m.objs[x].Udata? }

  predicate IsOpenUpval(m: Marking, x: Id) { x in m.objs && IsOpen(m.objs[x]) }

  lemma AddedString(m: Marking, id: Id, text: string, x: Id)
    requires id !in m.objs
    ensures var m' := AddObj(m, id, Str(text));
            IsRoot(m', x) == IsRoot(m, x) && IsUdata(m', x) == IsUdata(m, x) && IsOpenUpval(m', x) == IsOpenUpval(m, x)
  {
  }

  lemma AddedFixed(g: G, g': G, id: Id, text: string)
    requires FixedOk(g) && id !in g.m.objs && g.m.marks.Keys == g.m.objs.Keys
    requires g'.m == AddObj(g.m, id, Str(text)) && g'.rootgc == g.rootgc && g'.main == g.main && g'.cur == g.cur
    ensures FixedOk(g')
  {
  }

  lemma ChainedLists(g: G, id: Id, text: string)
    requires RootsOk(g, {}) && UdataOk(g, {}) && OpenOk(g) && FixedOk(g) && id !in g.m.objs && |g.strt| > 0
             && g.m.marks.Keys == g.m.objs.Keys
    ensures var g' := Chained(g, id, text); RootsOk(g', {}) && UdataOk(g', {}) && OpenOk(g') && FixedOk(g')
  {
    var g' := Chained(g, id, text);
    assert g'.rootgc == g.rootgc && g'.udata == g.udata && g'.tmudata == g.tmudata && g'.uvhead == g.uvhead
           && g'.m == AddObj(g.m, id, Str(text));
    assert g'.main == g.main && g'.cur == g.cur;
    hide RootKind, IsOpen, Chained, FixedOk, AddObj;
    AddedFixed(g, g', id, text);
    forall x ensures multiset(g'.rootgc)[x] == if x in g'.m.objs && RootKind(g'.m.objs[x]) && x !in {} then 1 else 0 {
      AddedString(g.m, id, text, x);
      assert multiset(g.rootgc)[x] == if IsRoot(g.m, x) && x !in {} then 1 else 0;
    }
    forall x
      ensures multiset(g'.udata)[x] + multiset(g'.tmudata)[x] == if x in g'.m.objs && g'.m.objs[x].Udata?
              && x !in {} then 1 else 0
    {
      AddedString(g.m, id, text, x);
      assert multiset(g.udata)[x] + multiset(g.tmudata)[x] == if IsUdata(g.m, x) && x !in {} then 1 else 0;
    }
    forall x ensures multiset(g'.uvhead)[x] == if x in g'.m.objs && IsOpen(g'.m.objs[x]) then 1 else 0 {
      AddedString(g.m, id, text, x);
      assert multiset(g.uvhead)[x] == if IsOpenUpval(g.m, x) then 1 else 0;
    }
  }

  lemma ChainedBase(g: G, id: Id, text: string)
    requires BaseInv(g) && id !in g.m.objs && |g.strt| > 0
    requires forall s :: IsStr(g.m, s) ==> g.m.objs[s].text != text
    ensures BaseInv(Chained(g, id, text))
  {
    var g' := Chained(g, id, text);
    StructIs(g, {});
    ChainedLists(g, id, text);
    assert FieldsAt(AddObj(g.m, id, Str(text)).objs, id) == [];
    assert g'.m == AddObj(g.m, id, Str(text)) && RootVals(g') == RootVals(g) && g'.tmudata == g.tmudata;
    hide StructBut, RootsOk, UdataOk, StringsOk, OpenOk, ThreadsOk, HomesOk, Interned, FixedOk, Chained, AddObj,
      AliveClosed, RootsAlive, StringIds, FieldsAt;
    ChainedStrings(g, id, text);
    AddedThreads(g.m, id, Str(text));
    AddedClosed(g.m, id, Str(text));
    AddedKinds(g.m, id, Str(text));
    AddedRoots(g, g', id, Str(text));
    StructMade(g', {});
  }

  lemma ChainedSwept(g: G, id: Id, text: string)
    requires SweptOk(g) && id !in g.m.objs && HomesOk(g.m) && |g.strt| > 0
    ensures SweptOk(Chained(g, id, text))
  {
    var g' := Chained(g, id, text);
    forall x ensures Passed(g', x) == Passed(g, x) { }
    hide Passed;
    forall j | j in g'.m.objs && SweptId(g', j) ensures Clean(g'.m, j) {
      if j != id { assert SweptId(g, j); }
    }
  }

  lemma ChainedMark(g: G, id: Id, text: string)
    requires MarkBase(g, []) && id !in g.m.objs && |g.strt| > 0
    requires forall s :: IsStr(g.m, s) ==> g.m.objs[s].text != text
    ensures MarkBase(Chained(g, id, text), [])
  {
    var g' := Chained(g, id, text);
    BaseParts(g);
    assert g'.m == AddObj(g.m, id, Str(text)) && g'.phase == g.phase && g'.main == g.main && g'.registry == g.registry
           && g'.tmudata == g.tmudata;
    hide BaseInv, MarkInv, OneWhite, BlackExist, Chained, AddObj;
    ChainedBase(g, id, text);
    AddedSettled(g.m, Ids(g.tmudata), id, Str(text));
    AddedWhites(g.m, id, Str(text));
  }

  lemma ChainedIdle(g: G, id: Id, text: string)
    requires IdleInv(g) && id !in g.m.objs && |g.strt| > 0
    requires forall s :: IsStr(g.m, s) ==> g.m.objs[s].text != text
    ensures IdleInv(Chained(g, id, text))
  {
    var g' := Chained(g, id, text);
    BaseParts(g);
    assert g'.phase == g.phase && g'.tmudata == g.tmudata && g'.sweepstr == g.sweepstr && |g'.strt| == |g.strt|
           && g'.swept == g.swept && RootList(g') == RootList(g);
    hide BaseInv, Chained, SweptOk, RootList;
    ChainedBase(g, id, text);
    ChainedSwept(g, id, text);
  }

  lemma ChainedKeeps(g: G, id: Id, text: string)
    requires Inv(g) && id !in g.m.objs && |g.strt| > 0
    requires forall s :: IsStr(g.m, s) ==> g.m.objs[s].text != text
    ensures Inv(Chained(g, id, text))
  {
    assert Chained(g, id, text).phase == g.phase;
    hide Inv, MarkBase, IdleInv, Chained;
    if g.phase == Propagating {
      MarkBaseIs(g);
      ChainedMark(g, id, text);
      MarkBaseIs(Chained(g, id, text));
    } else {
      IdleIs(g);
      ChainedIdle(g, id, text);
      IdleIs(Chained(g, id, text));
    }
  }

  lemma StringTable(g: G)
    requires Inv(g)
    ensures StringsOk(g) && Interned(g.m) && |g.strt| > 0 && g.m.marks.Keys == g.m.objs.Keys
  {
    StructIs(g, {});
  }

  lemma InternNew(g: G, id: Id, text: string)
    requires Inv(g) && id !in g.m.objs && |g.strt| > 0 && StringWith(g, text) == Nil
    ensures var g' := NewString(g, id, text); Inv(g') && Alive(g'.m, id) && g'.m == AddObj(g.m, id, Str(text))
  {
    StringTable(g);
    LookupIs(g, text);
    AddedAlive(g.m, id, Str(text));
    var g1 := Chained(g, id, text);
    assert g1.m == AddObj(g.m, id, Str(text)) && |g1.strt| == |g.strt|;
    assert NewString(g, id, text) == if g1.nuse > |g.strt| && |g.strt| <= MAX_INT / 2 then Resize(g1, |g.strt| * 2)
           else g1;
    assert Resize(g1, |g.strt| * 2).m == g1.m;
    hide Inv, Chained, NewString, Resize, StringWith, AddObj, Alive, StringsOk, Interned;
    ChainedKeeps(g, id, text);
    if g1.nuse > |g.strt| && |g.strt| <= MAX_INT / 2 { ResizeKeeps(g1, |g.strt| * 2); }
  }

  lemma InternOld(g: G, r: Id, text: string)
    requires Inv(g) && IsStr(g.m, r)
    ensures Inv(Revive(g, r)) && Alive(Revive(g, r).m, r) && Revive(g, r).m.objs == g.m.objs
  {
    StringHoldsNothing(g.m, r);
    ReviveObjs(g, r);
    hide Inv, Refers, Revive, Alive;
    ReviveKeeps(g, r);
  }

  lemma StringHoldsNothing(m: Marking, r: Id)
    requires IsStr(m, r)
    ensures forall x :: !Refers(m.objs, r, x)
  {
  }

  lemma ReviveObjs(g: G, r: Id)
    ensures Revive(g, r).m.objs == g.m.objs
  {
  }

  lemma OnlyOne(m: Marking, r: Id)
    requires Interned(m) && IsStr(m, r)
    ensures forall s :: IsStr(m, s) && m.objs[s].text == m.objs[r].text ==> s == r
  {
  }

  /** The string that is handed out is alive and has the content asked for, and no other string has it. The
      invariant is kept in every phase, also in the middle of a sweep of the table. */
  lemma InternKeeps(g: G, id: Id, text: string)
    requires Inv(g) && id !in g.m.objs
    ensures |g.strt| > 0
    ensures var g', r := Intern(g, id, text), Interning(g, id, text);
            && Inv(g') && r.Ref? && IsStr(g'.m, r.id) && g'.m.objs[r.id].text == text && Alive(g'.m, r.id)
            && forall s :: IsStr(g'.m, s) && g'.m.objs[s].text == text ==> s == r.id
  {
    StringTable(g);
    LookupIs(g, text);
    var g', r := Intern(g, id, text), Interning(g, id, text);
    hide Inv, StringWith, Revive, NewString, StringsOk, Interned, Alive;
    if StringWith(g, text).Ref? { InternOld(g, r.id, text); } else { InternNew(g, id, text); }
    StringTable(g');
    OnlyOne(g'.m, r.id);
  }
}
