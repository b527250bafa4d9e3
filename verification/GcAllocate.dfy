/** New objects (lua/lgc.c:686-692, lua/lstring.c:22-92), open upvalues (lua/lfunc.c:53-80) and closing them:
    what is handed out is alive, even if it was garbage a moment ago. */
module GcAllocate {
  import opened GcHeap
  import opened GcMark
  import opened GcCollector
  import opened GcState
  import opened GcMutator

  function NewMark(m: Marking): Mark { Mark(White(m.cw), false, false, false, false) }

  function AddObj(m: Marking, id: Id, obj: Obj): Marking {
    m.(objs := m.objs[id := obj], marks := m.marks[id := NewMark(m)])
  }

  /** A new object has the current white. Userdata are linked after the main thread, all others in front. */
  function Allocate(g: G, id: Id, obj: Obj): G {
    var g1 := g.(m := AddObj(g.m, id, obj));
    if obj.Udata? then g1.(udata := [id] + g.udata, swept := if g.swept > |g.rootgc| then g.swept + 1 else g.swept)
    else Link(g1, id)
  }

  /** What `Allocate` may be asked for. */
  ghost predicate NewOk(g: G, id: Id, obj: Obj) {
    && id !in g.m.objs && (RootKind(obj) || obj.Udata?) && (obj.Thread? ==> obj.open == [])
    && forall v :: v in Fields(g.m.objs, obj, false, false) ==> ValAlive(g.m, v)
  }

  // ---------------------------------------------------------------- adding an object

  lemma AddedFields(m: Marking, id: Id, obj: Obj, j: Id)
    requires id !in m.objs && HomesOk(m) && j in m.objs
    ensures FieldsAt(AddObj(m, id, obj).objs, j) == FieldsAt(m.objs, j)
  {
    assert HomeOk(m, j);
  }

  lemma AddedAlive(m: Marking, id: Id, obj: Obj)
    requires id !in m.objs && m.marks.Keys == m.objs.Keys
    ensures Alive(AddObj(m, id, obj), id)
    ensures forall j :: j != id ==> Alive(AddObj(m, id, obj), j) == Alive(m, j)
  {
  }

  lemma AddedClosed(m: Marking, id: Id, obj: Obj)
    requires id !in m.objs && m.marks.Keys == m.objs.Keys && HomesOk(m) && AliveClosed(m)
    requires !IsOpen(obj) || HomeOk(AddObj(m, id, obj), id)
    requires forall v :: v in FieldsAt(AddObj(m, id, obj).objs, id) ==> ValAlive(m, v)
    ensures AliveClosed(AddObj(m, id, obj))
  {
    var m' := AddObj(m, id, obj);
    AddedAlive(m, id, obj);
    hide Alive, FieldsAt;
    forall j, x | Alive(m', j) && Refers(m'.objs, j, x) ensures Alive(m', x) {
      if j == id {
        assert ValAlive(m, Ref(x));
        AliveExists(m, x);
      } else {
        AliveExists(m, j);
        AddedFields(m, id, obj, j);
        assert Refers(m.objs, j, x);
        AliveExists(m, x);
      }
    }
  }

  lemma AliveExists(m: Marking, x: Id)
    requires Alive(m, x)
    ensures x in m.objs
  {
  }

  lemma AddedThreads(m: Marking, id: Id, obj: Obj)
    requires ThreadsOk(m) && HomesOk(m) && id !in m.objs && !IsOpen(obj) && (obj.Thread? ==> obj.open == [])
    ensures ThreadsOk(AddObj(m, id, obj)) && HomesOk(AddObj(m, id, obj))
  {
    var m' := AddObj(m, id, obj);
    forall u ensures HomeOk(m', u) { assert HomeOk(m, u); }
    forall t | t in m'.objs && m'.objs[t].Thread? ensures OpenListOk(m', t) {
      forall u ensures OpenOn(m', u, t) == (u != id && OpenOn(m, u, t)) { }
      if t == id {
        forall u ensures !OpenOn(m, u, t) { assert HomeOk(m, u); }
      } else {
        assert OpenListOk(m, t);
        assert !OpenOn(m, id, t) && OpenList(m', t) == OpenList(m, t);
        NotListed(m, id, t);
        SameDescending(m, m', OpenList(m, t), id);
      }
    }
  }

  lemma NotListed(m: Marking, id: Id, t: Id)
    requires OpenListOk(m, t) && !OpenOn(m, id, t)
    ensures id !in OpenList(m, t)
  {
    assert multiset(OpenList(m, t))[id] == 0;
  }

  lemma SameDescending(m: Marking, m': Marking, l: seq<Id>, id: Id)
    requires Descending(m, l) && id !in l
    requires forall j :: j in m'.objs && j != id && IsOpen(m'.objs[j]) ==> j in m.objs && m.objs[j] == m'.objs[j]
    ensures Descending(m', l)
  {
    forall i, j | 0 <= i < j < |l| && AtOrAbove(m', l[i], 0) && AtOrAbove(m', l[j], 0)
      ensures m'.objs[l[i]].home.level > m'.objs[l[j]].home.level
    {
      assert l[i] != id && l[j] != id && AtOrAbove(m, l[i], 0) && AtOrAbove(m, l[j], 0);
    }
  }

  lemma AddedStrings(g: G, g': G, id: Id, obj: Obj)
    requires StringsOk(g) && Interned(g.m) && id !in g.m.objs && !obj.Str?
    requires g'.m == AddObj(g.m, id, obj) && g'.strt == g.strt && g'.hash == g.hash
    ensures StringsOk(g') && Interned(g'.m) && StringIds(g'.m) == StringIds(g.m)
  {
    forall b, s | 0 <= b < |g'.strt| ensures multiset(g'.strt[b])[s] == if InStringList(g', s, b) then 1 else 0 {
      assert InStringList(g', s, b) == InStringList(g, s, b);
    }
  }

  lemma AllocateLists(g: G, id: Id, obj: Obj)
    requires RootsOk(g, {}) && UdataOk(g, {}) && OpenOk(g) && id !in g.m.objs && (RootKind(obj) || obj.Udata?)
    ensures var g' := Allocate(g, id, obj); RootsOk(g', {}) && UdataOk(g', {}) && OpenOk(g')
  {
    var g' := Allocate(g, id, obj);
    KindsApart(obj);
    AllocateIs(g, id, obj);
    hide RootKind, IsOpen, Allocate;
    forall x ensures multiset(g'.rootgc)[x] == if x in g'.m.objs && RootKind(g'.m.objs[x]) && x !in {} then 1 else 0 {
      assert multiset(g.rootgc)[x] == if x in g.m.objs && RootKind(g.m.objs[x]) && x !in {} then 1 else 0;
    }
    forall x
      ensures multiset(g'.udata)[x] + multiset(g'.tmudata)[x] == if x in g'.m.objs && g'.m.objs[x].Udata?
              && x !in {} then 1 else 0
    {
      assert multiset(g.udata)[x] + multiset(g.tmudata)[x] == if x in g.m.objs && g.m.objs[x].Udata? && x !in {} then 1
             else 0;
    }
  }

  lemma AllocateIs(g: G, id: Id, obj: Obj)
    ensures var g' := Allocate(g, id, obj);
            && g'.m == AddObj(g.m, id, obj) && g'.uvhead == g.uvhead && g'.tmudata == g.tmudata
            && (forall x :: multiset(g'.rootgc)[x] == multiset(g.rootgc)[x] + if x == id && !obj.Udata? then 1 else 0)
            && (forall x :: multiset(g'.udata)[x] == multiset(g.udata)[x] + if x == id && obj.Udata? then 1 else 0)
  {
  }

  lemma KindsApart(o: Obj)
    ensures !(RootKind(o) && o.Udata?) && !(IsOpen(o) && (RootKind(o) || o.Udata?))
  {
  }

  lemma AllocateFixed(g: G, id: Id, obj: Obj)
    requires FixedOk(g) && id !in g.m.objs && g.m.marks.Keys == g.m.objs.Keys
    ensures FixedOk(Allocate(g, id, obj))
  {
  }

  lemma AllocateStruct(g: G, id: Id, obj: Obj)
    requires Struct(g) && NewOk(g, id, obj) && g.m.marks.Keys == g.m.objs.Keys
    ensures Struct(Allocate(g, id, obj))
  {
    var g' := Allocate(g, id, obj);
    StructIs(g, {});
    assert g'.m == AddObj(g.m, id, obj) && g'.strt == g.strt && g'.hash == g.hash && g'.nuse == g.nuse;
    assert !IsOpen(obj) && !obj.Str?;
    hide StructBut, RootsOk, UdataOk, StringsOk, OpenOk, ThreadsOk, HomesOk, Interned, FixedOk, StringIds, Allocate,
      AddObj, IsOpen, RootKind;
    AllocateLists(g, id, obj);
    AddedThreads(g.m, id, obj);
    AddedStrings(g, g', id, obj);
    AllocateFixed(g, id, obj);
    StructMade(g', {});
  }

  lemma AddedRoots(g: G, g': G, id: Id, obj: Obj)
    requires RootsAlive(g) && g.m.marks.Keys == g.m.objs.Keys && id !in g.m.objs && g'.m == AddObj(g.m, id, obj)
    requires RootVals(g') == RootVals(g) && g'.tmudata == g.tmudata
    ensures RootsAlive(g')
  {
    AddedAlive(g.m, id, obj);
    forall x | Alive(g.m, x) ensures Alive(g'.m, x) { AliveExists(g.m, x); }
  }

  lemma AddedKinds(m: Marking, id: Id, obj: Obj)
    requires KindsOk(m)
    ensures KindsOk(AddObj(m, id, obj))
  {
    WhiteIsOk(obj, m.cw);
  }

  lemma NewFields(g: G, id: Id, obj: Obj)
    requires NewOk(g, id, obj)
    ensures forall v :: v in FieldsAt(AddObj(g.m, id, obj).objs, id) ==> ValAlive(g.m, v)
    ensures !IsOpen(obj)
  {
  }

  lemma AllocateBase(g: G, id: Id, obj: Obj)
    requires BaseInv(g) && NewOk(g, id, obj)
    ensures BaseInv(Allocate(g, id, obj))
  {
    var g' := Allocate(g, id, obj);
    assert g'.m == AddObj(g.m, id, obj) && RootVals(g') == RootVals(g) && g'.tmudata == g.tmudata;
    assert HomesOk(g.m) by { StructIs(g, {}); }
    NewFields(g, id, obj);
    hide Struct, AliveClosed, RootsAlive, Allocate, AddObj, NewOk;
    AllocateStruct(g, id, obj);
    AddedClosed(g.m, id, obj);
    AddedKinds(g.m, id, obj);
    AddedRoots(g, g', id, obj);
  }

  // ---------------------------------------------------------------- the phases

  lemma AddedLists(m: Marking, id: Id, obj: Obj)
    requires ListsOk(m) && KindsOk(m) && id !in m.objs
    ensures ListsOk(AddObj(m, id, obj))
  {
    var m' := AddObj(m, id, obj);
    assert Count(m, id) == 0;
    forall j ensures Count(m', j) == if j in m'.objs && IsGray(m', j) && Traversed(m'.objs[j]) then 1 else 0 {
      assert Count(m', j) == Count(m, j);
    }
    hide Count, Traversed, KindOk;
  }

  /** What a black object holds was there before, and is not white. */
  lemma AddedHolds(m: Marking, q: set<Id>, id: Id, obj: Obj, j: Id, x: Id)
    requires MarkInv(m, q, [], 0) && BlackExist(m) && id !in m.objs && HomesOk(m)
    requires var m' := AddObj(m, id, obj); j in m'.objs && IsBlack(m', j) && Holds(m'.objs, j, x)
    ensures var m' := AddObj(m, id, obj); x in m'.objs && (j !in q ==> !IsWhite(m', x))
  {
    AddedFields(m, id, obj, j);
    assert Holds(m.objs, j, x);
    assert Settled(m, j, 0) && Due(m, j, x);
    hide Holds, ListsOk, KindOk, HomesOk;
  }

  lemma AddedSettled(m: Marking, q: set<Id>, id: Id, obj: Obj)
    requires MarkInv(m, q, [], 0) && BlackExist(m) && id !in m.objs && HomesOk(m)
    ensures MarkInv(AddObj(m, id, obj), q, [], 0) && BlackExist(AddObj(m, id, obj))
  {
    var m' := AddObj(m, id, obj);
    AddedKinds(m, id, obj);
    AddedLists(m, id, obj);
    forall j, x | j in m'.objs && IsBlack(m', j) && Holds(m'.objs, j, x)
      ensures x in m'.objs && (j !in q ==> !IsWhite(m', x))
    {
      AddedHolds(m, q, id, obj, j, x);
    }
    hide KindsOk, ListsOk, Holds, HomesOk, AddObj;
  }

  lemma AddedWhites(m: Marking, id: Id, obj: Obj)
    requires OneWhite(m)
    ensures OneWhite(AddObj(m, id, obj))
    ensures forall x :: x != id ==> IsWhite(AddObj(m, id, obj), x) == IsWhite(m, x)
  {
  }

  lemma BaseParts(g: G)
    requires BaseInv(g)
    ensures HomesOk(g.m) && ThreadsOk(g.m) && FixedOk(g) && g.main in g.m.objs
            && (g.registry.Ref? ==> g.registry.id in g.m.objs)
    ensures g.m.marks.Keys == g.m.objs.Keys
  {
    StructIs(g, {});
    assert g.registry in RootVals(g);
  }

  lemma AllocateMark(g: G, id: Id, obj: Obj)
    requires MarkBase(g, []) && NewOk(g, id, obj)
    ensures MarkBase(Allocate(g, id, obj), [])
  {
    BaseParts(g);
    AllocateRest(g, id, obj);
    assert id !in g.m.objs;
    hide BaseInv, OneWhite, MarkInv, BlackExist, AddObj, Allocate, HomesOk, ThreadsOk, FixedOk, NewOk;
    AllocateBase(g, id, obj);
    AddedSettled(g.m, Ids(g.tmudata), id, obj);
    AddedWhites(g.m, id, obj);
  }

  lemma AllocateRest(g: G, id: Id, obj: Obj)
    ensures var g' := Allocate(g, id, obj);
            g'.m == AddObj(g.m, id, obj) && g'.phase == g.phase && g'.main == g.main && g'.registry == g.registry
              && g'.tmudata == g.tmudata
  {
  }

  lemma AllocatePassed(g: G, id: Id, obj: Obj, x: Id)
    requires x != id && Passed(Allocate(g, id, obj), x) && (g.phase == Sweep ==> g.swept <= |RootList(g)|)
    ensures Passed(g, x)
  {
    if g.phase == Sweep {
      var g' := Allocate(g, id, obj);
      if obj.Udata? {
        if g.swept > |g.rootgc| {
          assert RootList(g')[..g.swept + 1] == g.rootgc + [id] + g.udata[..g.swept - |g.rootgc|];
          assert RootList(g)[..g.swept] == g.rootgc + g.udata[..g.swept - |g.rootgc|];
        } else {
          assert RootList(g')[..g.swept] == RootList(g)[..g.swept];
        }
      } else if g.swept > 0 {
        assert RootList(g') == [id] + RootList(g);
        assert RootList(g')[..g.swept + 1] == [id] + RootList(g)[..g.swept];
      }
    }
  }

  lemma AllocateSwept(g: G, id: Id, obj: Obj)
    requires SweptOk(g) && (g.phase == Sweep ==> g.swept <= |RootList(g)|) && HomesOk(g.m) && id !in g.m.objs
    ensures SweptOk(Allocate(g, id, obj))
  {
    var g' := Allocate(g, id, obj);
    assert g'.m == AddObj(g.m, id, obj);
    forall x | x != id && Passed(g', x) ensures Passed(g, x) { AllocatePassed(g, id, obj, x); }
    hide Passed;
    forall j | j in g'.m.objs && SweptId(g', j) ensures Clean(g'.m, j) {
      if j != id { assert HomeOk(g.m, j); assert SweptId(g, j); }
    }
  }

  lemma AllocateIdle(g: G, id: Id, obj: Obj)
    requires IdleInv(g) && NewOk(g, id, obj)
    ensures IdleInv(Allocate(g, id, obj))
  {
    var g' := Allocate(g, id, obj);
    assert HomesOk(g.m) by { StructIs(g, {}); }
    assert g.swept <= |RootList(g)| ==> g'.swept <= |RootList(g')|;
    assert g.swept == 0 ==> g'.swept == 0;
    assert g'.phase == g.phase && g'.tmudata == g.tmudata && g'.strt == g.strt && g'.sweepstr == g.sweepstr;
    hide BaseInv, SweptOk, Allocate, RootList;
    AllocateBase(g, id, obj);
    AllocateSwept(g, id, obj);
  }

  /** A new object is alive and its creation keeps the invariant in every phase. */
  lemma AllocateKeeps(g: G, id: Id, obj: Obj)
    requires Inv(g) && NewOk(g, id, obj)
    ensures Inv(Allocate(g, id, obj)) && Alive(Allocate(g, id, obj).m, id)
  {
    var g' := Allocate(g, id, obj);
    assert g'.m == AddObj(g.m, id, obj) && g'.phase == g.phase;
    AddedAlive(g.m, id, obj);
    hide Inv, MarkBase, IdleInv, NewOk, Allocate, AddObj, Alive;
    if g.phase == Propagating {
      MarkBaseIs(g);
      AllocateMark(g, id, obj);
      MarkBaseIs(g');
    } else {
      IdleIs(g);
      AllocateIdle(g, id, obj);
      IdleIs(g');
    }
  }
}
