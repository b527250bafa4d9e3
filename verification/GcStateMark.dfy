/** The steps of the mark phase keep the invariant, and at its end nothing that is strongly held is lost. */
module GcStateMark {
  import opened GcHeap
  import opened GcMark
  import opened GcCollector
  import opened GcAtomic
  import opened GcClear
  import opened GcState

  /** Every reference leads to an object. */
  ghost predicate AllExist(m: Marking) {
    forall id, x {:trigger Refers(m.objs, id, x)} :: Refers(m.objs, id, x) ==> x in m.objs
  }

  lemma AliveInMarking(m: Marking, id: Id)
    requires OneWhite(m) && m.marks.Keys == m.objs.Keys
    ensures Alive(m, id) <==> id in m.objs
  {
  }

  lemma AllAlive(m: Marking)
    requires OneWhite(m) && m.marks.Keys == m.objs.Keys
    ensures AliveClosed(m) <==> AllExist(m)
  {
    forall id ensures Alive(m, id) <==> id in m.objs { AliveInMarking(m, id); }
    forall id, x | Refers(m.objs, id, x) ensures id in m.objs { }
  }

  lemma AdvancedWhite(m: Marking, m': Marking)
    requires OneWhite(m) && Advanced(m, m')
    ensures OneWhite(m')
  {
    forall id | id in m'.marks && m'.marks[id].colour.White? ensures m'.marks[id].colour == White(m'.cw) {
      assert AdvancedAt(m.marks[id], m'.marks[id]);
    }
  }

  lemma AdvancedExist(m: Marking, m': Marking)
    requires AllExist(m) && Advanced(m, m')
    ensures AllExist(m')
  {
    forall id, x | Refers(m'.objs, id, x) ensures x in m'.objs {
      TidyRefers(m.objs, m'.objs, m.names, id);
      assert Refers(m.objs, id, x);
    }
  }

  lemma AdvancedShape(m: Marking, m': Marking)
    requires Advanced(m, m') && HomesOk(m)
    ensures Reshaped(m, m') && HomesOk(m')
  {
    forall id | id in m.objs ensures SameShape(m.objs[id], m'.objs[id]) { assert TidiedAt(m.objs[id], m'.objs[id]); }
    forall id | id in m.marks
      ensures m'.marks[id].fixed == m.marks[id].fixed
    {
      assert AdvancedAt(m.marks[id], m'.marks[id]);
    }
    forall id ensures HomeOk(m', id) {
      assert HomeOk(m, id);
      if id in m.objs && IsOpen(m.objs[id]) {
        assert TidiedAt(m.objs[id], m'.objs[id]);
        assert TidiedAt(m.objs[m.objs[id].home.th], m'.objs[m.objs[id].home.th]);
      }
    }
  }

  /** Marking, whatever the stage, keeps everything but the invariant of the mark phase itself. */
  lemma AdvancedInv(g: G, g': G)
    requires Struct(g) && AliveClosed(g.m) && RootsAlive(g) && OneWhite(g.m) && KindsOk(g.m)
    requires Advanced(g.m, g'.m) && g' == g.(m := g'.m, phase := g'.phase) && KindsOk(g'.m)
    ensures Struct(g') && AliveClosed(g'.m) && RootsAlive(g') && OneWhite(g'.m)
  {
    hide StructBut, Advanced, AliveClosed, KindOk, MarkInv;
    AdvancedWhite(g.m, g'.m);
    AllAlive(g.m);
    AdvancedExist(g.m, g'.m);
    AllAlive(g'.m);
    StructParts(g);
    AdvancedShape(g.m, g'.m);
    ReshapedStruct(g, g', {});
    forall id ensures Alive(g.m, id) ==> Alive(g'.m, id) {
      AliveInMarking(g.m, id); AliveInMarking(g'.m, id);
    }
  }

  lemma StructParts(g: G)
    requires Struct(g)
    ensures HomesOk(g.m) && FixedOk(g)
  {
  }

  // ---------------------------------------------------------------- what black objects hold

  lemma MarkedBlack(m: Marking, m': Marking)
    requires Marked(m, m') && AllExist(m) && BlackExist(m)
    ensures BlackExist(m')
  {
    forall id, x | id in m'.objs && IsBlack(m', id) && Holds(m'.objs, id, x) ensures x in m'.objs {
      assert MarkedAt(m, m', id);
      if !IsBlack(m, id) { assert Refers(m.objs, id, x); }
    }
  }

  lemma OpenedBlack(m: Marking, o: Id)
    requires AllExist(m) && BlackExist(m) && IsGray(m, o)
    ensures BlackExist(Opened(m, o)) && AllExist(Opened(m, o))
  {
    var m1 := Opened(m, o);
    OpenedTidied(m, o);
    PlacedMarks(m, o, WayOf(m, o));
    forall id
      ensures (forall x :: Holds(m1.objs, id, x) ==> Holds(m.objs, id, x))
              && FieldsAt(m1.objs, id) == FieldsAt(m.objs, id)
    {
      TidyRefers(m.objs, m1.objs, m.names, id);
    }
    hide Opened, WayOf, Placed, FieldsAt;
    forall id, x | Refers(m1.objs, id, x) ensures x in m1.objs { assert Refers(m.objs, id, x); }
    forall id, x | id in m1.objs && IsBlack(m1, id) && Holds(m1.objs, id, x) ensures x in m1.objs {
      if id == o { OpenedHolds(m, o, x); } else { assert Holds(m.objs, id, x); }
    }
  }

  lemma OpenedHolds(m: Marking, o: Id, x: Id)
    requires AllExist(m) && o in m.objs && IsGray(m, o) && IsBlack(Opened(m, o), o) && Holds(Opened(m, o).objs, o, x)
    ensures x in m.objs
  {
    var m1 := Opened(m, o);
    OpenedTidied(m, o);
    PlacedMarks(m, o, WayOf(m, o));
    TidyRefers(m.objs, m1.objs, m.names, o);
    if m.objs[o].Table? { CleanHolds(m.objs, m1.objs, o); }
    assert Refers(m.objs, o, x);
  }

  lemma PropagateBlack(m: Marking)
    requires m.gray != [] && ListsOk(m) && AllExist(m) && BlackExist(m)
    ensures BlackExist(Propagate(m))
  {
    var o, m0 := m.gray[0], m.(gray := m.gray[1..]);
    HeadGray(m);
    assert AllExist(m0) && BlackExist(m0);
    hide Opened;
    OpenedBlack(m0, o);
    MarkAllMarked(Opened(m0, o), StrongFields(m.objs, m.names, o));
    MarkedBlack(Opened(m0, o), Propagate(m));
  }

  lemma ListsOfInv(m: Marking, q: set<Id>, stage: nat)
    requires MarkInv(m, q, [], stage)
    ensures ListsOk(m)
  {
  }

  // ---------------------------------------------------------------- markroot

  /** A cycle may begin: nothing is being marked or swept. `luaC_fullgc` begins one although userdata still wait
      for their finalizers. */
  predicate AtRest(g: G) { g.phase == Pause || g.phase == Finalize }

  lemma QueuedKind(g: G, u: Id)
    requires Inv(g) && u in g.tmudata
    ensures u in g.m.objs && g.m.objs[u].Udata? && u in g.m.marks && !g.m.marks[u].fixed
    ensures g.m.marks[u].colour.White? ==> g.m.marks[u].colour == White(g.m.cw)
  {
    StructIs(g, {});
    assert multiset(g.tmudata)[u] >= 1;
    assert Alive(g.m, u);
  }

  /** No object is gray, and only userdata that wait for their finalizers may be black. */
  predicate RestColour(g: G, id: Id) {
    id in g.m.marks && (g.m.marks[id].colour == White(g.m.cw) || (id in g.tmudata && g.m.marks[id].colour.Black?))
  }

  lemma AtRestColour(g: G, id: Id)
    requires Inv(g) && AtRest(g) && id in g.m.objs
    ensures RestColour(g, id)
  {
    if id in g.tmudata {
      QueuedKind(g, id);
      assert KindOk(g.m.objs[id], g.m.marks[id].colour);
    } else {
      RestSwept(g, id);
    }
  }

  lemma RestSwept(g: G, id: Id)
    requires Inv(g) && AtRest(g) && id in g.m.objs && id !in g.tmudata
    ensures Clean(g.m, id)
  {
    assert SweptId(g, id);
  }

  lemma KindsOfState(g: G)
    requires Inv(g)
    ensures KindsOk(g.m)
  {
  }

  lemma FreshLists(m: Marking, q: set<Id>)
    requires KindsOk(m) && m.gray == [] && m.grayagain == [] && m.weak == [] && (forall id :: !IsGray(m, id))
    requires forall id :: IsBlack(m, id) ==> id in q
    ensures MarkInv(m, q, [], 0)
  {
    forall id ensures Count(m, id) == 0 { }
    hide KindsOk;
  }

  lemma FreshMarking(g: G)
    requires Inv(g) && AtRest(g)
    ensures MarkInv(g.m.(gray := [], grayagain := [], weak := []), Ids(g.tmudata), [], 0) && OneWhite(g.m)
    ensures forall id :: id in g.m.objs && id !in g.tmudata ==> Clean(g.m, id)
  {
    var m := g.m.(gray := [], grayagain := [], weak := []);
    KindsOfState(g);
    hide Inv;
    forall id | id in g.m.objs ensures RestColour(g, id) { AtRestColour(g, id); }
    assert KindsOk(m);
    FreshLists(m, Ids(g.tmudata));
  }

  /** Black objects are userdata, so what they hold exists. */
  lemma NoneBlack(g: G, m: Marking)
    requires Inv(g) && AtRest(g) && OneWhite(g.m) && m.objs == g.m.objs && m.marks == g.m.marks
    ensures AllExist(m) && BlackExist(m)
  {
    assert AliveClosed(g.m) && g.m.marks.Keys == g.m.objs.Keys;
    AllAlive(g.m);
    forall id, x | Refers(m.objs, id, x) ensures x in m.objs { assert Refers(g.m.objs, id, x); }
    forall id, x | id in m.objs && IsBlack(m, id) && Holds(m.objs, id, x) ensures x in m.objs {
      if id in g.tmudata { QueuedKind(g, id); } else { RestSwept(g, id); }
    }
  }

  lemma RootsMarked(g: G, m: Marking, vs: seq<Val>)
    requires m == g.m.(gray := [], grayagain := [], weak := []) && MarkInv(m, Ids(g.tmudata), [], 0)
    requires AllExist(m) && BlackExist(m)
             && forall x :: Ref(x) in [Ref(g.main), g.registry] ==> Ref(x) in vs && x in g.m.objs
    ensures var m' := MarkAll(m, vs);
            && MarkInv(m', Ids(g.tmudata), [], 0) && KindsOk(m') && BlackExist(m') && Advanced(g.m, m')
            && m'.objs == g.m.objs
            && !IsWhite(m', g.main) && (g.registry.Ref? ==> !IsWhite(m', g.registry.id))
  {
    hide MarkInv;
    MarkMoreInv(m, Ids(g.tmudata), vs, 0);
    MarkAllAdvanced(m, vs);
    MarkAllMarked(m, vs);
    KindsOfInv(MarkAll(m, vs), Ids(g.tmudata), 0);
    MarkedBlack(m, MarkAll(m, vs));
  }

  lemma MainAlive(g: G)
    requires Inv(g)
    ensures Struct(g) && AliveClosed(g.m) && RootsAlive(g) && KindsOk(g.m)
    ensures forall x :: Ref(x) in [Ref(g.main), g.registry] ==> x in g.m.objs
  {
    forall x | Ref(x) in [Ref(g.main), g.registry] ensures x in g.m.objs { assert Ref(x) in RootVals(g); }
  }

  lemma MarkPhaseMade(g: G)
    requires g.phase == Propagating && Struct(g) && KindsOk(g.m) && AliveClosed(g.m) && RootsAlive(g) && OneWhite(g.m)
             && BlackExist(g.m)
    requires MarkInv(g.m, Ids(g.tmudata), [], 0) && !IsWhite(g.m, g.main)
             && (g.registry.Ref? ==> !IsWhite(g.m, g.registry.id))
    ensures Inv(g)
  {
  }

  lemma MarkRootKeeps(g: G)
    requires Inv(g) && AtRest(g)
    ensures Inv(MarkRoot(g)) && MarkRoot(g).m.objs == g.m.objs
  {
    var m := g.m.(gray := [], grayagain := [], weak := []);
    var vs := [Ref(g.main), GlobalsOf(m, g.main), g.registry] + g.mts;
    FreshMarking(g);
    NoneBlack(g, m);
    MainAlive(g);
    hide Inv, StructBut, MarkInv, AliveClosed, RootsAlive, OneWhite, BlackExist, AllExist, Clean, KindsOk, Advanced,
      IsWhite;
    RootsMarked(g, m, vs);
    AdvancedInv(g, MarkRoot(g));
    MarkPhaseMade(MarkRoot(g));
  }

  lemma KindsOfInv(m: Marking, q: set<Id>, stage: nat)
    requires MarkInv(m, q, [], stage)
    ensures KindsOk(m)
  {
  }

  // ---------------------------------------------------------------- propagatemark

  lemma PropagateKeeps(g: G)
    requires Inv(g) && g.phase == Propagating && g.m.gray != []
    ensures Inv(g.(m := Propagate(g.m))) && Advanced(g.m, Propagate(g.m))
  {
    hide Struct, MarkInv, AliveClosed, Propagate;
    PropagateInv(g.m, Ids(g.tmudata), 0);
    ListsOfInv(g.m, Ids(g.tmudata), 0);
    KindsOfInv(g.m, Ids(g.tmudata), 0);
    AllAlive(g.m);
    PropagateBlack(g.m);
    PropagateAdvanced(g.m);
    KindsOfInv(Propagate(g.m), Ids(g.tmudata), 0);
    AdvancedInv(g, g.(m := Propagate(g.m)));
    StaysMarked(g.m, Propagate(g.m), g.main);
    if g.registry.Ref? { StaysMarked(g.m, Propagate(g.m), g.registry.id); }
  }

  // ---------------------------------------------------------------- atomic

  /** The marks when weak tables are about to be cleared. */
  function Preserved(g: G): Marking {
    var s := Separate(Finish(g), g.udata);
    PropagateAll(MarkTmu(s.m, g.tmudata + s.moved))
  }

  lemma ListsUpvals(g: G)
    requires Struct(g) && KindsOk(g.m)
    ensures UpvalsListed(g.m, g.uvhead)
  {
    forall u | u in g.m.objs && g.m.objs[u].Upval? && IsGray(g.m, u) ensures u in g.uvhead {
      assert KindOk(g.m.objs[u], g.m.marks[u].colour);
      assert multiset(g.uvhead)[u] == 1;
    }
  }

  /** Userdata that are moved come from the list of userdata. */
  lemma MovedAreUdata(g: G, s: Separated)
    requires UdataOk(g, {})
    requires forall id :: multiset(s.kept)[id] + multiset(s.moved)[id] == multiset(g.udata)[id]
    ensures forall u :: u in g.tmudata + s.moved ==> u in g.m.objs && g.m.objs[u].Udata?
    ensures SameUdata(g, g.(udata := s.kept, tmudata := g.tmudata + s.moved))
  {
    forall u | u in g.tmudata + s.moved ensures u in g.m.objs && g.m.objs[u].Udata? {
      assert multiset(g.tmudata)[u] + multiset(s.moved)[u] >= 1;
    }
  }

  lemma TidiedUdata(objs: Heap, objs': Heap, u: Id)
    requires Tidied(objs, objs') && u in objs && objs[u].Udata?
    ensures u in objs' && objs'[u].Udata?
  {
    assert TidiedAt(objs[u], objs'[u]);
  }

  lemma PreservedInv(g: G)
    requires MarkInv(g.m, Ids(g.tmudata), [], 0) && UpvalsListed(g.m, g.uvhead) && UdataOk(g, {})
    ensures var s := Separate(Finish(g), g.udata);
            && MarkInv(Preserved(g), {}, [], 3) && Preserved(g).gray == [] && Advanced(g.m, Preserved(g))
            && (forall u :: u in g.tmudata + s.moved ==> !IsWhite(Preserved(g), u))
            && SameUdata(g, g.(udata := s.kept, tmudata := g.tmudata + s.moved))
    ensures forall x :: x in g.m.objs && Ref(x) in [Ref(g.cur)] + g.mts ==> !IsWhite(Preserved(g), x)
    ensures Advanced(Finish(g), Preserved(g))
  {
    hide MarkInv, Advanced, UdataOk, SameUdata;
    var m1, q := Finish(g), Ids(g.tmudata);
    var s := Separate(m1, g.udata);
    var tm := g.tmudata + s.moved;
    FinishInv(g, Ids(g.tmudata));
    SeparateInv(m1, q, g.udata, 3);
    MovedAreUdata(g, s);
    forall u | u in tm ensures u in s.m.objs && s.m.objs[u].Udata? {
      AdvancedTidied(g.m, m1);
      TidiedUdata(g.m.objs, m1.objs, u);
    }
    MarkTmuInv(s.m, q, tm, 3);
    assert q - Ids(tm) == {};
    var m2 := MarkTmu(s.m, tm);
    PropagateAllInv(m2, {}, 3);
    AdvancedTwice(m1, s.m, m2);
    AdvancedTwice(m1, m2, Preserved(g));
    AdvancedTwice(g.m, m1, Preserved(g));
    forall u | u in tm ensures !IsWhite(Preserved(g), u) { StaysMarked(m2, Preserved(g), u); }
    forall x | x in g.m.objs && Ref(x) in [Ref(g.cur)] + g.mts ensures !IsWhite(Preserved(g), x) {
      StaysMarked(m1, Preserved(g), x);
    }
  }

  lemma AdvancedTidied(m: Marking, m': Marking)
    requires Advanced(m, m')
    ensures Tidied(m.objs, m'.objs)
  {
  }

  /** Only weak tables may still refer to white objects when the marks are complete. */
  lemma MarkedIsClosed(m: Marking, id: Id)
    requires MarkInv(m, {}, [], 3) && m.gray == [] && AllExist(m) && id in m.objs && !IsWhite(m, id) && id !in m.weak
    ensures ClosedAt(m, id)
  {
    forall x | Refers(m.objs, id, x) ensures x in m.objs && !IsWhite(m, x) {
      assert Count(m, id) > 0 ==> id in m.grayagain;
      if IsBlack(m, id) {
        assert Settled(m, id, 3) && Due(m, id, x);
      } else {
        assert IsGray(m, id);
        assert KindOk(m.objs[id], m.marks[id].colour);
        assert Settled(m, id, 3) && Due(m, id, x);
      }
    }
  }

  lemma WeakBits(m: Marking, h: Id)
    requires MarkInv(m, {}, [], 3) && m.gray == [] && h in m.weak
    ensures h in m.objs && m.objs[h].Table? && BitsClosed(m, h) && IsGray(m, h)
  {
    assert Count(m, h) == 1;
    DoneIsClosed(m);
    assert m.marks[h].weakKey == WeakKeys(m.objs, m.names, h) && m.marks[h].weakVal == WeakValues(m.objs, m.names, h);
    forall x | Ref(x) in Fields(m.objs, m.objs[h], m.marks[h].weakKey, m.marks[h].weakVal) ensures !IsWhite(m, x) {
      assert StronglyRefers(m.objs, m.names, h, x);
    }
  }

  lemma {:induction false} OnceIsNoDup(l: seq<Id>)
    requires forall id :: multiset(l)[id] <= 1
    ensures NoDup(l)
    decreases |l|
  {
    if l != [] {
      assert l == [l[0]] + l[1..];
      forall id
        ensures multiset(l[1..])[id] <= 1
      {
        assert multiset(l)[id] == multiset(l[1..])[id] + if id == l[0] then 1 else 0;
      }
      OnceIsNoDup(l[1..]);
      assert multiset(l)[l[0]] <= 1;
      assert l[0] !in l[1..];
    }
  }

  lemma WeakNoDup(m: Marking)
    requires ListsOk(m)
    ensures NoDup(m.weak)
  {
    forall id ensures multiset(m.weak)[id] <= 1 { assert Count(m, id) <= 1; }
    OnceIsNoDup(m.weak);
  }

  /** When the weak tables have been cleared, marked objects refer to marked objects only. */
  lemma ClearedIsClosed(m: Marking)
    requires MarkInv(m, {}, [], 3) && m.gray == [] && AllExist(m)
    ensures var m' := ClearTables(m, m.weak);
            OnlyStrings(m, m') && forall id :: id in m.objs && !IsWhite(m, id) ==> ClosedAt(m', id)
  {
    var m' := ClearTables(m, m.weak);
    KindsOfInv(m, {}, 3);
    WeakNoDup(m);
    forall h | h in m.weak
      ensures h in m.objs && m.objs[h].Table? && RefsExist(m, h) && BitsClosed(m, h)
    {
      WeakBits(m, h);
    }
    hide MarkInv;
    ClearTablesClosed(m, m.weak);
    forall id | id in m.objs && !IsWhite(m, id) ensures ClosedAt(m', id) {
      if id !in m.weak {
        MarkedIsClosed(m, id);
        StillClosed(m, m', id);
      }
    }
  }

  lemma OnlyStringsShape(m: Marking, m': Marking)
    requires OnlyStrings(m, m') && HomesOk(m) && KindsOk(m)
    ensures Reshaped(m, m') && HomesOk(m') && KindsOk(m')
  {
    forall id | id in m.objs ensures SameShape(m.objs[id], m'.objs[id]) && KindOk(m'.objs[id], m'.marks[id].colour) {
      assert m'.objs[id] == m.objs[id] || (m.objs[id].Table? && m'.objs[id].Table?);
      assert m'.marks[id] == m.marks[id] || StringMarked(m, m', id);
      assert KindOk(m.objs[id], m.marks[id].colour);
    }
    forall id ensures HomeOk(m', id) {
      assert HomeOk(m, id);
    }
    forall id | id in m.marks ensures m'.marks[id].fixed == m.marks[id].fixed {
      assert m'.marks[id] == m.marks[id] || StringMarked(m, m', id);
    }
  }

  lemma ReshapedTwice(m0: Marking, m1: Marking, m2: Marking)
    requires Reshaped(m0, m1) && Reshaped(m1, m2)
    ensures Reshaped(m0, m2)
  {
    forall id | id in m0.objs ensures SameShape(m0.objs[id], m2.objs[id]) {
      assert SameShape(m0.objs[id], m1.objs[id]) && SameShape(m1.objs[id], m2.objs[id]);
    }
  }

  /** After the flip, what was white is dead, and what was marked is alive. */
  lemma FlipAlive(m: Marking, id: Id)
    requires OneWhite(m) && m.marks.Keys == m.objs.Keys && id in m.objs
    ensures Alive(Flip(m), id) <==> (!IsWhite(m, id) || m.marks[id].fixed)
  {
  }

  lemma OnlyStringsWhite(m: Marking, m': Marking)
    requires OnlyStrings(m, m') && OneWhite(m)
    ensures OneWhite(m')
  {
    forall id | id in m'.marks && m'.marks[id].colour.White? ensures m'.marks[id].colour == White(m'.cw) {
      assert m'.marks[id] == m.marks[id] || StringMarked(m, m', id);
    }
  }

  lemma FixedIsString(g: G, m: Marking, id: Id)
    requires FixedOk(g) && Reshaped(g.m, m) && m.marks.Keys == m.objs.Keys && id in m.objs && m.marks[id].fixed
    ensures id == g.main || m.objs[id].Str?
  {
    assert SameShape(g.m.objs[id], m.objs[id]);
  }

  lemma FlippedClosed(g: G, m: Marking)
    requires FixedOk(g) && OneWhite(m) && m.marks.Keys == m.objs.Keys && Reshaped(g.m, m) && !IsWhite(m, g.main)
    requires forall id :: id in m.objs && !IsWhite(m, id) ==> ClosedAt(m, id)
    ensures AliveClosed(Flip(m))
  {
    forall id, x | Alive(Flip(m), id) && Refers(Flip(m).objs, id, x) ensures Alive(Flip(m), x) {
      FlipAlive(m, id);
      if m.marks[id].fixed { FixedIsString(g, m, id); }
      if !IsWhite(m, id) {
        assert ClosedAt(m, id);
        FlipAlive(m, x);
      }
    }
  }

  /** The parts of the invariant in the mark phase. */
  lemma MarkPhase(g: G)
    requires Inv(g) && g.phase == Propagating
    ensures Struct(g) && KindsOk(g.m) && AliveClosed(g.m) && RootsAlive(g) && MarkInv(g.m, Ids(g.tmudata), [], 0)
            && OneWhite(g.m)
    ensures g.m.marks.Keys == g.m.objs.Keys && !IsWhite(g.m, g.main)
            && (g.registry.Ref? ==> !IsWhite(g.m, g.registry.id))
    ensures HomesOk(g.m) && FixedOk(g) && UdataOk(g, {}) && UpvalsListed(g.m, g.uvhead) && AllExist(g.m)
  {
    ListsUpvals(g);
    AllAlive(g.m);
  }

  lemma PreservedIs(g: G)
    requires Inv(g) && g.phase == Propagating
    ensures var m1 := Preserved(g);
            && MarkInv(m1, {}, [], 3) && m1.gray == [] && Advanced(g.m, m1) && KindsOk(m1)
            && m1.marks.Keys == m1.objs.Keys
            && OneWhite(m1) && AllExist(m1) && Reshaped(g.m, m1) && HomesOk(m1)
  {
    MarkPhase(g);
    hide Inv, Struct, MarkInv, Advanced, AliveClosed, Preserved, UdataOk, KindOk;
    PreservedInv(g);
    KindsOfInv(Preserved(g), {}, 3);
    AdvancedExist(g.m, Preserved(g));
    AdvancedWhite(g.m, Preserved(g));
    AdvancedShape(g.m, Preserved(g));
  }

  /** The marks before the white flips. */
  function Unflipped(g: G): Marking { ClearTables(Preserved(g), Preserved(g).weak) }

  lemma AtomicIs(g: G)
    ensures var s := Separate(Finish(g), g.udata);
            Atomic(g) == g.(m := Flip(Unflipped(g)), udata := s.kept, tmudata := g.tmudata + s.moved,
                            sweepstr := 0, swept := 0, phase := SweepString)
  {
  }

  lemma UnflippedIs(g: G)
    requires Inv(g) && g.phase == Propagating
    ensures var m := Unflipped(g);
            && KindsOk(m) && OneWhite(m) && Reshaped(g.m, m) && HomesOk(m) && OnlyStrings(Preserved(g), m)
            && forall id :: id in m.objs && !IsWhite(m, id) ==> ClosedAt(m, id)
  {
    hide Inv, MarkInv, Advanced, ClosedAt, Preserved, AllExist, ClearTables, Reshaped;
    var m1 := Preserved(g);
    var m := Unflipped(g);
    PreservedIs(g);
    ClearedIsClosed(m1);
    OnlyStringsShape(m1, m);
    OnlyStringsWhite(m1, m);
    ReshapedTwice(g.m, m1, m);
    forall id | id in m.objs && !IsWhite(m, id) ensures ClosedAt(m, id) { NewlyMarked(m1, m, id); }
  }

  lemma FlipShape(g: G, m: Marking)
    requires Reshaped(g.m, m) && HomesOk(m) && KindsOk(m)
    ensures Reshaped(g.m, Flip(m)) && HomesOk(Flip(m)) && KindsOk(Flip(m))
  {
    forall id ensures HomeOk(Flip(m), id) { assert HomeOk(m, id); }
  }

  /** What `cleartable` marks are strings, which refer to nothing. */
  lemma NewlyMarked(m: Marking, m': Marking, id: Id)
    requires OnlyStrings(m, m') && id in m.objs && m.marks.Keys == m.objs.Keys && !IsWhite(m', id)
    requires !IsWhite(m, id) ==> ClosedAt(m', id)
    ensures ClosedAt(m', id)
  {
    if IsWhite(m, id) {
      assert StringMarked(m, m', id);
      assert m'.objs[id] == m.objs[id];
    }
  }

  lemma SeparatedSame(g: G)
    requires Inv(g) && g.phase == Propagating
    ensures SameUdata(g, Atomic(g))
  {
    MarkPhase(g);
    hide Inv, Struct, MarkInv, Finish, Unflipped, Advanced, AliveClosed, UdataOk, Preserved, OneWhite, RootsAlive;
    PreservedInv(g);
    AtomicIs(g);
  }

  lemma AtomicStruct(g: G)
    requires Inv(g) && g.phase == Propagating
    ensures Struct(Atomic(g)) && KindsOk(Atomic(g).m)
  {
    MarkPhase(g);
    hide Inv, StructBut, MarkInv, OnlyStrings, ClosedAt, Unflipped, Finish, Advanced, Reshaped, AliveClosed, KindOk,
      RootsAlive, SameUdata, Separate, Preserved, OneWhite, MarkTmu, AllExist;
    AtomicIs(g);
    UnflippedIs(g);
    FlipShape(g, Unflipped(g));
    SeparatedSame(g);
    FixedCur(g);
    ReshapedStruct(g, Atomic(g), {});
  }

  lemma FixedCur(g: G)
    requires FixedOk(g)
    ensures g.cur in g.m.objs && g.m.objs[g.cur].Thread?
  {
  }

  lemma InRoots(g: G, x: Id)
    requires Ref(x) in RootVals(g)
    ensures x == g.main || Ref(x) == g.registry || Ref(x) in [Ref(g.cur)] + g.mts
  {
  }

  lemma RootsPreserved(g: G, x: Id)
    requires Inv(g) && g.phase == Propagating && Ref(x) in RootVals(g)
    ensures x in g.m.objs && !IsWhite(Preserved(g), x)
  {
    assert Alive(g.m, x);
    MarkPhase(g);
    hide Inv, Struct, MarkInv, Finish, Advanced, AliveClosed, KindsOk, UdataOk, SameUdata, Preserved, OneWhite,
      RootsAlive, Separate, Alive, AllExist;
    PreservedInv(g);
    InRoots(g, x);
    hide RootVals;
    if Ref(x) !in [Ref(g.cur)] + g.mts { StaysMarked(g.m, Preserved(g), x); }
  }

  lemma RootsSurvive(g: G, x: Id)
    requires Inv(g) && g.phase == Propagating && Ref(x) in RootVals(g)
    ensures Alive(Flip(Unflipped(g)), x) && !IsWhite(Unflipped(g), x)
  {
    RootsPreserved(g, x);
    UnflippedIs(g);
    hide Inv, OnlyStrings, Reshaped, Unflipped, Preserved, ClosedAt, OneWhite;
    StillMarked(Preserved(g), Unflipped(g), x);
    ReshapedKeys(g.m, Unflipped(g));
    FlipAlive(Unflipped(g), x);
  }

  lemma MovedSurvive(g: G, u: Id)
    requires Inv(g) && g.phase == Propagating && u in g.tmudata + Separate(Finish(g), g.udata).moved
    ensures Alive(Flip(Unflipped(g)), u)
  {
    MarkPhase(g);
    UnflippedIs(g);
    hide Inv, Struct, MarkInv, OnlyStrings, Reshaped, Unflipped, Preserved, ClosedAt, OneWhite, Finish, Advanced,
      AliveClosed, UdataOk, SameUdata;
    PreservedInv(g);
    MovedExist(g, Preserved(g), Unflipped(g), u);
  }

  lemma AtomicRoots(g: G)
    requires Inv(g) && g.phase == Propagating
    ensures RootsAlive(Atomic(g)) && !IsWhite(Unflipped(g), g.main)
  {
    MarkPhase(g);
    hide Inv, Struct, MarkInv, Unflipped, Finish, AliveClosed, UdataOk, OneWhite;
    AtomicIs(g);
    forall x | Ref(x) in RootVals(g) ensures Alive(Flip(Unflipped(g)), x) { RootsSurvive(g, x); }
    forall u | u in Atomic(g).tmudata ensures Alive(Flip(Unflipped(g)), u) { MovedSurvive(g, u); }
    assert Ref(g.main) in RootVals(g);
    RootsSurvive(g, g.main);
  }

  lemma ReshapedKeys(m: Marking, m': Marking)
    requires Reshaped(m, m')
    ensures m'.objs.Keys == m.objs.Keys && m'.marks.Keys == m.marks.Keys
  {
  }

  lemma MovedExist(g: G, m1: Marking, m: Marking, u: Id)
    requires MarkInv(g.m, Ids(g.tmudata), [], 0) && UpvalsListed(g.m, g.uvhead) && UdataOk(g, {})
    requires u in g.tmudata + Separate(Finish(g), g.udata).moved && OnlyStrings(m1, m) && !IsWhite(m1, u)
             && Reshaped(g.m, m) && OneWhite(m)
    ensures Alive(Flip(m), u)
  {
    hide MarkInv, OnlyStrings, Finish;
    FinishInv(g, Ids(g.tmudata));
    SeparateInv(Finish(g), Ids(g.tmudata), g.udata, 3);
    MovedAreUdata(g, Separate(Finish(g), g.udata));
    StillMarked(m1, m, u);
    KindsOfInv(g.m, Ids(g.tmudata), 0);
    FlipAlive(m, u);
  }

  lemma AtomicKeeps(g: G)
    requires Inv(g) && g.phase == Propagating
    ensures Inv(Atomic(g)) && Atomic(g).m.objs.Keys == g.m.objs.Keys
  {
    MarkPhase(g);
    hide MarkInv, OnlyStrings, ClosedAt, Finish, AliveClosed, KindsOk, Struct, Unflipped, RootsAlive;
    AtomicIs(g);
    AtomicStruct(g);
    AtomicRoots(g);
    UnflippedIs(g);
    ReshapedKeys(g.m, Unflipped(g));
    FlippedClosed(g, Unflipped(g));
    AtomicSwept(g);
  }

  lemma AtomicSwept(g: G)
    requires Struct(g) && Atomic(g).phase == SweepString
    ensures SweptOk(Atomic(g)) && |Atomic(g).strt| > 0
  {
    hide Finish;
  }
}
