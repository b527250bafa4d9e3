/** What the running program does to the heap between collector steps, with the barriers of lua/lgc.h:86-97
    and lua/lgc.c:662-692: a forward barrier marks the value, a backward barrier makes the table gray again. */
module GcMutator {
  import opened GcHeap
  import opened GcMark
  import opened GcCollector
  import opened GcAtomic
  import opened GcState
  import opened GcStateMark

  // ---------------------------------------------------------------- stores

  /** `luaC_barrierback`, as the macros use it. */
  function BarrierBack(g: G, t: Id, v: Val): G {
    if IsBlack(g.m, t) && Markable(g.m, v)
    then g.(m := SetColour(g.m, t, Gray).(grayagain := [t] + g.m.grayagain))
    else g
  }

  function Stored(g: G, o: Id, obj: Obj): G { g.(m := SetObj(g.m, o, obj)) }

  /** A store into a userdata, closure, prototype or closed upvalue. */
  function StoreForward(g: G, o: Id, obj: Obj, v: Val): G { Barrier(Stored(g, o, obj), o, v) }

  /** A store into a table. */
  function StoreBack(g: G, t: Id, obj: Obj, v: Val): G { BarrierBack(Stored(g, t, obj), t, v) }

  predicate ValAlive(m: Marking, v: Val) { v.Ref? ==> Alive(m, v.id) }

  /** The values that the object holds now are alive; so are the values of open upvalues on its stack that
      have changed. */
  ghost predicate StoreOk(m: Marking, o: Id, obj: Obj) {
    var m' := SetObj(m, o, obj);
    && o in m.objs && SameShape(m.objs[o], obj) && HomesOk(m')
    && (Alive(m, o) ==> forall v :: v in Fields(m'.objs, obj, false, false) ==> ValAlive(m, v))
    && (forall u :: OpenOn(m, u, o) ==>
          (HomeVal(m'.objs, m.objs[u].home) == HomeVal(m.objs, m.objs[u].home)
            || ValAlive(m, HomeVal(m'.objs, m.objs[u].home))))
  }

  lemma StoreShape(m: Marking, o: Id, obj: Obj)
    requires StoreOk(m, o, obj)
    ensures Reshaped(m, SetObj(m, o, obj))
  {
    var m' := SetObj(m, o, obj);
    forall id | id in m.objs ensures SameShape(m.objs[id], m'.objs[id]) { }
  }

  lemma StoreStruct(g: G, o: Id, obj: Obj)
    requires Struct(g) && StoreOk(g.m, o, obj)
    ensures Struct(Stored(g, o, obj))
  {
    StructIs(g, {});
    FixedThread(g);
    StoreShape(g.m, o, obj);
    assert HomesOk(Stored(g, o, obj).m);
    hide StructBut, RootsOk, UdataOk, StringsOk, OpenOk, ThreadsOk, HomesOk, Interned, FixedOk, Reshaped, StoreOk,
      StringIds;
    ReshapedStruct(g, Stored(g, o, obj), {});
  }

  lemma FixedThread(g: G)
    requires FixedOk(g)
    ensures g.cur in g.m.objs && g.m.objs[g.cur].Thread? && g.main in g.m.objs && g.m.objs[g.main].Thread?
  {
  }

  lemma StoreFields(m: Marking, o: Id, obj: Obj, id: Id)
    requires o in m.objs && id != o && !OpenOn(m, id, o)
    ensures FieldsAt(SetObj(m, o, obj).objs, id) == FieldsAt(m.objs, id)
    ensures forall x :: Holds(SetObj(m, o, obj).objs, id, x) == Holds(m.objs, id, x)
  {
  }

  lemma StoreClosed(m: Marking, o: Id, obj: Obj)
    requires StoreOk(m, o, obj) && AliveClosed(m)
    ensures AliveClosed(SetObj(m, o, obj))
  {
    var m' := SetObj(m, o, obj);
    forall id, x | Alive(m', id) && Refers(m'.objs, id, x) ensures Alive(m', x) {
      assert Alive(m, id);
      if id == o {
        assert ValAlive(m, Ref(x));
      } else if OpenOn(m, id, o) {
        if HomeVal(m'.objs, m.objs[id].home) == HomeVal(m.objs, m.objs[id].home) { assert Refers(m.objs, id, x); }
      } else {
        StoreFields(m, o, obj, id);
        assert Refers(m.objs, id, x);
      }
    }
  }

  lemma StoreKinds(m: Marking, o: Id, obj: Obj)
    requires StoreOk(m, o, obj) && KindsOk(m)
    ensures KindsOk(SetObj(m, o, obj))
  {
    assert KindOk(m.objs[o], m.marks[o].colour);
  }

  lemma StoreSwept(g: G, o: Id, obj: Obj)
    requires StoreOk(g.m, o, obj) && SweptOk(g)
    ensures SweptOk(Stored(g, o, obj))
  {
    var g' := Stored(g, o, obj);
    forall x ensures Passed(g', x) == Passed(g, x) { }
    hide Passed;
    forall id | id in g'.m.objs && SweptId(g', id) ensures Clean(g'.m, id) { assert SweptId(g, id); }
  }

  /** The part of the invariant that does not depend on the phase. */
  ghost predicate BaseInv(g: G) { Struct(g) && KindsOk(g.m) && AliveClosed(g.m) && RootsAlive(g) }

  lemma StoreBase(g: G, o: Id, obj: Obj)
    requires BaseInv(g) && StoreOk(g.m, o, obj)
    ensures BaseInv(Stored(g, o, obj))
  {
    forall id ensures Alive(g.m, id) == Alive(Stored(g, o, obj).m, id) { }
    assert RootsAlive(Stored(g, o, obj)) by { assert RootVals(Stored(g, o, obj)) == RootVals(g); }
    StoreStruct(g, o, obj);
    StoreClosed(g.m, o, obj);
    StoreKinds(g.m, o, obj);
  }

  // ---------------------------------------------------------------- stores during the mark phase

  /** What a black object comes to hold is among the values `debt`. */
  ghost predicate Adds(m: Marking, o: Id, obj: Obj, debt: seq<Val>) {
    IsBlack(m, o) ==> forall x :: Holds(SetObj(m, o, obj).objs, o, x) ==> Holds(m.objs, o, x) || Ref(x) in debt
  }

  lemma StoreDue(m: Marking, q: set<Id>, o: Id, obj: Obj, debt: seq<Val>, id: Id, x: Id)
    requires KindsOk(m) && StoreOk(m, o, obj) && Adds(m, o, obj, debt) && SettledOk(m, q, [], 0)
    requires id in m.objs && IsBlack(m, id) && Holds(SetObj(m, o, obj).objs, id, x)
    ensures Holds(m.objs, id, x) || (id == o && Ref(x) in debt)
    ensures IsWhite(m, x) && id !in q ==> Ref(x) in debt
  {
    assert KindOk(m.objs[id], m.marks[id].colour);
    if id != o { StoreFields(m, o, obj, id); }
    if Holds(m.objs, id, x) { assert Settled(m, id, 0) && Due(m, id, x); }
  }

  lemma StoreLists(m: Marking, o: Id, obj: Obj)
    requires ListsOk(m) && StoreOk(m, o, obj)
    ensures ListsOk(SetObj(m, o, obj))
  {
    var m' := SetObj(m, o, obj);
    forall id ensures Count(m', id) == if id in m'.objs && IsGray(m', id) && Traversed(m'.objs[id]) then 1 else 0 {
      assert Count(m', id) == Count(m, id);
    }
  }

  lemma StoreMark(m: Marking, q: set<Id>, o: Id, obj: Obj, debt: seq<Val>)
    requires MarkInv(m, q, [], 0) && BlackExist(m) && StoreOk(m, o, obj) && Adds(m, o, obj, debt)
    requires forall x :: Ref(x) in debt ==> x in m.objs
    ensures MarkInv(SetObj(m, o, obj), q, debt, 0) && BlackExist(SetObj(m, o, obj))
  {
    var m' := SetObj(m, o, obj);
    StoreLists(m, o, obj);
    StoreKinds(m, o, obj);
    assert WeakOk(m', 0);
    hide StoreOk, Adds, ListsOk, KindsOk, Holds;
    forall id, x | id in m'.objs && IsBlack(m', id) && Holds(m'.objs, id, x)
      ensures (IsWhite(m', x) && id !in q ==> Ref(x) in debt) && x in m'.objs
    {
      StoreDue(m, q, o, obj, debt, id, x);
    }
  }

  // ---------------------------------------------------------------- barriers

  /** The invariant of the mark phase while `debt` is still to be marked. */
  ghost predicate MarkBase(g: G, debt: seq<Val>) {
    && BaseInv(g) && g.phase == Propagating && MarkInv(g.m, Ids(g.tmudata), debt, 0) && OneWhite(g.m) && BlackExist(g.m)
    && !IsWhite(g.m, g.main) && (g.registry.Ref? ==> !IsWhite(g.m, g.registry.id))
  }

  lemma MarkBaseIs(g: G)
    requires g.phase == Propagating
    ensures MarkBase(g, []) <==> Inv(g)
  {
    hide Struct, KindsOk, AliveClosed, RootsAlive, MarkInv, OneWhite, BlackExist;
  }

  lemma StoreMarkBase(g: G, o: Id, obj: Obj, debt: seq<Val>)
    requires MarkBase(g, []) && StoreOk(g.m, o, obj) && Adds(g.m, o, obj, debt)
             && forall x :: Ref(x) in debt ==> x in g.m.objs
    ensures MarkBase(Stored(g, o, obj), debt)
  {
    hide BaseInv, StoreOk, Adds, MarkInv, BlackExist;
    StoreBase(g, o, obj);
    StoreMark(g.m, Ids(g.tmudata), o, obj, debt);
  }

  lemma BarrierPaid(m: Marking, q: set<Id>, v: Val)
    requires MarkInv(m, q, [v], 0)
    ensures MarkInv(MarkAll(m, [v]), q, [], 0)
  {
    assert [v] + [] == [v];
    MarkAllInv(m, q, [v], [], 0);
  }

  /** Marking a value that is due restores the invariant. */
  lemma PayBase(g: G, v: Val)
    requires MarkBase(g, [v])
    ensures MarkBase(g.(m := MarkAll(g.m, [v])), [])
  {
    hide Struct, AliveClosed, MarkInv, BlackExist, RootsAlive, KindOk;
    var m' := MarkAll(g.m, [v]);
    BarrierPaid(g.m, Ids(g.tmudata), v);
    KindsOfInv(m', Ids(g.tmudata), 0);
    MarkAllAdvanced(g.m, [v]);
    MarkAllMarked(g.m, [v]);
    AllAlive(g.m);
    MarkedBlack(g.m, m');
    AdvancedInv(g, g.(m := m'));
    StaysMarked(g.m, m', g.main);
    if g.registry.Ref? { StaysMarked(g.m, m', g.registry.id); }
  }

  /** A value that need not be marked is no debt. */
  lemma NoDebt(g: G, v: Val)
    requires MarkBase(g, [v]) && !Markable(g.m, v)
    ensures MarkBase(g, [])
  {
    hide BaseInv, OneWhite, BlackExist;
    assert [v] + [] == [v];
    PaidInv(g.m, Ids(g.tmudata), v, [], 0);
  }

  /** A store into a black object followed by the forward barrier. */
  lemma ForwardMark(g: G, o: Id, obj: Obj, v: Val)
    requires MarkBase(g, []) && StoreOk(g.m, o, obj) && Adds(g.m, o, obj, [v]) && ValAlive(g.m, v)
    ensures MarkBase(StoreForward(g, o, obj, v), [])
  {
    var g1 := Stored(g, o, obj);
    assert IsBlack(g1.m, o) == IsBlack(g.m, o) && g1.phase == Propagating;
    if !IsBlack(g.m, o) {
      assert Adds(g.m, o, obj, []);
      hide MarkBase, StoreOk, Adds;
      StoreMarkBase(g, o, obj, []);
    } else {
      hide MarkBase, StoreOk, Adds;
      StoreMarkBase(g, o, obj, [v]);
      if Markable(g1.m, v) { PayBase(g1, v); } else { NoDebt(g1, v); }
    }
  }

  lemma BackLists(m: Marking, t: Id)
    requires ListsOk(m) && IsBlack(m, t) && t in m.objs && m.objs[t].Table?
    ensures ListsOk(SetColour(m, t, Gray).(grayagain := [t] + m.grayagain))
  {
    var m' := SetColour(m, t, Gray).(grayagain := [t] + m.grayagain);
    assert Count(m, t) == 0;
    forall id ensures Count(m', id) == if id in m'.objs && IsGray(m', id) && Traversed(m'.objs[id]) then 1 else 0 {
      assert Count(m', id) == Count(m, id) + if id == t then 1 else 0;
    }
  }

  /** A table that is gray again owes nothing. */
  lemma BackMark(m: Marking, q: set<Id>, t: Id, v: Val)
    requires KindsOk(m) && ListsOk(m) && IsBlack(m, t) && t in m.objs && m.objs[t].Table? && BlackExist(m)
    requires forall id, x ::
               id in m.objs && id !in q && IsBlack(m, id) && Holds(m.objs, id, x) && IsWhite(m, x) ==> id == t
    ensures var m' := SetColour(m, t, Gray).(grayagain := [t] + m.grayagain); MarkInv(m', q, [], 0) && BlackExist(m')
  {
    BackLists(m, t);
    hide ListsOk;
  }

  lemma RecolourAlive(g: G, o: Id, c: Colour)
    requires AliveClosed(g.m) && RootsAlive(g) && Alive(g.m, o) && c != White(!g.m.cw)
    ensures var g' := g.(m := SetColour(g.m, o, c)); AliveClosed(g'.m) && RootsAlive(g')
  {
    var g' := g.(m := SetColour(g.m, o, c));
    forall id ensures Alive(g.m, id) ==> Alive(g'.m, id) { }
    forall id ensures Alive(g'.m, id) ==> Alive(g.m, id) { }
    assert RootVals(g') == RootVals(g);
    hide Alive;
    forall id, x | Alive(g'.m, id) && Refers(g'.m.objs, id, x) ensures Alive(g'.m, x) {
      assert Alive(g.m, id) && Refers(g.m.objs, id, x);
    }
  }

  lemma RecolourStruct(g: G, o: Id, c: Colour)
    requires Struct(g)
    ensures Struct(g.(m := SetColour(g.m, o, c)))
  {
    StructIs(g, {});
    FixedThread(g);
    RecolourShape(g.m, o, c);
    hide StructBut, RootsOk, UdataOk, StringsOk, OpenOk, ThreadsOk, HomesOk, Interned, FixedOk, Reshaped, StringIds,
      SetColour;
    ReshapedStruct(g, g.(m := SetColour(g.m, o, c)), {});
  }

  lemma RecolourBase(g: G, o: Id, c: Colour)
    requires BaseInv(g) && Alive(g.m, o) && KindOk(g.m.objs[o], c) && c != White(!g.m.cw)
    ensures BaseInv(g.(m := SetColour(g.m, o, c)))
  {
    assert KindsOk(SetColour(g.m, o, c));
    hide Struct, AliveClosed, RootsAlive, KindsOk;
    RecolourAlive(g, o, c);
    RecolourStruct(g, o, c);
  }

  lemma RecolourShape(m: Marking, o: Id, c: Colour)
    requires HomesOk(m)
    ensures Reshaped(m, SetColour(m, o, c)) && HomesOk(SetColour(m, o, c))
  {
    forall id ensures HomeOk(SetColour(m, o, c), id) { assert HomeOk(m, id); }
  }

  // ---------------------------------------------------------------- tables

  lemma GrayListed(g: G, t: Id)
    requires BaseInv(g) && t in g.m.objs && g.m.objs[t].Table?
    ensures var g' := g.(m := SetColour(g.m, t, Gray).(grayagain := [t] + g.m.grayagain)); Alive(g.m, t) ==> BaseInv(g')
  {
    if Alive(g.m, t) {
      RecolourBase(g, t, Gray);
      hide Struct, KindsOk, AliveClosed, RootsAlive;
      ListsFrame(g.(m := SetColour(g.m, t, Gray)), SetColour(g.m, t, Gray).(grayagain := [t] + g.m.grayagain));
    }
  }

  lemma ListsAlive(g: G, m': Marking)
    requires AliveClosed(g.m) && RootsAlive(g)
             && m' == g.m.(gray := m'.gray, grayagain := m'.grayagain, weak := m'.weak)
    ensures AliveClosed(m') && RootsAlive(g.(m := m'))
  {
    forall id ensures Alive(m', id) == Alive(g.m, id) { }
    assert RootVals(g.(m := m')) == RootVals(g);
    hide Alive;
    forall id, x | Alive(m', id) && Refers(m'.objs, id, x)
      ensures Alive(m', x)
    {
      assert Alive(g.m, id) && Refers(g.m.objs, id, x);
    }
  }

  lemma ListsShape(m: Marking, m': Marking)
    requires HomesOk(m) && m' == m.(gray := m'.gray, grayagain := m'.grayagain, weak := m'.weak)
    ensures Reshaped(m, m') && HomesOk(m')
  {
    forall id ensures HomeOk(m', id) == HomeOk(m, id) { }
    hide HomeOk;
  }

  /** Gray lists are not part of the structure. */
  lemma ListsFrame(g: G, m': Marking)
    requires BaseInv(g) && m' == g.m.(gray := m'.gray, grayagain := m'.grayagain, weak := m'.weak)
    ensures BaseInv(g.(m := m'))
  {
    StructIs(g, {});
    FixedThread(g);
    assert KindsOk(m');
    hide AliveClosed, RootsAlive, StructBut, RootsOk, UdataOk, StringsOk, OpenOk, ThreadsOk, HomesOk, Interned, FixedOk,
      Reshaped, StringIds, KindsOk;
    ListsAlive(g, m');
    ListsShape(g.m, m');
    ReshapedStruct(g, g.(m := m'), {});
  }

  /** A store into a black table followed by the backward barrier. */
  lemma BackMarkBase(g: G, t: Id, obj: Obj, v: Val)
    requires MarkBase(g, []) && StoreOk(g.m, t, obj) && Adds(g.m, t, obj, [v]) && ValAlive(g.m, v) && obj.Table?
    ensures MarkBase(StoreBack(g, t, obj, v), [])
  {
    var g1 := Stored(g, t, obj);
    assert IsBlack(g1.m, t) == IsBlack(g.m, t) && g1.phase == Propagating && t in g1.m.objs && g1.m.objs[t] == obj;
    if !IsBlack(g.m, t) {
      assert Adds(g.m, t, obj, []);
      hide MarkBase, StoreOk, Adds;
      StoreMarkBase(g, t, obj, []);
    } else if !Markable(g1.m, v) {
      hide MarkBase, StoreOk, Adds;
      StoreMarkBase(g, t, obj, [v]);
      NoDebt(g1, v);
    } else {
      forall id, x | id in g1.m.objs && id !in g.tmudata && IsBlack(g1.m, id) && Holds(g1.m.objs, id, x)
        && IsWhite(g1.m, x)
        ensures id == t
      {
        BlackOwes(g, t, obj, v, id, x);
      }
      hide MarkBase, StoreOk, Adds, Holds;
      StoreMarkBase(g, t, obj, [v]);
      GrayAgainBase(g1, t, v);
    }
  }

  lemma BlackOwes(g: G, t: Id, obj: Obj, v: Val, id: Id, x: Id)
    requires MarkBase(g, []) && StoreOk(g.m, t, obj) && Adds(g.m, t, obj, [v])
    requires id in g.m.objs && id !in g.tmudata && IsBlack(g.m, id) && Holds(SetObj(g.m, t, obj).objs, id, x)
             && IsWhite(g.m, x)
    ensures id == t
  {
    if id != t {
      StoreDue(g.m, Ids(g.tmudata), t, obj, [v], id, x);
      assert Settled(g.m, id, 0) && Due(g.m, id, x);
    }
  }

  lemma GrayAgainBase(g: G, t: Id, v: Val)
    requires MarkBase(g, [v]) && IsBlack(g.m, t) && t in g.m.objs && g.m.objs[t].Table?
    requires forall id, x ::
               id in g.m.objs && id !in g.tmudata && IsBlack(g.m, id) && Holds(g.m.objs, id, x) && IsWhite(g.m, x) ==>
                 id == t
    ensures MarkBase(g.(m := SetColour(g.m, t, Gray).(grayagain := [t] + g.m.grayagain)), [])
  {
    AliveInMarking(g.m, t);
    BackMarkDone(g.m, Ids(g.tmudata), t, v);
    GrayWhites(g.m, t);
    hide BaseInv, MarkInv, BlackExist, Alive, Holds, OneWhite, SetColour;
    GrayListed(g, t);
  }

  lemma GrayWhites(m: Marking, t: Id)
    requires OneWhite(m)
    ensures var m' := SetColour(m, t, Gray).(grayagain := [t] + m.grayagain);
            OneWhite(m') && forall x :: IsWhite(m', x) ==> IsWhite(m, x)
  {
  }

  lemma BackMarkDone(m: Marking, q: set<Id>, t: Id, v: Val)
    requires MarkInv(m, q, [v], 0) && IsBlack(m, t) && t in m.objs && m.objs[t].Table? && BlackExist(m)
    requires forall id, x ::
               id in m.objs && id !in q && IsBlack(m, id) && Holds(m.objs, id, x) && IsWhite(m, x) ==> id == t
    ensures var m' := SetColour(m, t, Gray).(grayagain := [t] + m.grayagain); MarkInv(m', q, [], 0) && BlackExist(m')
  {
    hide Holds;
    BackMark(m, q, t, v);
  }

  // ---------------------------------------------------------------- stores in any phase

  /** Outside the mark phase the invariant is this. */
  ghost predicate IdleInv(g: G) {
    && BaseInv(g) && g.phase != Propagating && SweptOk(g)
    && (g.phase == Pause ==> g.tmudata == [])
    && (g.phase == SweepString ==> g.sweepstr < |g.strt| && g.swept == 0)
    && g.swept <= |RootList(g)|
  }

  lemma IdleIs(g: G)
    requires g.phase != Propagating
    ensures IdleInv(g) <==> Inv(g)
  {
    hide Struct, KindsOk, AliveClosed, RootsAlive, SweptOk;
  }

  lemma StoreIdle(g: G, o: Id, obj: Obj)
    requires IdleInv(g) && StoreOk(g.m, o, obj)
    ensures IdleInv(Stored(g, o, obj))
  {
    hide BaseInv, SweptOk, StoreOk;
    StoreBase(g, o, obj);
    StoreSwept(g, o, obj);
  }

  lemma RecolourSwept(g: G, o: Id, c: Colour)
    requires SweptOk(g) && (c == White(g.m.cw) || IsBlack(g.m, o))
    ensures SweptOk(g.(m := SetColour(g.m, o, c)))
  {
    var g' := g.(m := SetColour(g.m, o, c));
    forall x ensures Passed(g', x) == Passed(g, x) { }
    hide Passed;
    forall id | id in g'.m.objs && SweptId(g', id) ensures Clean(g'.m, id) { assert SweptId(g, id); }
  }

  /** Whitening an object, or graying one that the sweep has not reached. */
  lemma RecolourIdle(g: G, o: Id, c: Colour)
    requires IdleInv(g) && Alive(g.m, o) && KindOk(g.m.objs[o], c)
    requires c == White(g.m.cw) || (c == Gray && IsBlack(g.m, o))
    ensures IdleInv(g.(m := SetColour(g.m, o, c)))
  {
    hide BaseInv, SweptOk, SetColour, KindOk;
    RecolourBase(g, o, c);
    RecolourSwept(g, o, c);
  }

  lemma ListsIdle(g: G, m': Marking)
    requires IdleInv(g) && m' == g.m.(gray := m'.gray, grayagain := m'.grayagain, weak := m'.weak)
    ensures IdleInv(g.(m := m'))
  {
    var g' := g.(m := m');
    ListsFrame(g, m');
    forall x ensures Passed(g', x) == Passed(g, x) { }
    hide Passed, BaseInv;
    forall id | id in g'.m.objs && SweptId(g', id) ensures Clean(g'.m, id) { assert SweptId(g, id); }
  }

  /** Userdata, closures, prototypes and closed upvalues; `Alive` because the program can reach the object. */
  predicate ForwardKind(o: Obj) { o.Udata? || o.Closure? || o.Proto? || (o.Upval? && o.home.Closed?) }

  lemma ForwardKeeps(g: G, o: Id, obj: Obj, v: Val)
    requires Inv(g) && StoreOk(g.m, o, obj) && Adds(g.m, o, obj, [v]) && ValAlive(g.m, v) && Alive(g.m, o)
    ensures Inv(StoreForward(g, o, obj, v))
  {
    var g1 := Stored(g, o, obj);
    if g.phase == Propagating {
      hide Inv, MarkBase, StoreOk, Adds, StoreForward;
      MarkBaseIs(g);
      ForwardMark(g, o, obj, v);
      ForwardPhase(g, o, obj, v);
      MarkBaseIs(StoreForward(g, o, obj, v));
    } else {
      WhiteIsOk(obj, g.m.cw);
      assert Alive(g1.m, o);
      hide Inv, IdleInv, StoreOk, Adds, KindOk, Alive;
      IdleIs(g);
      StoreIdle(g, o, obj);
      if IsBlack(g1.m, o) && Markable(g1.m, v) { RecolourIdle(g1, o, White(g.m.cw)); }
      ForwardPhase(g, o, obj, v);
      IdleIs(StoreForward(g, o, obj, v));
    }
  }

  lemma WhiteIsOk(o: Obj, w: bool)
    ensures KindOk(o, White(w))
  {
  }

  lemma ForwardPhase(g: G, o: Id, obj: Obj, v: Val)
    ensures StoreForward(g, o, obj, v).phase == g.phase
  {
  }

  lemma BackKeeps(g: G, t: Id, obj: Obj, v: Val)
    requires Inv(g) && StoreOk(g.m, t, obj) && Adds(g.m, t, obj, [v]) && ValAlive(g.m, v) && Alive(g.m, t) && obj.Table?
    ensures Inv(StoreBack(g, t, obj, v))
  {
    var g1 := Stored(g, t, obj);
    if g.phase == Propagating {
      hide Inv, MarkBase, StoreOk, Adds, StoreBack;
      MarkBaseIs(g);
      BackMarkBase(g, t, obj, v);
      BackPhase(g, t, obj, v);
      MarkBaseIs(StoreBack(g, t, obj, v));
    } else {
      assert Alive(g1.m, t) && KindOk(g1.m.objs[t], Gray);
      hide Inv, IdleInv, StoreOk, Adds, KindOk, Alive;
      IdleIs(g);
      StoreIdle(g, t, obj);
      if IsBlack(g1.m, t) && Markable(g1.m, v) {
        RecolourIdle(g1, t, Gray);
        ListsIdle(g1.(m := SetColour(g1.m, t, Gray)), SetColour(g1.m, t, Gray).(grayagain := [t] + g1.m.grayagain));
      }
      BackPhase(g, t, obj, v);
      IdleIs(StoreBack(g, t, obj, v));
    }
  }

  lemma BackPhase(g: G, t: Id, obj: Obj, v: Val)
    ensures StoreBack(g, t, obj, v).phase == g.phase
  {
  }

  /** Stack slots are written without a barrier, because threads are never black. */
  lemma StackKeeps(g: G, th: Id, obj: Obj)
    requires Inv(g) && StoreOk(g.m, th, obj) && g.m.objs[th].Thread?
    ensures Inv(Stored(g, th, obj))
  {
    assert KindOk(g.m.objs[th], g.m.marks[th].colour);
    assert Adds(g.m, th, obj, []);
    assert Stored(g, th, obj).phase == g.phase;
    hide Inv, MarkBase, IdleInv, StoreOk, Adds;
    if g.phase == Propagating {
      MarkBaseIs(g);
      StoreMarkBase(g, th, obj, []);
      MarkBaseIs(Stored(g, th, obj));
    } else {
      IdleIs(g);
      StoreIdle(g, th, obj);
      IdleIs(Stored(g, th, obj));
    }
  }
}
