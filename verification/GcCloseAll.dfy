/** Closing upvalues in any phase (lua/lfunc.c:96-112, lua/lgc.c:694-710). */
module GcCloseAll {
  import opened GcHeap
  import opened GcMark
  import opened GcCollector
  import opened GcState
  import opened GcStateMark
  import opened GcSweep
  import opened GcClose
  import opened GcMutator
  import opened GcAllocate
  import opened GcUpvals

  // ---------------------------------------------------------------- while marking

  /** `CloseFirst` in the mark phase, before the barrier. */
  function Closing(g: G, th: Id): G
    requires OpenList(g.m, th) != []
  {
    var uv := OpenList(g.m, th)[0];
    var m := SetObj(SetOpen(g.m, th, OpenList(g.m, th)[1..]), uv, Upval(Closed(UpvalVal(g.m, uv))));
    Link(g, uv).(m := if IsGray(g.m, uv) then SetColour(m, uv, Black) else m, uvhead := Without(g.uvhead, uv))
  }

  function Owed(g: G, th: Id): seq<Val>
    requires OpenList(g.m, th) != []
  {
    var uv := OpenList(g.m, th)[0];
    if IsGray(g.m, uv) then [UpvalVal(g.m, uv)] else []
  }

  lemma BarrierMarks(g: G, uv: Id, v: Val)
    requires IsBlack(g.m, uv) && g.phase == Propagating
    ensures Barrier(g, uv, v) == g.(m := MarkAll(g.m, [v]))
  {
    if !Markable(g.m, v) { assert MarkAll(g.m, [v]) == MarkAll(g.m, []) == g.m; }
  }

  lemma ClosingSteps(g: G, th: Id)
    requires ThreadsOk(g.m) && HomesOk(g.m) && g.phase == Propagating && OpenList(g.m, th) != []
    requires OpenList(g.m, th)[0] in g.m.marks && !IsDead(g.m, OpenList(g.m, th)[0])
    ensures CloseFirst(g, th) == Closing(g, th).(m := MarkAll(Closing(g, th).m, Owed(g, th)))
  {
    FirstIsOpen(g.m, th);
    hide ThreadsOk, HomesOk, OpenOn;
    var uv := OpenList(g.m, th)[0];
    var g1 := Closing(g, th);
    var v := UpvalVal(g.m, uv);
    if IsGray(g.m, uv) {
      assert IsBlack(g1.m, uv);
      BarrierMarks(g1, uv, v);
      assert CloseFirst(g, th) == Barrier(g1, uv, v) by { hide Barrier; }
    } else {
      assert MarkAll(g1.m, []) == g1.m;
    }
  }

  lemma ClosingUnfolds(g: G, th: Id)
    requires MarkBase(g, []) && OpenList(g.m, th) != []
    ensures CloseFirst(g, th) == Closing(g, th).(m := MarkAll(Closing(g, th).m, Owed(g, th)))
  {
    BaseParts(g);
    FirstIsOpen(g.m, th);
    AliveInMarking(g.m, OpenList(g.m, th)[0]);
    hide BaseInv, MarkInv, BlackExist, OneWhite, CloseFirst, Closing;
    ClosingSteps(g, th);
  }

  lemma ClosingIs(g: G, th: Id)
    requires ThreadsOk(g.m) && HomesOk(g.m) && OpenList(g.m, th) != [] && KindsOk(g.m)
    ensures var m, m', uv := g.m, Closing(g, th).m, OpenList(g.m, th)[0];
            && Detached(g, Closing(g, th), th, uv)
            && m' == m.(objs := m'.objs, marks := m'.marks) && m'.marks.Keys == m.marks.Keys
            && m'.objs.Keys == m.objs.Keys
            && (forall x :: x in m.marks && x != uv ==> m'.marks[x] == m.marks[x])
            && m'.marks[uv] == (if IsGray(m, uv) then m.marks[uv].(colour := Black) else m.marks[uv]) && !IsBlack(m, uv)
            && m'.objs[uv] == Upval(Closed(UpvalVal(m, uv))) && uv in m.objs && th in m.objs && IsOpen(m.objs[uv])
            && m.objs[th].Thread?
            && m'.objs[th] == m.objs[th].(open := OpenList(m, th)[1..])
            && (forall x :: x in m.objs && x != uv && x != th ==> m'.objs[x] == m.objs[x])
  {
    FirstIsOpen(g.m, th);
    FirstNotBlack(g.m, th);
  }

  lemma ClosingFields(g: G, th: Id, id: Id)
    requires ThreadsOk(g.m) && HomesOk(g.m) && OpenList(g.m, th) != [] && KindsOk(g.m)
    ensures FieldsAt(Closing(g, th).m.objs, id) == FieldsAt(g.m.objs, id)
    ensures forall x :: Holds(Closing(g, th).m.objs, id, x) == Holds(g.m.objs, id, x)
  {
    ClosingIs(g, th);
    assert HomeOk(g.m, id);
    hide Closing, Detached, OpenList, KindsOk, ThreadsOk, HomesOk;
    var m, m' := g.m, Closing(g, th).m;
    if id in m.objs && id != th && m.objs[id].Upval? { SlotStays(m, m', th, m.objs[id].home); }
  }

  lemma SlotStays(m: Marking, m': Marking, th: Id, h: Home)
    requires h.Open? ==> h.th in m.objs && m.objs[h.th].Thread?
    requires th in m.objs && th in m'.objs && m.objs[th].Thread? && m'.objs[th].Thread?
             && m'.objs[th].stack == m.objs[th].stack
    requires h.Open? && h.th != th ==> h.th in m'.objs && m'.objs[h.th] == m.objs[h.th]
    ensures HomeVal(m'.objs, h) == HomeVal(m.objs, h)
  {
  }

  lemma ClosingKind(g: G, th: Id, j: Id)
    requires ThreadsOk(g.m) && HomesOk(g.m) && OpenList(g.m, th) != [] && KindsOk(g.m) && j in g.m.objs
    ensures var m, m' := g.m, Closing(g, th).m;
            && j in m'.objs && KindOk(m'.objs[j], m'.marks[j].colour) && Traversed(m'.objs[j]) == Traversed(m.objs[j])
            && (Traversed(m.objs[j]) ==> m'.marks[j] == m.marks[j]) && (m'.objs[j].Table? <==> m.objs[j].Table?)
  {
    ClosingIs(g, th);
    assert KindOk(g.m.objs[j], g.m.marks[j].colour);
    hide Closing, Detached, OpenList;
  }

  lemma ClosingLists(g: G, th: Id)
    requires ThreadsOk(g.m) && HomesOk(g.m) && OpenList(g.m, th) != [] && KindsOk(g.m) && ListsOk(g.m)
    ensures ListsOk(Closing(g, th).m) && KindsOk(Closing(g, th).m)
  {
    var m, m' := g.m, Closing(g, th).m;
    assert m'.gray == m.gray && m'.grayagain == m.grayagain && m'.weak == m.weak;
    assert m'.marks.Keys == m'.objs.Keys == m.objs.Keys by { ClosingIs(g, th); }
    hide Closing, OpenList, Traversed, KindOk;
    forall j | j in m'.objs ensures KindOk(m'.objs[j], m'.marks[j].colour) { ClosingKind(g, th, j); }
    forall j ensures Count(m', j) == if j in m'.objs && IsGray(m', j) && Traversed(m'.objs[j]) then 1 else 0 {
      assert Count(m', j) == Count(m, j);
      if j in m.objs { ClosingKind(g, th, j); }
    }
    forall j | j in m'.weak ensures j in m'.objs && m'.objs[j].Table? { ClosingKind(g, th, j); }
    hide Count;
  }

  lemma ClosingDue(g: G, th: Id, j: Id, x: Id)
    requires ThreadsOk(g.m) && HomesOk(g.m) && OpenList(g.m, th) != [] && KindsOk(g.m)
             && SettledOk(g.m, Ids(g.tmudata), [], 0) && BlackExist(g.m) && AllExist(g.m)
    requires var m' := Closing(g, th).m; j in m'.objs && IsBlack(m', j) && Holds(m'.objs, j, x)
    ensures x in g.m.objs && (IsWhite(g.m, x) && j !in g.tmudata ==> Ref(x) in Owed(g, th))
  {
    var m, uv := g.m, OpenList(g.m, th)[0];
    ClosingIs(g, th);
    ClosingFields(g, th, j);
    hide Closing, Detached;
    if j == uv {
      assert Refers(m.objs, uv, x);
    } else {
      assert Settled(m, j, 0) && Due(m, j, x);
    }
  }

  lemma ClosingWhites(g: G, th: Id)
    requires ThreadsOk(g.m) && HomesOk(g.m) && OpenList(g.m, th) != [] && KindsOk(g.m) && OneWhite(g.m)
    ensures OneWhite(Closing(g, th).m) && (forall x :: IsWhite(Closing(g, th).m, x) ==> IsWhite(g.m, x))
    ensures Closing(g, th).m.objs.Keys == g.m.objs.Keys
  {
    ClosingIs(g, th);
    hide Closing, Detached;
  }

  lemma MarkParts(m: Marking, q: set<Id>)
    requires MarkInv(m, q, [], 0)
    ensures KindsOk(m) && ListsOk(m) && SettledOk(m, q, [], 0)
  {
  }

  lemma ClosingMark(g: G, th: Id)
    requires MarkBase(g, []) && OpenList(g.m, th) != []
    ensures var m' := Closing(g, th).m;
            MarkInv(m', Ids(g.tmudata), Owed(g, th), 0) && BlackExist(m') && OneWhite(m')
            && forall x :: IsWhite(m', x) ==> IsWhite(g.m, x)
  {
    var m' := Closing(g, th).m;
    BaseParts(g);
    MarkParts(g.m, Ids(g.tmudata));
    assert AllExist(g.m) by { AllAlive(g.m); }
    hide MarkBase, KindsOk, ListsOk, SettledOk, BlackExist, AllExist;
    assert BlackExist(g.m) && OneWhite(g.m) by { MarkBaseParts(g); }
    ClosingLists(g, th);
    ClosingWhites(g, th);
    ClosingSettled(g, th);
    assert WeakOk(m', 0);
  }

  lemma MarkBaseParts(g: G)
    requires MarkBase(g, [])
    ensures BlackExist(g.m) && OneWhite(g.m)
  {
  }

  lemma ClosingSettled(g: G, th: Id)
    requires ThreadsOk(g.m) && HomesOk(g.m) && OpenList(g.m, th) != [] && KindsOk(g.m)
             && SettledOk(g.m, Ids(g.tmudata), [], 0) && BlackExist(g.m) && AllExist(g.m)
    requires forall x :: IsWhite(Closing(g, th).m, x) ==> IsWhite(g.m, x)
    requires Closing(g, th).m.objs.Keys == g.m.objs.Keys
    ensures SettledOk(Closing(g, th).m, Ids(g.tmudata), Owed(g, th), 0) && BlackExist(Closing(g, th).m)
  {
    var m' := Closing(g, th).m;
    forall j, x | j in m'.objs && IsBlack(m', j) && Holds(m'.objs, j, x)
      ensures x in m'.objs && (IsWhite(m', x) && j !in g.tmudata ==> Ref(x) in Owed(g, th))
    {
      ClosingDue(g, th, j, x);
    }
    hide Closing, Holds, Owed, KindsOk, ThreadsOk, HomesOk, AllExist;
  }

  lemma ClosingClosed(g: G, th: Id)
    requires MarkBase(g, []) && OpenList(g.m, th) != []
    ensures AliveClosed(Closing(g, th).m)
  {
    var m' := Closing(g, th).m;
    BaseParts(g);
    AllAlive(g.m);
    ClosingIs(g, th);
    ClosingMark(g, th);
    hide Closing, Detached, MarkInv, BlackExist;
    forall j, x | Refers(m'.objs, j, x) ensures x in m'.objs {
      ClosingFields(g, th, j);
      assert Refers(g.m.objs, j, x);
    }
    AllAlive(m');
  }

  lemma ClosingBase(g: G, th: Id)
    requires MarkBase(g, []) && OpenList(g.m, th) != []
    ensures BaseInv(Closing(g, th))
  {
    var g', uv := Closing(g, th), OpenList(g.m, th)[0];
    BaseParts(g);
    ClosingIs(g, th);
    ClosingMark(g, th);
    ClosingRoots(g, th);
    ClosingFixed(g, th);
    FirstIsOpen(g.m, th);
    assert KindsOk(g'.m);
    hide StructBut, Closing, Detached, MarkInv, BlackExist, AliveClosed, RootsAlive, KindsOk, Owed, FixedOk, OneWhite;
    ClosingClosed(g, th);
    DetachedStruct(g, g', th, uv, {});
  }

  lemma ClosingFixed(g: G, th: Id)
    requires ThreadsOk(g.m) && HomesOk(g.m) && OpenList(g.m, th) != [] && KindsOk(g.m) && FixedOk(g)
    ensures FixedOk(Closing(g, th))
  {
    ClosingIs(g, th);
    FirstIsOpen(g.m, th);
    hide Closing, KindsOk, ThreadsOk, HomesOk, OpenList;
    DetachedFixed(g, Closing(g, th), th, OpenList(g.m, th)[0]);
  }

  lemma ClosingRoots(g: G, th: Id)
    requires MarkBase(g, []) && OpenList(g.m, th) != []
    ensures RootsAlive(Closing(g, th))
  {
    var g' := Closing(g, th);
    assert RootVals(g') == RootVals(g) && g'.tmudata == g.tmudata;
    assert RootsAlive(g) && OneWhite(g.m);
    assert OneWhite(g'.m) by { BaseParts(g); ClosingWhites(g, th); }
    ClosingKeys(g, th);
    hide MarkBase, Closing, Owed, OpenList, OneWhite;
    forall x ensures Alive(g.m, x) ==> Alive(g'.m, x) { AliveInMarking(g.m, x); AliveInMarking(g'.m, x); }
    hide RootVals, Alive;
  }

  lemma ClosingKeys(g: G, th: Id)
    requires MarkBase(g, []) && OpenList(g.m, th) != []
    ensures Closing(g, th).m.marks.Keys == Closing(g, th).m.objs.Keys == g.m.objs.Keys == g.m.marks.Keys
  {
    BaseParts(g);
    ClosingIs(g, th);
  }

  lemma CloseFirstMark(g: G, th: Id)
    requires MarkBase(g, []) && OpenList(g.m, th) != []
    ensures MarkBase(CloseFirst(g, th), [])
  {
    var g' := Closing(g, th);
    BaseParts(g);
    ClosingIs(g, th);
    ClosingMark(g, th);
    ClosingBase(g, th);
    ClosingUnfolds(g, th);
    DetachedSame(g, g', th, OpenList(g.m, th)[0]);
    assert g'.registry == g.registry && g'.main == g.main;
    assert MarkBase(g', Owed(g, th)) by { hide BaseInv, MarkInv, BlackExist, OneWhite, Closing, Detached; }
    hide MarkBase, Closing, CloseFirst, Detached;
    if Owed(g, th) != [] { PayBase(g', Owed(g, th)[0]); }
  }

  // ---------------------------------------------------------------- any phase

  /** What closing leaves alone. */
  ghost predicate SameElse(g: G, g': G) {
    && g'.phase == g.phase && g'.tmudata == g.tmudata && g'.strt == g.strt && g'.sweepstr == g.sweepstr
    && g'.udata == g.udata
    && g'.main == g.main && g'.cur == g.cur && g'.registry == g.registry && g'.mts == g.mts && g'.hash == g.hash
    && g'.nuse == g.nuse
    && (g.swept == 0 ==> g'.swept == 0)
  }

  lemma CloseFirstElse(g: G, th: Id)
    requires OpenList(g.m, th) != []
    ensures SameElse(g, CloseFirst(g, th))
  {
  }

  lemma RestOfIdle(g: G)
    requires IdleInv(g)
    ensures RestInv(g, {})
  {
  }

  lemma IdleOfRest(g: G, g': G)
    requires IdleInv(g) && RestInv(g', {}) && SameElse(g, g')
    ensures IdleInv(g')
  {
  }

  lemma CloseFirstKeeps(g: G, th: Id)
    requires Inv(g) && OpenList(g.m, th) != []
    ensures Inv(CloseFirst(g, th))
  {
    CloseFirstElse(g, th);
    hide Inv, MarkBase, IdleInv, CloseFirst, RestInv, Purged;
    if g.phase == Propagating {
      MarkBaseIs(g);
      CloseFirstMark(g, th);
      MarkBaseIs(CloseFirst(g, th));
    } else {
      IdleIs(g);
      RestOfIdle(g);
      CloseFirstRest(g, th, {});
      IdleOfRest(g, CloseFirst(g, th));
      IdleIs(CloseFirst(g, th));
    }
  }

  /** `luaF_close` keeps the invariant in every phase. */
  lemma {:induction false} CloseKeeps(g: G, th: Id, level: nat, n: nat)
    requires Inv(g)
    ensures Inv(Close(g, th, level, n)) && SameElse(g, Close(g, th, level, n))
    decreases n
  {
    hide Inv, CloseFirst;
    var l := OpenList(g.m, th);
    if !(n == 0 || l == [] || !AtOrAbove(g.m, l[0], level)) {
      CloseFirstKeeps(g, th);
      CloseFirstElse(g, th);
      CloseKeeps(CloseFirst(g, th), th, level, n - 1);
    }
  }

  // ---------------------------------------------------------------- what closing does

  /** No value has changed for anyone, and only dead upvalues have gone. */
  ghost predicate SameValues(m: Marking, m': Marking) {
    && (forall id :: id in m'.objs ==> id in m.objs && FieldsAt(m'.objs, id) == FieldsAt(m.objs, id))
    && (forall id :: id in m.objs && id !in m'.objs ==> IsDead(m, id))
    && (forall id :: IsDead(m', id) ==> IsDead(m, id))
  }

  lemma PurgedValues(m: Marking, m': Marking)
    requires Purged(m, m')
    ensures SameValues(m, m')
  {
    forall id | id in m'.objs ensures FieldsAt(m'.objs, id) == FieldsAt(m.objs, id) { assert KeptAt(m, m', id); }
    forall id | IsDead(m', id) ensures IsDead(m, id) { PurgedAlive(m, m', id); }
  }

  lemma ClosingObjs(g: G, th: Id)
    requires MarkBase(g, []) && OpenList(g.m, th) != []
    ensures CloseFirst(g, th).m.objs == Closing(g, th).m.objs && Closing(g, th).m.objs.Keys == g.m.objs.Keys
    ensures ThreadsOk(g.m) && HomesOk(g.m) && KindsOk(g.m)
  {
    BaseParts(g);
    ClosingKeys(g, th);
    hide Closing, CloseFirst;
    ClosingUnfolds(g, th);
    MarkAllMarked(Closing(g, th).m, Owed(g, th));
  }

  lemma NothingIsDead(g: G)
    requires MarkBase(g, [])
    ensures forall id :: !IsDead(g.m, id)
  {
  }

  lemma ClosingValues(g: G, th: Id)
    requires MarkBase(g, []) && OpenList(g.m, th) != []
    ensures SameValues(g.m, CloseFirst(g, th).m)
  {
    hide MarkBase, Closing, CloseFirst, FieldsAt, IsDead, SameValues, OpenList;
    ClosingSame(g, th);
    CloseFirstMark(g, th);
    NothingIsDead(CloseFirst(g, th));
    SameIntro(g.m, CloseFirst(g, th).m);
  }

  lemma SameIntro(m: Marking, m': Marking)
    requires m'.objs.Keys == m.objs.Keys && (forall id :: FieldsAt(m'.objs, id) == FieldsAt(m.objs, id))
             && (forall id :: !IsDead(m', id))
    ensures SameValues(m, m')
  {
    hide FieldsAt, IsDead;
  }

  lemma ClosingSame(g: G, th: Id)
    requires MarkBase(g, []) && OpenList(g.m, th) != []
    ensures var m' := CloseFirst(g, th).m;
            m'.objs.Keys == g.m.objs.Keys && forall id :: FieldsAt(m'.objs, id) == FieldsAt(g.m.objs, id)
  {
    hide MarkBase, Closing, CloseFirst, FieldsAt, ThreadsOk, HomesOk, KindsOk;
    ClosingObjs(g, th);
    forall id ensures FieldsAt(CloseFirst(g, th).m.objs, id) == FieldsAt(g.m.objs, id) { ClosingFields(g, th, id); }
  }

  lemma CloseFirstValues(g: G, th: Id)
    requires Inv(g) && OpenList(g.m, th) != []
    ensures SameValues(g.m, CloseFirst(g, th).m)
  {
    hide Inv, MarkBase, IdleInv, RestInv, CloseFirst, SameValues, Purged;
    if g.phase == Propagating {
      MarkBaseIs(g);
      ClosingValues(g, th);
    } else {
      IdleIs(g);
      RestOfIdle(g);
      CloseFirstRest(g, th, {});
      PurgedValues(g.m, CloseFirst(g, th).m);
    }
  }

  lemma CloseFirstOpen(g: G, th: Id)
    requires Inv(g) && OpenList(g.m, th) != []
    ensures var m', uv := CloseFirst(g, th).m, OpenList(g.m, th)[0];
            && OpenList(m', th) == OpenList(g.m, th)[1..] && th in m'.objs && m'.objs[th].Thread?
            && (forall id :: OpenOn(m', id, th) <==> OpenOn(g.m, id, th) && id != uv)
            && (forall id :: OpenOn(m', id, th) ==> m'.objs[id] == g.m.objs[id])
  {
    var g', uv := CloseFirst(g, th), OpenList(g.m, th)[0];
    BaseOf(g);
    BaseParts(g);
    if g.phase == Propagating {
      MarkBaseIs(g);
      ClosingUnfolds(g, th);
      ClosingIs(g, th);
      MarkAllMarked(Closing(g, th).m, Owed(g, th));
      hide Inv, CloseFirst, Closing, MarkBase, BaseInv, KindsOk;
      OpenDetached(g, g', Closing(g, th), th, uv);
    } else {
      CloseFirstUnfolds(g, th);
      CloseFirstDetaches(g, th);
      hide Inv, CloseFirst, CloseFirstIs, BaseInv;
      OpenDetached(g, g', g', th, uv);
    }
  }

  lemma BaseOf(g: G)
    requires Inv(g)
    ensures BaseInv(g)
  {
  }

  lemma OpenDetached(g: G, g': G, g1: G, th: Id, uv: Id)
    requires ThreadsOk(g.m) && HomesOk(g.m) && Detached(g, g1, th, uv) && g'.m.objs == g1.m.objs
    ensures OpenList(g'.m, th) == OpenList(g.m, th)[1..] && th in g'.m.objs && g'.m.objs[th].Thread?
    ensures forall id :: OpenOn(g'.m, id, th) <==> OpenOn(g.m, id, th) && id != uv
    ensures forall id :: OpenOn(g'.m, id, th) ==> g'.m.objs[id] == g.m.objs[id]
  {
    FirstIsOpen(g.m, th);
  }

  lemma AllBelow(m: Marking, th: Id, level: nat)
    requires ThreadsOk(m) && th in m.objs && m.objs[th].Thread?
    requires OpenList(m, th) == [] || !AtOrAbove(m, OpenList(m, th)[0], level)
    ensures forall id :: OpenOn(m, id, th) ==> LevelOf(m, id) < level
  {
    var l := OpenList(m, th);
    ListLevels(m, th);
    assert OpenListOk(m, th);
    forall id | OpenOn(m, id, th) ensures LevelOf(m, id) < level {
      assert multiset(l)[id] > 0;
      var i :| 0 <= i < |l| && l[i] == id;
      assert AtOrAbove(m, l[0], 0);
    }
  }

  lemma SameTwice(m0: Marking, m1: Marking, m2: Marking)
    requires SameValues(m0, m1) && SameValues(m1, m2)
    ensures SameValues(m0, m2)
  {
    hide FieldsAt, IsDead;
  }

  lemma SameSelf(m: Marking)
    ensures SameValues(m, m)
  {
  }

  /** What stays open when everything at or above the level is detached. */
  ghost predicate DetachedFrom(m: Marking, m': Marking, th: Id, level: nat) {
    forall id :: OpenOn(m', id, th) <==> OpenOn(m, id, th) && LevelOf(m, id) < level
  }

  lemma DetachStep(m: Marking, m1: Marking, m2: Marking, th: Id, level: nat, uv: Id)
    requires DetachedFrom(m1, m2, th, level) && LevelOf(m, uv) >= level
    requires forall id :: OpenOn(m1, id, th) <==> OpenOn(m, id, th) && id != uv
    requires forall id :: OpenOn(m1, id, th) ==> id in m.objs && m1.objs[id] == m.objs[id]
    ensures DetachedFrom(m, m2, th, level)
  {
  }

  /** `luaF_close` detaches exactly the upvalues at or above the level, and no value changes: what could be
      seen through an upvalue, or through any other object, is seen as before. */
  lemma {:induction false} CloseExact(g: G, th: Id, level: nat, n: nat)
    requires Inv(g) && n >= |OpenList(g.m, th)| && th in g.m.objs && g.m.objs[th].Thread?
    ensures SameValues(g.m, Close(g, th, level, n).m) && DetachedFrom(g.m, Close(g, th, level, n).m, th, level)
    decreases n
  {
    var l := OpenList(g.m, th);
    hide Inv, CloseFirst, SameValues, BaseInv, KindsOk, HomesOk, ThreadsOk;
    if n == 0 || l == [] || !AtOrAbove(g.m, l[0], level) {
      BaseOf(g);
      BaseParts(g);
      AllBelow(g.m, th, level);
      SameSelf(g.m);
    } else {
      var g1 := CloseFirst(g, th);
      CloseFirstOpen(g, th);
      CloseFirstValues(g, th);
      CloseFirstKeeps(g, th);
      CloseExact(g1, th, level, n - 1);
      SameTwice(g.m, g1.m, Close(g, th, level, n).m);
      DetachStep(g.m, g1.m, Close(g, th, level, n).m, th, level, l[0]);
    }
  }
}
