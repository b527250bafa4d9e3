/** Closing upvalues (lua/lfunc.c:96-112, lua/lgc.c:694-710): the upvalue takes over the value of its slot and
    joins the root list, or goes if it is dead. */
module GcClose {
  import opened GcHeap
  import opened GcMark
  import opened GcCollector
  import opened GcState
  import opened GcSweep

  lemma {:induction false} WithoutCount(l: seq<Id>, id: Id, x: Id)
    ensures multiset(Without(l, id))[x] == multiset(l)[x] - if x == id && id in l then 1 else 0
    decreases |l|
  {
    if l != [] {
      assert l == [l[0]] + l[1..];
      if l[0] != id { WithoutCount(l[1..], id, x); }
    }
  }

  /** The upvalue has left the lists of open upvalues; it is gone, or closed and in the root list. */
  ghost predicate Detached(g: G, g': G, th: Id, uv: Id) {
    && OpenList(g.m, th) != [] && uv == OpenList(g.m, th)[0]
    && g'.uvhead == Without(g.uvhead, uv)
    && g' == g.(m := g'.m, uvhead := g'.uvhead, rootgc := g'.rootgc, swept := g'.swept)
    && (forall id :: id != uv ==> (id in g'.m.objs <==> id in g.m.objs))
    && (forall id :: id in g.m.objs && id != uv && id != th ==> g'.m.objs[id] == g.m.objs[id])
    && th in g'.m.objs && g'.m.objs[th] == g.m.objs[th].(open := OpenList(g.m, th)[1..])
    && (if uv in g'.m.objs
        then g'.m.objs[uv] == Upval(Closed(UpvalVal(g.m, uv))) && g'.rootgc == [uv] + g.rootgc
        else g'.rootgc == g.rootgc)
  }

  lemma FirstIsOpen(m: Marking, th: Id)
    requires ThreadsOk(m) && HomesOk(m) && OpenList(m, th) != []
    ensures var uv := OpenList(m, th)[0];
            OpenOn(m, uv, th) && HomeOk(m, uv) && th in m.objs && m.objs[th].Thread? && uv != th
    ensures multiset(OpenList(m, th))[OpenList(m, th)[0]] == 1
  {
    var l := OpenList(m, th);
    assert OpenListOk(m, th);
    assert multiset(l)[l[0]] == if OpenOn(m, l[0], th) then 1 else 0;
    assert l[0] in multiset(l);
  }

  /** Which kind of object each is. */
  ghost predicate SortsMove(m: Marking, m': Marking, uv: Id) {
    forall id ::
      && (id in m'.objs && RootKind(m'.objs[id]) <==>
            (id in m.objs && RootKind(m.objs[id])) || (id == uv && uv in m'.objs))
      && (id in m'.objs && m'.objs[id].Udata? <==> id in m.objs && m.objs[id].Udata?)
      && (id in m'.objs && IsOpen(m'.objs[id]) <==> id in m.objs && IsOpen(m.objs[id]) && id != uv)
  }

  lemma DetachedSorts(g: G, g': G, th: Id, uv: Id)
    requires OpenOn(g.m, uv, th) && th in g.m.objs && g.m.objs[th].Thread? && Detached(g, g', th, uv)
    ensures SortsMove(g.m, g'.m, uv)
  {
    hide OpenList;
  }

  lemma DetachedRoots(g: G, g': G, uv: Id, gone: set<Id>)
    requires RootsOk(g, gone) && UdataOk(g, gone) && SortsMove(g.m, g'.m, uv) && uv !in gone && uv in g.m.objs
             && !RootKind(g.m.objs[uv])
    requires g'.udata == g.udata && g'.tmudata == g.tmudata && g'.rootgc == if uv in g'.m.objs then [uv] + g.rootgc
             else g.rootgc
    ensures RootsOk(g', gone) && UdataOk(g', gone)
  {
    hide RootKind, IsOpen;
    forall id
      ensures multiset(g'.rootgc)[id] == if id in g'.m.objs && RootKind(g'.m.objs[id]) && id !in gone then 1 else 0
    {
      assert multiset([uv] + g.rootgc)[id] == multiset(g.rootgc)[id] + if id == uv then 1 else 0;
    }
  }

  lemma DetachedHead(g: G, g': G, uv: Id)
    requires OpenOk(g) && SortsMove(g.m, g'.m, uv) && g'.uvhead == Without(g.uvhead, uv)
    ensures OpenOk(g')
  {
    hide RootKind, IsOpen, Without;
    forall id ensures multiset(g'.uvhead)[id] == if id in g'.m.objs && IsOpen(g'.m.objs[id]) then 1 else 0 {
      WithoutCount(g.uvhead, uv, id);
    }
  }

  lemma DetachedLists(g: G, g': G, th: Id, uv: Id, gone: set<Id>)
    requires RootsOk(g, gone) && UdataOk(g, gone) && OpenOk(g) && OpenOn(g.m, uv, th) && th in g.m.objs
             && g.m.objs[th].Thread?
    requires Detached(g, g', th, uv) && uv !in gone
    ensures RootsOk(g', gone) && UdataOk(g', gone) && OpenOk(g')
  {
    DetachedSorts(g, g', th, uv);
    hide RootsOk, UdataOk, OpenOk, SortsMove, OpenList, Without;
    DetachedRoots(g, g', uv, gone);
    DetachedHead(g, g', uv);
  }

  lemma DetachedStrings(g: G, g': G, th: Id, uv: Id)
    requires StringsOk(g) && Interned(g.m) && OpenOn(g.m, uv, th) && th in g.m.objs && g.m.objs[th].Thread?
    requires Detached(g, g', th, uv)
    ensures StringsOk(g') && Interned(g'.m) && StringIds(g'.m) == StringIds(g.m)
  {
    forall b, id | 0 <= b < |g'.strt| ensures multiset(g'.strt[b])[id] == if InStringList(g', id, b) then 1 else 0 {
      assert InStringList(g', id, b) == InStringList(g, id, b);
    }
  }

  lemma DetachedThread(g: G, g': G, th: Id, uv: Id, t: Id)
    requires OpenListOk(g.m, t) && OpenOn(g.m, uv, th) && Detached(g, g', th, uv) && t in g.m.objs
             && g.m.objs[t].Thread? && t != uv
    requires th in g.m.objs && g.m.objs[th].Thread?
    ensures OpenListOk(g'.m, t)
  {
    var l := OpenList(g.m, t);
    DetachedDescending(g, g', th, uv, t);
    forall id ensures OpenOn(g'.m, id, t) == (OpenOn(g.m, id, t) && id != uv) { }
    assert OpenList(g'.m, t) == if t == th then l[1..] else l;
    assert t == th ==> l == [uv] + l[1..];
    hide Detached, OpenList, Descending;
    forall id ensures multiset(OpenList(g'.m, t))[id] == if OpenOn(g'.m, id, t) then 1 else 0 {
      assert multiset(l)[id] == if OpenOn(g.m, id, t) then 1 else 0;
    }
  }

  lemma DetachedThreads(g: G, g': G, th: Id, uv: Id)
    requires ThreadsOk(g.m) && HomesOk(g.m) && OpenOn(g.m, uv, th) && Detached(g, g', th, uv)
    ensures ThreadsOk(g'.m) && HomesOk(g'.m)
  {
    FirstIsOpen(g.m, th);
    forall t | t in g'.m.objs && g'.m.objs[t].Thread? ensures OpenListOk(g'.m, t) {
      assert t in g.m.objs && g.m.objs[t].Thread? && OpenListOk(g.m, t);
      DetachedThread(g, g', th, uv, t);
    }
    forall id ensures HomeOk(g'.m, id) { assert HomeOk(g.m, id); }
  }

  lemma DetachedDescending(g: G, g': G, th: Id, uv: Id, t: Id)
    requires Descending(g.m, OpenList(g.m, t)) && Detached(g, g', th, uv)
    requires t in g.m.objs && g.m.objs[t].Thread? && th in g.m.objs && g.m.objs[th].Thread? && t != uv
    ensures Descending(g'.m, OpenList(g'.m, t))
  {
    var l, l' := OpenList(g.m, t), OpenList(g'.m, t);
    var k := if t == th then 1 else 0;
    assert l' == l[k..];
    forall i, j | 0 <= i < j < |l'| && AtOrAbove(g'.m, l'[i], 0) && AtOrAbove(g'.m, l'[j], 0)
      ensures g'.m.objs[l'[i]].home.level > g'.m.objs[l'[j]].home.level
    {
      assert l'[i] == l[i + k] && l'[j] == l[j + k];
      assert AtOrAbove(g.m, l[i + k], 0) && AtOrAbove(g.m, l[j + k], 0);
    }
  }

  lemma DetachedFixed(g: G, g': G, th: Id, uv: Id)
    requires FixedOk(g) && OpenOn(g.m, uv, th) && Detached(g, g', th, uv) && g'.m.marks.Keys <= g.m.marks.Keys
    requires th in g.m.objs && g.m.objs[th].Thread?
    requires forall id :: id in g'.m.marks ==> g'.m.marks[id].fixed == g.m.marks[id].fixed
    requires g.main in g'.m.marks
    requires uv in g'.m.marks ==> !g.m.marks[uv].fixed
    ensures FixedOk(g')
  {
  }

  lemma DetachedStruct(g: G, g': G, th: Id, uv: Id, gone: set<Id>)
    requires StructBut(g, gone) && OpenOn(g.m, uv, th) && Detached(g, g', th, uv) && uv !in gone && FixedOk(g')
    ensures StructBut(g', gone)
  {
    FirstIsOpen(g.m, th);
    hide RootsOk, UdataOk, OpenOk, StringsOk, Interned, ThreadsOk, HomesOk, FixedOk, Detached;
    DetachedLists(g, g', th, uv, gone);
    DetachedStrings(g, g', th, uv);
    DetachedThreads(g, g', th, uv);
    DetachedSame(g, g', th, uv);
  }

  lemma DetachedSame(g: G, g': G, th: Id, uv: Id)
    requires Detached(g, g', th, uv)
    ensures g'.nuse == g.nuse && RootVals(g') == RootVals(g) && g'.tmudata == g.tmudata && g'.phase == g.phase
    ensures g'.udata == g.udata && g'.strt == g.strt && g'.hash == g.hash && g'.sweepstr == g.sweepstr
  {
  }

  // ---------------------------------------------------------------- when nothing is being marked

  /** `CloseFirst` outside the mark phase. */
  function CloseFirstIs(g: G, th: Id): G
    requires OpenList(g.m, th) != []
  {
    var uv := OpenList(g.m, th)[0];
    var m := SetOpen(g.m, th, OpenList(g.m, th)[1..]);
    if IsDead(g.m, uv) then g.(m := Delete(m, uv), uvhead := Without(g.uvhead, uv))
    else
      var m1 := SetObj(m, uv, Upval(Closed(UpvalVal(g.m, uv))));
      Link(g, uv).(m := if IsGray(g.m, uv) then SetColour(m1, uv, White(g.m.cw))
        else m1, uvhead := Without(g.uvhead, uv))
  }

  lemma CloseFirstUnfolds(g: G, th: Id)
    requires ThreadsOk(g.m) && HomesOk(g.m) && OpenList(g.m, th) != [] && g.phase != Propagating
    ensures CloseFirst(g, th) == CloseFirstIs(g, th)
  {
    FirstIsOpen(g.m, th);
  }

  lemma CloseFirstDetaches(g: G, th: Id)
    requires ThreadsOk(g.m) && HomesOk(g.m) && OpenList(g.m, th) != []
    ensures Detached(g, CloseFirstIs(g, th), th, OpenList(g.m, th)[0])
  {
    FirstIsOpen(g.m, th);
  }

  /** Which marks the step changes: none but that of a gray upvalue. */
  lemma CloseFirstMarks(g: G, th: Id)
    requires ThreadsOk(g.m) && HomesOk(g.m) && KindsOk(g.m) && OpenList(g.m, th) != []
    ensures var m', uv := CloseFirstIs(g, th).m, OpenList(g.m, th)[0];
      && m' == g.m.(objs := m'.objs, marks := m'.marks) && m'.marks.Keys == m'.objs.Keys
      && (uv in m'.marks <==> !IsDead(g.m, uv))
      && (forall id :: id != uv ==> (id in m'.marks <==> id in g.m.marks))
      && (forall id :: id in m'.marks && id != uv ==> m'.marks[id] == g.m.marks[id])
      && (uv in m'.marks ==>
            m'.marks[uv] == if IsGray(g.m, uv) then g.m.marks[uv].(colour := White(g.m.cw)) else g.m.marks[uv])
  {
    FirstIsOpen(g.m, th);
  }

  lemma FirstNotBlack(m: Marking, th: Id)
    requires ThreadsOk(m) && HomesOk(m) && KindsOk(m) && OpenList(m, th) != []
    ensures var uv := OpenList(m, th)[0]; uv in m.marks && !IsBlack(m, uv) && uv in m.objs && IsOpen(m.objs[uv])
  {
    FirstIsOpen(m, th);
    var uv := OpenList(m, th)[0];
    assert KindOk(m.objs[uv], m.marks[uv].colour);
  }

  lemma CloseFirstPurges(g: G, th: Id)
    requires ThreadsOk(g.m) && HomesOk(g.m) && KindsOk(g.m) && OpenList(g.m, th) != []
    ensures Purged(g.m, CloseFirstIs(g, th).m)
  {
    CloseFirstMarks(g, th);
    CloseFirstDetaches(g, th);
    FirstNotBlack(g.m, th);
    hide CloseFirstIs, Detached, FieldsAt, Fields, OpenList, ThreadsOk, HomesOk, KindsOk;
    var m, m' := g.m, CloseFirstIs(g, th).m;
    forall id | id in m'.objs ensures KeptAt(m, m', id) { CloseFirstFields(g, th, id); }
    forall id | id in m'.marks ensures PurgedAt(m, m', id) { }
  }

  lemma CloseFirstFields(g: G, th: Id, id: Id)
    requires ThreadsOk(g.m) && HomesOk(g.m) && OpenList(g.m, th) != [] && id in CloseFirstIs(g, th).m.objs
    ensures id in g.m.objs && KeptAt(g.m, CloseFirstIs(g, th).m, id)
  {
    CloseFirstDetaches(g, th);
    FirstIsOpen(g.m, th);
    assert HomeOk(g.m, id);
    hide CloseFirstIs;
  }

  /** Outside the mark phase a closed upvalue has the current white. */
  lemma ClosedIsClean(g: G, th: Id)
    requires ThreadsOk(g.m) && HomesOk(g.m) && KindsOk(g.m) && OpenList(g.m, th) != [] && FixedOk(g)
    ensures var uv := OpenList(g.m, th)[0]; uv in CloseFirstIs(g, th).m.objs ==> Clean(CloseFirstIs(g, th).m, uv)
    ensures OpenList(g.m, th)[0] in g.m.marks && !g.m.marks[OpenList(g.m, th)[0]].fixed
            && OpenList(g.m, th)[0] != g.main
  {
    FirstNotBlack(g.m, th);
    CloseFirstMarks(g, th);
    hide CloseFirstIs, OpenList;
  }

  lemma StillPassed(g: G, uv: Id, x: Id)
    requires x != uv && g.swept <= |RootList(g)| && Passed(Link(g, uv), x)
    ensures Passed(g, x)
  {
    if g.phase == Sweep {
      assert g.swept > 0;
      assert RootList(Link(g, uv)) == [uv] + RootList(g);
      assert ([uv] + RootList(g))[..g.swept + 1] == [uv] + RootList(g)[..g.swept];
    }
  }

  lemma PassedFrame(g: G, g': G, x: Id)
    requires g'.phase == g.phase && g'.rootgc == g.rootgc && g'.udata == g.udata && g'.swept == g.swept
    ensures Passed(g', x) == Passed(g, x)
  {
  }

  lemma CloseFirstSwept(g: G, th: Id, id: Id)
    requires ThreadsOk(g.m) && HomesOk(g.m) && KindsOk(g.m) && OpenList(g.m, th) != [] && SweptOk(g)
             && g.swept <= |RootList(g)|
    requires id in CloseFirstIs(g, th).m.objs && id != OpenList(g.m, th)[0] && SweptId(CloseFirstIs(g, th), id)
    ensures Clean(CloseFirstIs(g, th).m, id)
  {
    var g', uv := CloseFirstIs(g, th), OpenList(g.m, th)[0];
    FirstIsOpen(g.m, th);
    assert HomeOk(g.m, id);
    forall x | x != uv && Passed(g', x) ensures Passed(g, x) {
      if IsDead(g.m, uv) { PassedFrame(g, g', x); } else { PassedFrame(Link(g, uv), g', x); StillPassed(g, uv, x); }
    }
    assert SweptId(g, id);
  }

  lemma CloseFirstSwepts(g: G, th: Id, gone: set<Id>)
    requires gone <= {th} && StructBut(g, gone) && KindsOk(g.m) && OpenList(g.m, th) != [] && SweptOk(g)
             && g.swept <= |RootList(g)|
    ensures SweptOk(CloseFirstIs(g, th))
  {
    ClosedIsClean(g, th);
    forall id | id in CloseFirstIs(g, th).m.objs && SweptId(CloseFirstIs(g, th), id)
      ensures Clean(CloseFirstIs(g, th).m, id)
    {
      if id != OpenList(g.m, th)[0] { CloseFirstSwept(g, th, id); }
    }
  }

  lemma CloseFirstFixed(g: G, th: Id)
    requires ThreadsOk(g.m) && HomesOk(g.m) && KindsOk(g.m) && OpenList(g.m, th) != [] && FixedOk(g)
    ensures FixedOk(CloseFirstIs(g, th))
  {
    FirstIsOpen(g.m, th);
    ClosedIsClean(g, th);
    CloseFirstDetaches(g, th);
    CloseFirstMarks(g, th);
    hide CloseFirstIs, KindsOk, ThreadsOk, HomesOk, OpenList, Detached;
    DetachedFixed(g, CloseFirstIs(g, th), th, OpenList(g.m, th)[0]);
  }

  lemma CloseFirstStruct(g: G, th: Id, gone: set<Id>)
    requires gone <= {th} && StructBut(g, gone) && KindsOk(g.m) && OpenList(g.m, th) != []
    ensures StructBut(CloseFirstIs(g, th), gone)
  {
    StructIs(g, gone);
    FirstIsOpen(g.m, th);
    CloseFirstDetaches(g, th);
    CloseFirstFixed(g, th);
    hide CloseFirstIs, KindsOk, StructBut, RootsOk, UdataOk, OpenOk, StringsOk, Interned, ThreadsOk, HomesOk, FixedOk,
      OpenList, Detached;
    DetachedStruct(g, CloseFirstIs(g, th), th, OpenList(g.m, th)[0], gone);
  }

  /** The invariant outside the mark phase, while a thread may be being freed. */
  ghost predicate RestInv(g: G, gone: set<Id>) {
    StructBut(g, gone) && KindsOk(g.m) && AliveClosed(g.m) && RootsAlive(g) && SweptOk(g) && g.swept <= |RootList(g)|
      && g.phase != Propagating
  }

  lemma CloseFirstRest(g: G, th: Id, gone: set<Id>)
    requires gone <= {th} && RestInv(g, gone) && OpenList(g.m, th) != []
    ensures var g' := CloseFirst(g, th);
            && RestInv(g', gone) && Purged(g.m, g'.m) && OpenList(g'.m, th) == OpenList(g.m, th)[1..]
            && |RootList(g')| - g'.swept <= |RootList(g)| - g.swept + if g.swept == 0 then 1 else 0
  {
    hide SweptOk, KindsOk, AliveClosed, RootsAlive, RootsOk, UdataOk, OpenOk, StringsOk, Interned, FixedOk, ThreadsOk,
      HomesOk, Purged, CloseFirst, CloseFirstIs, Detached;
    var g' := CloseFirst(g, th);
    CloseFirstUnfolds(g, th);
    CloseFirstPurges(g, th);
    CloseFirstDetaches(g, th);
    DetachedSame(g, g', th, OpenList(g.m, th)[0]);
    CloseFirstStruct(g, th, gone);
    CloseFirstSwepts(g, th, gone);
    PurgedClosed(g.m, g'.m);
    PurgedKinds(g.m, g'.m);
    PurgedRoots(g, g');
    CloseFirstList(g, th);
  }

  lemma CloseFirstList(g: G, th: Id)
    requires ThreadsOk(g.m) && HomesOk(g.m) && OpenList(g.m, th) != []
    ensures var g' := CloseFirstIs(g, th);
            && OpenList(g'.m, th) == OpenList(g.m, th)[1..]
            && (g.swept <= |RootList(g)| ==> g'.swept <= |RootList(g')|)
            && |RootList(g')| - g'.swept <= |RootList(g)| - g.swept + if g.swept == 0 then 1 else 0
  {
    FirstIsOpen(g.m, th);
  }

  /** `luaF_close` outside the mark phase. */
  lemma {:induction false} CloseRest(g: G, th: Id, level: nat, n: nat, gone: set<Id>)
    requires gone <= {th} && RestInv(g, gone) && n >= |OpenList(g.m, th)|
    ensures var g' := Close(g, th, level, n);
            && RestInv(g', gone) && Purged(g.m, g'.m)
            && (OpenList(g'.m, th) != [] ==> !AtOrAbove(g'.m, OpenList(g'.m, th)[0], level))
    decreases n
  {
    hide RestInv, Purged, CloseFirst;
    var l := OpenList(g.m, th);
    if n == 0 || l == [] || !AtOrAbove(g.m, l[0], level) {
      RestKeys(g, gone);
      PurgedSelf(g.m);
    } else {
      CloseFirstRest(g, th, gone);
      CloseRest(CloseFirst(g, th), th, level, n - 1, gone);
      PurgedTwice(g.m, CloseFirst(g, th).m, Close(g, th, level, n).m);
    }
  }

  lemma RestKeys(g: G, gone: set<Id>)
    requires RestInv(g, gone)
    ensures g.m.marks.Keys == g.m.objs.Keys
  {
  }
}
