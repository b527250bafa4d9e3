/** Sweeping the root list (lua/lgc.c:407-428): a thread's open upvalues are swept with it, and a dead thread
    closes the ones that are left. */
module GcSweepRoot {
  import opened GcHeap
  import opened GcMark
  import opened GcCollector
  import opened GcState
  import opened GcSweep
  import opened GcClose

  // ---------------------------------------------------------------- the open upvalues of a thread

  lemma {:induction false} WithoutAllCount(l: seq<Id>, ids: seq<Id>, x: Id)
    requires multiset(ids)[x] <= multiset(l)[x] <= 1
    ensures multiset(WithoutAll(l, ids))[x] == multiset(l)[x] - multiset(ids)[x]
    decreases |ids|
  {
    if ids != [] {
      assert ids == [ids[0]] + ids[1..];
      WithoutCount(l, ids[0], x);
      WithoutAllCount(Without(l, ids[0]), ids[1..], x);
    }
  }

  lemma {:induction false} DeadCount(m: Marking, l: seq<Id>, x: Id)
    ensures multiset(DeadOnes(m, l))[x] == if IsDead(m, x) then multiset(l)[x] else 0
    decreases |l|
  {
    if l != [] {
      DeadCount(m, l[1..], x);
      assert l == [l[0]] + l[1..];
    }
  }

  lemma OpenListIs(m: Marking, th: Id)
    requires ThreadsOk(m)
    ensures forall id ::
              multiset(OpenList(m, th))[id] == if th in m.objs && m.objs[th].Thread? && OpenOn(m, id, th) then 1 else 0
    ensures forall id :: id in OpenList(m, th) ==> OpenOn(m, id, th) && Small(m, id)
  {
    if th in m.objs && m.objs[th].Thread? { assert OpenListOk(m, th); }
    forall id | id in OpenList(m, th) ensures OpenOn(m, id, th) { assert multiset(OpenList(m, th))[id] > 0; }
  }

  lemma {:induction false} SurvivorsDescend(m: Marking, l: seq<Id>)
    requires Descending(m, l)
    ensures Descending(m, Survivors(m, l))
    decreases |l|
  {
    if l != [] {
      var r, r1 := Survivors(m, l), Survivors(m, l[1..]);
      SurvivorsDescend(m, l[1..]);
      forall i, j | 0 <= i < j < |r| && AtOrAbove(m, r[i], 0) && AtOrAbove(m, r[j], 0)
        ensures m.objs[r[i]].home.level > m.objs[r[j]].home.level
      {
        if !IsDead(m, l[0]) {
          assert r == [l[0]] + r1;
          if i == 0 {
            var k := SurvivorsIn(m, l[1..], j - 1);
            assert l[k + 1] == r[j];
          }
        }
      }
    }
  }

  /** The heap after `SweepOpen`: dead upvalues of the thread are gone, the others are clean. */
  ghost predicate OpenSwept(m: Marking, m': Marking, th: Id) {
    && m'.marks.Keys == m'.objs.Keys && m'.cw == m.cw && th in m.objs && m.objs[th].Thread? && th in m'.objs
    && (forall id :: id in m'.objs <==> id in m.objs && !(OpenOn(m, id, th) && IsDead(m, id)))
    && (forall id :: id in m'.objs && id != th ==> m'.objs[id] == m.objs[id])
    && m'.objs[th] == m.objs[th].(open := Survivors(m, OpenList(m, th)))
    && (forall id :: id in m'.marks && !OpenOn(m, id, th) ==> id in m.marks && m'.marks[id] == m.marks[id])
    && (forall id :: id in m'.marks && OpenOn(m, id, th) ==> Clean(m', id))
  }

  /** The same with the thread's list left as it was. */
  ghost predicate OpensGone(m: Marking, m': Marking, th: Id) {
    && m'.marks.Keys == m'.objs.Keys && m'.cw == m.cw
    && (forall id :: id in m'.objs <==> id in m.objs && !(OpenOn(m, id, th) && IsDead(m, id)))
    && (forall id :: id in m'.objs ==> m'.objs[id] == m.objs[id])
    && (forall id :: id in m'.marks && !OpenOn(m, id, th) ==> id in m.marks && m'.marks[id] == m.marks[id])
    && (forall id :: id in m'.marks && OpenOn(m, id, th) ==> Clean(m', id))
  }

  lemma ListIsGone(m: Marking, m': Marking, th: Id)
    requires ThreadsOk(m) && m.marks.Keys == m.objs.Keys && th in m.objs && m.objs[th].Thread?
    requires SweptList(m, m', OpenList(m, th))
    ensures OpensGone(m, m', th)
  {
    var l := OpenList(m, th);
    assert OpenListOk(m, th);
    hide OpenList, ThreadsOk;
    forall id ensures id in l <==> OpenOn(m, id, th) { assert multiset(l)[id] == if OpenOn(m, id, th) then 1 else 0; }
    hide OpenOn, OpenListOk;
  }

  lemma GoneIsSwept(m: Marking, m1: Marking, th: Id, l: seq<Id>)
    requires OpensGone(m, m1, th) && th in m.objs && m.objs[th].Thread? && m.marks.Keys == m.objs.Keys
             && l == Survivors(m, OpenList(m, th))
    ensures OpenSwept(m, SetOpen(m1, th, l), th)
  {
    hide Survivors, OpenList;
  }

  lemma SweepOpenSwept(g: G, th: Id)
    requires ThreadsOk(g.m) && g.m.marks.Keys == g.m.objs.Keys && th in g.m.objs && g.m.objs[th].Thread?
    ensures OpenSwept(g.m, SweepOpen(g, th).m, th)
  {
    var l := OpenList(g.m, th);
    OpenListIs(g.m, th);
    hide SweepObjs, Survivors, Purged, ThreadsOk, SweptList, OpenSwept, OpensGone;
    SweepObjsPurges(g.m, l);
    ListIsGone(g.m, SweepObjs(g.m, l), th);
    GoneIsSwept(g.m, SweepObjs(g.m, l), th, Survivors(g.m, l));
  }

  lemma OpenSweptOn(m: Marking, m': Marking, th: Id, t: Id)
    requires OpenSwept(m, m', th) && t in m'.objs && m'.objs[t].Thread?
    ensures OpenList(m', t) == if t == th then Survivors(m, OpenList(m, th)) else OpenList(m, t)
    ensures forall id :: OpenOn(m', id, t) == (OpenOn(m, id, t) && !(t == th && IsDead(m, id)))
  {
    hide Survivors, IsDead;
  }

  lemma OpenSweptThread(m: Marking, m': Marking, th: Id, t: Id)
    requires OpenListOk(m, t) && OpenListOk(m, th) && OpenSwept(m, m', th) && t in m'.objs && m'.objs[t].Thread?
    ensures OpenListOk(m', t)
  {
    OpenSweptOn(m, m', th, t);
    forall id ensures multiset(OpenList(m', t))[id] == if OpenOn(m', id, t) then 1 else 0 {
      SurvivorsCount(m, OpenList(m, th), id);
      assert multiset(OpenList(m, t))[id] == if OpenOn(m, id, t) then 1 else 0;
    }
    OpenSweptDescends(m, m', th, t);
  }

  lemma OpenSweptDescends(m: Marking, m': Marking, th: Id, t: Id)
    requires Descending(m, OpenList(m, t)) && Descending(m, OpenList(m, th)) && OpenSwept(m, m', th) && t in m'.objs
             && m'.objs[t].Thread?
    ensures Descending(m', OpenList(m', t))
  {
    OpenSweptOn(m, m', th, t);
    hide Survivors;
    if t == th { SurvivorsDescend(m, OpenList(m, th)); }
    KeepsDescending(m, m', OpenList(m', t));
  }

  lemma OpenSweptThreads(m: Marking, m': Marking, th: Id)
    requires ThreadsOk(m) && HomesOk(m) && OpenSwept(m, m', th)
    ensures ThreadsOk(m') && HomesOk(m')
  {
    assert OpenListOk(m, th);
    forall t | t in m'.objs && m'.objs[t].Thread? ensures OpenListOk(m', t) {
      assert OpenListOk(m, t);
      OpenSweptThread(m, m', th, t);
    }
    forall id ensures HomeOk(m', id) { assert HomeOk(m, id); }
  }

  lemma KeepsDescending(m: Marking, m': Marking, l: seq<Id>)
    requires Descending(m, l)
    requires forall id :: id in m'.objs && IsOpen(m'.objs[id]) ==> id in m.objs && m.objs[id] == m'.objs[id]
    ensures Descending(m', l)
  {
    forall i, j | 0 <= i < j < |l| && AtOrAbove(m', l[i], 0) && AtOrAbove(m', l[j], 0)
      ensures m'.objs[l[i]].home.level > m'.objs[l[j]].home.level
    {
      assert AtOrAbove(m, l[i], 0) && AtOrAbove(m, l[j], 0);
    }
  }

  lemma OpenSweptLists(g: G, g': G, th: Id)
    requires RootsOk(g, {}) && UdataOk(g, {}) && OpenSwept(g.m, g'.m, th)
    requires g'.rootgc == g.rootgc && g'.udata == g.udata && g'.tmudata == g.tmudata
    ensures RootsOk(g', {}) && UdataOk(g', {})
  {
    forall id ensures (id in g'.m.objs && RootKind(g'.m.objs[id])) == (id in g.m.objs && RootKind(g.m.objs[id]))
              ensures (id in g'.m.objs && g'.m.objs[id].Udata?) == (id in g.m.objs && g.m.objs[id].Udata?)
    {
      KindStays(g.m, g'.m, th, id);
    }
    hide OpenSwept, RootKind;
  }

  lemma KindStays(m: Marking, m': Marking, th: Id, id: Id)
    requires OpenSwept(m, m', th)
    ensures (id in m'.objs && RootKind(m'.objs[id])) == (id in m.objs && RootKind(m.objs[id]))
    ensures (id in m'.objs && m'.objs[id].Udata?) == (id in m.objs && m.objs[id].Udata?)
  {
    hide OpenList, Survivors, IsDead;
  }

  lemma OpenSweptHead(g: G, g': G, th: Id)
    requires OpenOk(g) && OpenListOk(g.m, th) && OpenSwept(g.m, g'.m, th)
    requires g'.uvhead == WithoutAll(g.uvhead, DeadOnes(g.m, OpenList(g.m, th)))
    ensures OpenOk(g')
  {
    var l := OpenList(g.m, th);
    forall id ensures multiset(g'.uvhead)[id] == if id in g'.m.objs && IsOpen(g'.m.objs[id]) then 1 else 0 {
      DeadCount(g.m, l, id);
      assert multiset(l)[id] == if OpenOn(g.m, id, th) then 1 else 0;
      hide OpenList, Survivors, WithoutAll, DeadOnes;
      WithoutAllCount(g.uvhead, DeadOnes(g.m, l), id);
    }
  }

  lemma OpenSweptStrings(g: G, g': G, th: Id)
    requires StringsOk(g) && Interned(g.m) && OpenSwept(g.m, g'.m, th) && g'.strt == g.strt && g'.hash == g.hash
    ensures StringsOk(g') && Interned(g'.m) && StringIds(g'.m) == StringIds(g.m)
  {
    hide OpenList, Survivors;
    forall b, id | 0 <= b < |g'.strt| ensures multiset(g'.strt[b])[id] == if InStringList(g', id, b) then 1 else 0 {
      assert InStringList(g', id, b) == InStringList(g, id, b);
    }
  }

  lemma SetOpenPurges(m: Marking, th: Id, l: seq<Id>)
    requires m.marks.Keys == m.objs.Keys
    ensures Purged(m, SetOpen(m, th, l))
  {
    var m' := SetOpen(m, th, l);
    forall id | id in m'.objs ensures KeptAt(m, m', id) { }
    forall id | id in m'.marks ensures PurgedAt(m, m', id) { }
  }

  lemma SweepOpenIs(g: G, th: Id)
    requires ThreadsOk(g.m) && g.m.marks.Keys == g.m.objs.Keys
    ensures var g' := SweepOpen(g, th);
            && Purged(g.m, g'.m)
            && g' == g.(m := g'.m, uvhead := WithoutAll(g.uvhead, DeadOnes(g.m, OpenList(g.m, th))))
  {
    var l := OpenList(g.m, th);
    OpenListIs(g.m, th);
    hide SweepObjs, Survivors, SweptList;
    SweepObjsPurges(g.m, l);
    PurgedIs(g.m, SweepObjs(g.m, l));
    SetOpenPurges(SweepObjs(g.m, l), th, Survivors(g.m, l));
    PurgedTwice(g.m, SweepObjs(g.m, l), SweepOpen(g, th).m);
  }

  lemma SweepOpenOwners(g: G, g': G, th: Id)
    requires Struct(g) && OpenSwept(g.m, g'.m, th)
    requires g' == g.(m := g'.m, uvhead := WithoutAll(g.uvhead, DeadOnes(g.m, OpenList(g.m, th))))
    ensures RootsOk(g', {}) && UdataOk(g', {}) && OpenOk(g') && ThreadsOk(g'.m) && HomesOk(g'.m)
  {
    StructIs(g, {});
    assert OpenListOk(g.m, th);
    hide Struct, StructBut, RootsOk, UdataOk, OpenOk, ThreadsOk, HomesOk, OpenSwept, OpenListOk, OpenList, WithoutAll,
      DeadOnes;
    OpenSweptThreads(g.m, g'.m, th);
    OpenSweptLists(g, g', th);
    OpenSweptHead(g, g', th);
  }

  lemma SweepOpenStruct(g: G, th: Id)
    requires Struct(g) && RootsAlive(g) && g.m.marks.Keys == g.m.objs.Keys && th in g.m.objs && g.m.objs[th].Thread?
    ensures Struct(SweepOpen(g, th))
  {
    var g' := SweepOpen(g, th);
    StructIs(g, {});
    SweepOpenIs(g, th);
    SweepOpenSwept(g, th);
    SweepOpenFixed(g, th);
    hide SweepOpen, RootsOk, UdataOk, OpenOk, StringsOk, Interned, ThreadsOk, HomesOk, FixedOk, Purged, OpenSwept,
      RootsAlive, OpenList, WithoutAll, DeadOnes, StringIds;
    SweepOpenOwners(g, g', th);
    OpenSweptStrings(g, g', th);
    StructMade(g', {});
  }

  lemma SweepOpenFixed(g: G, th: Id)
    requires FixedOk(g) && RootsAlive(g) && ThreadsOk(g.m) && g.m.marks.Keys == g.m.objs.Keys
    ensures FixedOk(SweepOpen(g, th))
  {
    SweepOpenIs(g, th);
    hide Purged, RootsAlive, ThreadsOk;
    PurgedFixed(g, SweepOpen(g, th));
  }

  /** The thread's upvalues are clean. */
  ghost predicate OpensClean(m: Marking, th: Id) { forall id :: OpenOn(m, id, th) ==> Clean(m, id) }

  lemma OpenSweptClean(g: G, g': G, th: Id)
    requires SweptOk(g) && OpenSwept(g.m, g'.m, th) && g' == g.(m := g'.m, uvhead := g'.uvhead)
    ensures SweptOk(g') && OpensClean(g'.m, th)
  {
    hide Passed, OpenList, Survivors;
    forall x ensures Passed(g', x) == Passed(g, x) { PassedFrame(g, g', x); }
    forall id | id in g'.m.objs && SweptId(g', id) ensures Clean(g'.m, id) {
      if !OpenOn(g.m, id, th) { assert SweptId(g, id); }
    }
  }

  lemma SweepOpenNothing(g: G, th: Id)
    requires HomesOk(g.m) && th in g.m.objs && !g.m.objs[th].Thread?
    ensures SweepOpen(g, th) == g && OpensClean(g.m, th)
  {
    forall id ensures !OpenOn(g.m, id, th) { assert HomeOk(g.m, id); }
  }

  lemma SweepOpenRest(g: G, th: Id)
    requires RestInv(g, {}) && th in g.m.objs
    ensures var g' := SweepOpen(g, th);
            && RestInv(g', {}) && Purged(g.m, g'.m) && OpensClean(g'.m, th)
            && g' == g.(m := g'.m, uvhead := g'.uvhead)
  {
    var g' := SweepOpen(g, th);
    RestKeys(g, {});
    if g.m.objs[th].Thread? {
      SweepOpenIs(g, th);
      SweepOpenSwept(g, th);
      SweepOpenStruct(g, th);
      hide SweepOpen, StructBut, Purged, OpenSwept, KindsOk, AliveClosed, RootsAlive, SweptOk, OpensClean;
      OpenSweptClean(g, g', th);
      PurgedClosed(g.m, g'.m);
      PurgedKinds(g.m, g'.m);
      PurgedRoots(g, g');
    } else {
      SweepOpenNothing(g, th);
      PurgedSelf(g.m);
    }
  }
}
