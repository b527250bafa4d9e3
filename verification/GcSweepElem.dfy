/** One element of the root list, and the whole sweep (lua/lgc.c:407-428, 432-444, 448-470, 580-607). */
module GcSweepElem {
  import opened GcHeap
  import opened GcMark
  import opened GcCollector
  import opened GcState
  import opened GcSweep
  import opened GcClose
  import opened GcSweepRoot

  // ---------------------------------------------------------------- an element that stays

  /** The element becomes white and the position moves past it. */
  function Passing(g: G): G
    requires g.swept < |RootList(g)|
  {
    g.(m := SetColour(g.m, RootList(g)[g.swept], White(g.m.cw)), swept := g.swept + 1)
  }

  lemma WhitenPurges(m: Marking, id: Id)
    requires m.marks.Keys == m.objs.Keys && !IsDead(m, id)
    ensures Purged(m, SetColour(m, id, White(m.cw)))
  {
    var m' := SetColour(m, id, White(m.cw));
    forall j | j in m'.objs ensures KeptAt(m, m', j) { }
    forall j | j in m'.marks ensures PurgedAt(m, m', j) { }
  }

  lemma WhitenReshapes(m: Marking, id: Id, w: bool)
    requires HomesOk(m)
    ensures Reshaped(m, SetColour(m, id, White(w))) && HomesOk(SetColour(m, id, White(w)))
  {
    forall j ensures HomeOk(SetColour(m, id, White(w)), j) { assert HomeOk(m, j); }
  }

  lemma CurIsThread(g: G)
    requires FixedOk(g)
    ensures g.cur in g.m.objs && g.m.objs[g.cur].Thread?
  {
  }

  lemma WhitenStruct(g: G, id: Id, w: bool)
    requires Struct(g)
    ensures Struct(g.(m := SetColour(g.m, id, White(w))))
  {
    StructIs(g, {});
    CurIsThread(g);
    WhitenReshapes(g.m, id, w);
    hide StructBut, RootsOk, UdataOk, StringsOk, OpenOk, ThreadsOk, HomesOk, Interned, FixedOk, Reshaped, SetColour,
      StringIds;
    ReshapedStruct(g, g.(m := SetColour(g.m, id, White(w))), {});
  }

  lemma PassingPassed(g: G, x: Id)
    requires g.phase == Sweep && g.swept < |RootList(g)| && Passed(Passing(g), x)
    ensures x == RootList(g)[g.swept] || Passed(g, x)
  {
    var g' := Passing(g);
    assert RootList(g') == RootList(g);
    assert RootList(g)[..g.swept + 1] == RootList(g)[..g.swept] + [RootList(g)[g.swept]];
  }

  lemma PassingSwept(g: G)
    requires g.phase == Sweep && g.swept < |RootList(g)| && SweptOk(g) && HomesOk(g.m)
             && g.m.marks.Keys == g.m.objs.Keys
    requires OpensClean(g.m, RootList(g)[g.swept])
    ensures SweptOk(Passing(g))
  {
    var g', x := Passing(g), RootList(g)[g.swept];
    hide Passed, RootList;
    forall j | Passed(g', j) ensures j == x || Passed(g, j) { PassingPassed(g, j); }
    forall id | id in g'.m.objs && SweptId(g', id) ensures Clean(g'.m, id) {
      if id != x {
        if OpenOn(g.m, id, x) { assert Clean(g.m, id); } else { assert SweptId(g, id); }
      }
    }
  }

  lemma PassingRest(g: G)
    requires RestInv(g, {}) && g.phase == Sweep && g.swept < |RootList(g)|
    requires OpensClean(g.m, RootList(g)[g.swept]) && !IsDead(g.m, RootList(g)[g.swept])
    ensures RestInv(Passing(g), {}) && Purged(g.m, Passing(g).m)
  {
    var g', id := Passing(g), RootList(g)[g.swept];
    RestKeys(g, {});
    StructIs(g, {});
    hide StructBut, AliveClosed, RootsAlive, KindsOk, Purged, SweptOk, OpensClean;
    PassingSwept(g);
    WhitenPurges(g.m, id);
    WhitenStruct(g, id, g.m.cw);
    SweptMoves(g.(m := g'.m), g');
    PurgedClosed(g.m, g'.m);
    PurgedKinds(g.m, g'.m);
    PurgedRoots(g, g');
  }

  /** The positions are not part of the structure. */
  lemma SweptMoves(g: G, g': G)
    requires Struct(g) && g' == g.(swept := g'.swept, sweepstr := g'.sweepstr, phase := g'.phase)
    ensures Struct(g')
  {
    StructIs(g, {});
    assert RootsOk(g', {}) && UdataOk(g', {}) && OpenOk(g') && FixedOk(g');
    hide RootsOk, UdataOk, OpenOk, Interned, ThreadsOk, HomesOk, FixedOk, StructBut;
    SameStrings(g, g');
    StructMade(g', {});
  }

  lemma SameStrings(g: G, g': G)
    requires StringsOk(g) && g'.m == g.m && g'.strt == g.strt && g'.hash == g.hash
    ensures StringsOk(g')
  {
    forall b, id | 0 <= b < |g'.strt| ensures multiset(g'.strt[b])[id] == if InStringList(g', id, b) then 1 else 0 {
      assert InStringList(g', id, b) == InStringList(g, id, b);
    }
  }

  // ---------------------------------------------------------------- an element that goes

  lemma CutCount(l: seq<Id>, k: nat, x: Id)
    requires k < |l|
    ensures multiset(l[..k] + l[k + 1..])[x] == multiset(l)[x] - if x == l[k] then 1 else 0
  {
    assert l == l[..k] + [l[k]] + l[k + 1..];
  }

  lemma CutLast(l: seq<Id>, k: nat)
    requires k < |l| && l[k] != l[|l| - 1]
    ensures var r := l[..k] + l[k + 1..]; r != [] && r[|r| - 1] == l[|l| - 1]
  {
  }

  lemma UnlinkRoots(g: G)
    requires g.swept < |g.rootgc|
    ensures var g', id := Unlink(g), g.rootgc[g.swept];
            && g'.udata == g.udata && |g'.rootgc| == |g.rootgc| - 1 && g'.rootgc[..g.swept] == g.rootgc[..g.swept]
            && (forall x :: multiset(g'.rootgc)[x] == multiset(g.rootgc)[x] - if x == id then 1 else 0)
            && (id != g.rootgc[|g.rootgc| - 1] ==>
                  g'.rootgc != [] && g'.rootgc[|g'.rootgc| - 1] == g.rootgc[|g.rootgc| - 1])
  {
    forall x
      ensures multiset(Unlink(g).rootgc)[x] == multiset(g.rootgc)[x] - if x == g.rootgc[g.swept] then 1 else 0
    {
      CutCount(g.rootgc, g.swept, x);
    }
    if g.rootgc[g.swept] != g.rootgc[|g.rootgc| - 1] { CutLast(g.rootgc, g.swept); }
  }

  lemma UnlinkUserdata(g: G)
    requires |g.rootgc| <= g.swept < |RootList(g)|
    ensures var g', k := Unlink(g), g.swept - |g.rootgc|;
            && g'.rootgc == g.rootgc && |g'.udata| == |g.udata| - 1 && g'.udata[..k] == g.udata[..k]
            && (forall x :: multiset(g'.udata)[x] == multiset(g.udata)[x] - if x == g.udata[k] then 1 else 0)
  {
    var k := g.swept - |g.rootgc|;
    var u' := g.udata[..k] + g.udata[k + 1..];
    assert Unlink(g) == g.(udata := u') && |u'| == |g.udata| - 1 && u'[..k] == g.udata[..k];
    hide Unlink, RootList;
    forall x
      ensures multiset(Unlink(g).udata)[x] == multiset(g.udata)[x] - if x == g.udata[k] then 1 else 0
    {
      CutCount(g.udata, k, x);
    }
  }

  lemma UnlinkIs(g: G)
    requires g.swept < |RootList(g)|
    ensures var g', id := Unlink(g), RootList(g)[g.swept];
            && (forall x ::
                  multiset(g'.rootgc)[x] == multiset(g.rootgc)[x] - if g.swept < |g.rootgc| && x == id then 1 else 0)
            && (forall x ::
                  multiset(g'.udata)[x] == multiset(g.udata)[x] - if g.swept >= |g.rootgc| && x == id then 1 else 0)
    ensures g.rootgc != [] && RootList(g)[g.swept] != g.rootgc[|g.rootgc| - 1] ==>
              Unlink(g).rootgc != [] && Unlink(g).rootgc[|Unlink(g).rootgc| - 1] == g.rootgc[|g.rootgc| - 1]
  {
    hide Unlink;
    if g.swept < |g.rootgc| { UnlinkRoots(g); } else { UnlinkUserdata(g); }
  }

  lemma UnlinkPrefix(g: G)
    requires g.swept < |RootList(g)|
    ensures RootList(Unlink(g))[..g.swept] == RootList(g)[..g.swept] && |RootList(Unlink(g))| == |RootList(g)| - 1
  {
    hide Unlink;
    if g.swept < |g.rootgc| { UnlinkRoots(g); } else { UnlinkUserdata(g); }
  }

  lemma UnlinkOwners(g: G)
    requires RootsOk(g, {}) && UdataOk(g, {}) && g.swept < |RootList(g)|
    ensures RootsOk(Unlink(g), {RootList(g)[g.swept]}) && UdataOk(Unlink(g), {RootList(g)[g.swept]})
  {
    var g', id := Unlink(g), RootList(g)[g.swept];
    UnlinkIs(g);
    OwnerKind(g);
    assert g'.m == g.m && g'.tmudata == g.tmudata;
    hide RootList, Unlink, RootKind, Traversed;
    KindsDiffer(g.m.objs[id]);
    forall x ensures multiset(g'.rootgc)[x] == if x in g'.m.objs && RootKind(g'.m.objs[x]) && x !in {id} then 1 else 0 {
      assert multiset(g.rootgc)[x] == if x in g.m.objs && RootKind(g.m.objs[x]) then 1 else 0;
    }
    forall x
      ensures multiset(g'.udata)[x] + multiset(g'.tmudata)[x] == if x in g'.m.objs && g'.m.objs[x].Udata?
              && x !in {id} then 1 else 0
    {
      assert multiset(g.udata)[x] + multiset(g.tmudata)[x] == if x in g.m.objs && g.m.objs[x].Udata? then 1 else 0;
    }
  }

  lemma KindsDiffer(o: Obj)
    ensures !(RootKind(o) && o.Udata?)
  {
  }

  lemma OwnerKind(g: G)
    requires RootsOk(g, {}) && UdataOk(g, {}) && g.swept < |RootList(g)|
    ensures var id := RootList(g)[g.swept];
            && id in g.m.objs && (g.swept < |g.rootgc| ==> RootKind(g.m.objs[id]))
            && (g.swept >= |g.rootgc| ==> g.m.objs[id].Udata?)
            && (RootKind(g.m.objs[id]) || g.m.objs[id].Udata?)
  {
    var id := RootList(g)[g.swept];
    if g.swept < |g.rootgc| {
      assert id in g.rootgc && multiset(g.rootgc)[id] >= 1;
    } else {
      assert id in g.udata && multiset(g.udata)[id] >= 1;
    }
  }

  lemma UnlinkStruct(g: G)
    requires Struct(g) && g.swept < |RootList(g)| && RootList(g)[g.swept] != g.main
    ensures StructBut(Unlink(g), {RootList(g)[g.swept]})
  {
    StructIs(g, {});
    UnlinkOwners(g);
    UnlinkIs(g);
    SameStrings(g, Unlink(g));
    assert OpenOk(Unlink(g));
    hide RootsOk, UdataOk, StringsOk, OpenOk, ThreadsOk, HomesOk, Interned, RootList;
    StructMade(Unlink(g), {RootList(g)[g.swept]});
  }

  lemma UnlinkSwept(g: G)
    requires SweptOk(g) && g.phase == Sweep && g.swept < |RootList(g)|
    ensures SweptOk(Unlink(g))
  {
    UnlinkPrefix(g);
    var g' := Unlink(g);
    assert g'.m == g.m && g'.phase == g.phase && g'.swept == g.swept && g'.tmudata == g.tmudata;
    hide RootList, Unlink;
    forall x ensures Passed(g', x) == Passed(g, x) { }
    hide Passed;
    forall id | id in g'.m.objs && SweptId(g', id) ensures Clean(g'.m, id) { assert SweptId(g, id); }
  }

  lemma UnlinkRest(g: G)
    requires RestInv(g, {}) && g.phase == Sweep && g.swept < |RootList(g)| && IsDead(g.m, RootList(g)[g.swept])
    ensures RestInv(Unlink(g), {RootList(g)[g.swept]})
  {
    DeadNotMain(g);
    UnlinkKeeps(g);
    hide StructBut, SweptOk, KindsOk, AliveClosed, RootsAlive, IsDead, Unlink, RootList, Struct;
    UnlinkStruct(g);
    UnlinkSwept(g);
  }

  lemma DeadNotMain(g: G)
    requires RestInv(g, {}) && g.swept < |RootList(g)| && IsDead(g.m, RootList(g)[g.swept])
    ensures Struct(g) && RootList(g)[g.swept] != g.main
  {
    StructIs(g, {});
  }

  lemma UnlinkKeeps(g: G)
    requires RestInv(g, {}) && g.phase == Sweep && g.swept < |RootList(g)|
    ensures var g' := Unlink(g);
            && KindsOk(g'.m) && AliveClosed(g'.m) && RootsAlive(g') && g'.phase == Sweep && g'.swept <= |RootList(g')|
  {
    UnlinkPrefix(g);
    UnlinkSame(g);
    hide StructBut, SweptOk, KindsOk, AliveClosed, Alive, Unlink, RootList, RootVals;
  }

  lemma UnlinkSame(g: G)
    requires g.swept < |RootList(g)|
    ensures var g' := Unlink(g);
            g'.m == g.m && RootVals(g') == RootVals(g) && g'.tmudata == g.tmudata && g'.phase == g.phase
            && g'.swept == g.swept
  {
  }

  /** The object that goes has no open upvalues left. */
  lemma DeletePurges(m: Marking, id: Id)
    requires m.marks.Keys == m.objs.Keys && IsDead(m, id) && forall u :: !OpenOn(m, u, id)
    ensures Purged(m, Delete(m, id))
  {
    var m' := Delete(m, id);
    forall j | j in m'.objs ensures KeptAt(m, m', j) { assert !OpenOn(m, j, id); }
    forall j | j in m'.marks ensures PurgedAt(m, m', j) { }
  }

  lemma DeleteThreads(m: Marking, id: Id)
    requires ThreadsOk(m) && HomesOk(m) && (forall u :: !OpenOn(m, u, id)) && id in m.objs && !IsOpen(m.objs[id])
    ensures ThreadsOk(Delete(m, id)) && HomesOk(Delete(m, id))
  {
    var m' := Delete(m, id);
    forall t | t in m'.objs && m'.objs[t].Thread? ensures OpenListOk(m', t) {
      assert OpenListOk(m, t);
      forall u ensures OpenOn(m', u, t) == OpenOn(m, u, t) { }
      KeepsDescending(m, m', OpenList(m', t));
    }
    forall u ensures HomeOk(m', u) { assert HomeOk(m, u) && !OpenOn(m, u, id); }
  }

  lemma DeleteStrings(g: G, id: Id)
    requires StringsOk(g) && Interned(g.m) && id in g.m.objs && !g.m.objs[id].Str?
    ensures var g' := g.(m := Delete(g.m, id)); StringsOk(g') && Interned(g'.m) && StringIds(g'.m) == StringIds(g.m)
  {
    var g' := g.(m := Delete(g.m, id));
    forall b, s | 0 <= b < |g'.strt| ensures multiset(g'.strt[b])[s] == if InStringList(g', s, b) then 1 else 0 {
      assert InStringList(g', s, b) == InStringList(g, s, b);
    }
  }

  lemma DeleteLists(g: G, id: Id)
    requires RootsOk(g, {id}) && UdataOk(g, {id}) && OpenOk(g) && id in g.m.objs && !IsOpen(g.m.objs[id])
    ensures var g' := g.(m := Delete(g.m, id)); RootsOk(g', {}) && UdataOk(g', {}) && OpenOk(g')
  {
    hide RootKind, IsOpen;
  }

  lemma DeleteFixed(g: G, id: Id)
    requires FixedOk(g) && RootsAlive(g) && g.m.marks.Keys == g.m.objs.Keys && IsDead(g.m, id)
             && forall u :: !OpenOn(g.m, u, id)
    ensures FixedOk(g.(m := Delete(g.m, id)))
  {
    FixedLast(g);
    hide RootsAlive, Purged, Delete, IsDead;
    DeletePurges(g.m, id);
    PurgedFixed(g, g.(m := Delete(g.m, id)));
  }

  lemma DeleteStruct(g: G, id: Id)
    requires StructBut(g, {id}) && RootsAlive(g) && g.m.marks.Keys == g.m.objs.Keys && IsDead(g.m, id)
    requires (RootKind(g.m.objs[id]) || g.m.objs[id].Udata?) && forall u :: !OpenOn(g.m, u, id)
    ensures Struct(g.(m := Delete(g.m, id)))
  {
    StructIs(g, {id});
    hide RootsOk, UdataOk, StringsOk, OpenOk, ThreadsOk, HomesOk, Interned, RootsAlive, Delete, FixedOk, StructBut,
      StringIds;
    DeleteLists(g, id);
    DeleteThreads(g.m, id);
    DeleteStrings(g, id);
    DeleteFixed(g, id);
    StructMade(g.(m := Delete(g.m, id)), {});
  }

  lemma FixedLast(g: G)
    requires FixedOk(g)
    ensures g.rootgc != [] && g.rootgc[|g.rootgc| - 1] == g.main
  {
  }

  lemma DeleteSwept(g: G, id: Id)
    requires SweptOk(g)
    ensures SweptOk(g.(m := Delete(g.m, id)))
  {
    var g' := g.(m := Delete(g.m, id));
    forall x ensures Passed(g', x) == Passed(g, x) { PassedFrame(g, g', x); }
    hide Passed;
    forall j | j in g'.m.objs && SweptId(g', j) ensures Clean(g'.m, j) { assert SweptId(g, j); }
  }

  lemma NoneOpen(g: G, id: Id, gone: set<Id>)
    requires ThreadsOk(g.m) && HomesOk(g.m)
    requires OpenList(g.m, id) != [] ==> !AtOrAbove(g.m, OpenList(g.m, id)[0], 0)
    ensures forall u :: !OpenOn(g.m, u, id)
  {
    var l := OpenList(g.m, id);
    forall u ensures !OpenOn(g.m, u, id) {
      assert HomeOk(g.m, u);
      if id in g.m.objs && g.m.objs[id].Thread? {
        assert OpenListOk(g.m, id);
        assert multiset(l)[u] == if OpenOn(g.m, u, id) then 1 else 0;
        if l != [] { FirstIsOpen(g.m, id); }
      }
    }
  }

  /** A purged object that was dead still is, and is of the same kind. */
  lemma StillDead(m: Marking, m': Marking, id: Id)
    requires Purged(m, m') && id in m'.objs && IsDead(m, id)
    ensures IsDead(m', id) && ObjKept(m.objs[id], m'.objs[id])
  {
    assert PurgedAt(m, m', id) && KeptAt(m, m', id);
  }

  lemma KeptKind(o: Obj, o': Obj)
    requires ObjKept(o, o') && (RootKind(o) || o.Udata?)
    ensures RootKind(o') || o'.Udata?
  {
  }

  lemma CloseFirstKeepsThread(g: G, th: Id)
    requires ThreadsOk(g.m) && HomesOk(g.m) && g.phase != Propagating && OpenList(g.m, th) != []
    ensures th in CloseFirst(g, th).m.objs && CloseFirst(g, th).phase == g.phase
  {
    CloseFirstUnfolds(g, th);
    CloseFirstDetaches(g, th);
    hide ThreadsOk, HomesOk, CloseFirst, CloseFirstIs;
  }

  lemma {:induction false} CloseKeepsThread(g: G, th: Id, level: nat, n: nat)
    requires RestInv(g, {th})
    ensures th in g.m.objs ==> th in Close(g, th, level, n).m.objs
    ensures Close(g, th, level, n).phase == g.phase
    decreases n
  {
    hide RestInv, CloseFirst, ThreadsOk, HomesOk, StructBut, RootsAlive, SweptOk, KindsOk, AliveClosed, Purged;
    var l := OpenList(g.m, th);
    if !(n == 0 || l == [] || !AtOrAbove(g.m, l[0], level)) {
      RestParts(g, {th});
      CloseFirstKeepsThread(g, th);
      CloseFirstRest(g, th, {th});
      CloseKeepsThread(CloseFirst(g, th), th, level, n - 1);
    }
  }

  lemma RestParts(g: G, gone: set<Id>)
    requires RestInv(g, gone)
    ensures ThreadsOk(g.m) && HomesOk(g.m) && StructBut(g, gone) && RootsAlive(g) && g.phase != Propagating
            && g.m.marks.Keys == g.m.objs.Keys
    ensures SweptOk(g) && KindsOk(g.m) && AliveClosed(g.m) && g.swept <= |RootList(g)|
  {
  }

  lemma FreeRest(g: G, id: Id)
    requires RestInv(g, {id}) && id in g.m.objs && IsDead(g.m, id) && (RootKind(g.m.objs[id]) || g.m.objs[id].Udata?)
    ensures RestInv(Free(g, id), {}) && Purged(g.m, Free(g, id).m) && Free(g, id).phase == g.phase
  {
    hide RestInv, Purged, KindsOk, AliveClosed, RootsAlive, SweptOk, StructBut, ThreadsOk, HomesOk, Delete;
    var n := |OpenList(g.m, id)|;
    var g1 := Close(g, id, 0, n);
    RestParts(g, {id});
    CloseRest(g, id, 0, n, {id});
    CloseKeepsThread(g, id, 0, n);
    RestParts(g1, {id});
    StillDead(g.m, g1.m, id);
    KeptKind(g.m.objs[id], g1.m.objs[id]);
    NoneOpen(g1, id, {id});
    FreeLast(g1, id);
    PurgedTwice(g.m, g1.m, Delete(g1.m, id));
  }

  lemma FreeLast(g1: G, id: Id)
    requires RestInv(g1, {id}) && id in g1.m.objs && IsDead(g1.m, id)
             && (RootKind(g1.m.objs[id]) || g1.m.objs[id].Udata?)
    requires forall u :: !OpenOn(g1.m, u, id)
    ensures var g' := g1.(m := Delete(g1.m, id)); RestInv(g', {}) && Purged(g1.m, g'.m)
  {
    var g' := g1.(m := Delete(g1.m, id));
    RestParts(g1, {id});
    DeletePurges(g1.m, id);
    DeleteStruct(g1, id);
    DeleteSwept(g1, id);
    hide Purged, KindsOk, AliveClosed, RootsAlive, SweptOk, StructBut, Delete;
    PurgedClosed(g1.m, g'.m);
    PurgedKinds(g1.m, g'.m);
    PurgedRoots(g1, g');
  }

  // ---------------------------------------------------------------- the sweep

  lemma SweepGone(g: G)
    requires RestInv(g, {}) && g.phase == Sweep && g.swept < |RootList(g)| && IsDead(g.m, RootList(g)[g.swept])
    ensures var g' := Free(Unlink(g), RootList(g)[g.swept]);
            RestInv(g', {}) && Purged(g.m, g'.m) && g'.phase == Sweep
  {
    RestParts(g, {});
    StructIs(g, {});
    OwnerKind(g);
    UnlinkRest(g);
    assert Unlink(g).m == g.m && Unlink(g).phase == g.phase;
    hide RestInv, Purged, Unlink, StructBut, KindsOk, AliveClosed, RootsAlive, SweptOk, Free;
    FreeRest(Unlink(g), RootList(g)[g.swept]);
  }

  lemma OwnerExists(g: G)
    requires RestInv(g, {}) && g.swept < |RootList(g)|
    ensures RootList(g)[g.swept] in g.m.objs
  {
    StructIs(g, {});
    OwnerKind(g);
  }

  lemma KeepOrFreeRest(g: G)
    requires RestInv(g, {}) && g.phase == Sweep && g.swept < |RootList(g)| && OpensClean(g.m, RootList(g)[g.swept])
    ensures RestInv(KeepOrFree(g), {}) && Purged(g.m, KeepOrFree(g).m) && KeepOrFree(g).phase == Sweep
  {
    hide RestInv, Purged, Free, Unlink, OpensClean;
    if IsDead(g.m, RootList(g)[g.swept]) { SweepGone(g); } else { PassingRest(g); }
  }

  lemma SweepElemRest(g: G)
    requires RestInv(g, {}) && g.phase == Sweep && g.swept < |RootList(g)|
    ensures RestInv(SweepElem(g), {}) && Purged(g.m, SweepElem(g).m) && SweepElem(g).phase == Sweep
  {
    hide RestInv, Purged, KeepOrFree, OpensClean;
    var g1 := SweepOpen(g, RootList(g)[g.swept]);
    OwnerExists(g);
    SweepOpenRest(g, RootList(g)[g.swept]);
    hide SweepOpen;
    KeepOrFreeRest(g1);
    PurgedTwice(g.m, g1.m, SweepElem(g).m);
  }

  lemma {:induction false} SweepElemsRest(g: G, count: nat)
    requires RestInv(g, {}) && g.phase == Sweep
    ensures RestInv(SweepElems(g, count), {}) && Purged(g.m, SweepElems(g, count).m)
            && SweepElems(g, count).phase == Sweep
    decreases count
  {
    hide RestInv, Purged, SweepElem;
    if count == 0 || g.swept >= |RootList(g)| {
      RestParts(g, {});
      PurgedSelf(g.m);
    } else {
      SweepElemRest(g);
      SweepElemsRest(SweepElem(g), count - 1);
      PurgedTwice(g.m, SweepElem(g).m, SweepElems(g, count).m);
    }
  }
}
