/** Sweeping a list (lua/lgc.c:399-425): dead objects go, all others become white and stay what they are. */
module GcSweep {
  import opened GcHeap
  import opened GcMark
  import opened GcCollector
  import opened GcState

  /** The object is the same, apart from a thread's list, or is an upvalue that has been closed. */
  predicate ObjKept(o: Obj, o': Obj) {
    || o' == o
    || (o.Thread? && o'.Thread? && o'.gt == o.gt && o'.stack == o.stack)
    || (IsOpen(o) && o'.Upval? && o'.home.Closed?)
  }

  /** Only dead objects have gone; marks have changed only to the current white; no reference has changed. */
  ghost predicate Purged(m: Marking, m': Marking) {
    && m' == m.(objs := m'.objs, marks := m'.marks) && m'.marks.Keys == m'.objs.Keys && m.marks.Keys == m.objs.Keys
    && (forall id :: id in m'.objs ==> id in m.objs && KeptAt(m, m', id))
    && (forall id :: id in m.objs && id !in m'.objs ==> IsDead(m, id))
    && (forall id :: id in m'.marks ==> PurgedAt(m, m', id))
  }

  ghost predicate KeptAt(m: Marking, m': Marking, id: Id)
    requires id in m.objs && id in m'.objs
  {
    ObjKept(m.objs[id], m'.objs[id]) && FieldsAt(m'.objs, id) == FieldsAt(m.objs, id)
  }

  ghost predicate PurgedAt(m: Marking, m': Marking, id: Id)
    requires id in m'.marks
  {
    && id in m.marks
    && (m'.marks[id] == m.marks[id] || (!IsDead(m, id) && m'.marks[id] == m.marks[id].(colour := White(m.cw))))
    && (id in m.objs && id in m'.objs && IsOpen(m.objs[id]) && !IsOpen(m'.objs[id]) ==> m'.marks[id].colour.White?)
  }

  lemma PurgedTwice(m0: Marking, m1: Marking, m2: Marking)
    requires Purged(m0, m1) && Purged(m1, m2)
    ensures Purged(m0, m2)
  {
    forall id | id in m2.objs ensures KeptAt(m0, m2, id) { assert KeptAt(m1, m2, id) && KeptAt(m0, m1, id); }
    forall id | id in m2.marks ensures PurgedAt(m0, m2, id) {
      assert PurgedAt(m1, m2, id) && PurgedAt(m0, m1, id) && KeptAt(m1, m2, id) && KeptAt(m0, m1, id);
    }
    forall id | id in m0.objs && id !in m2.objs ensures IsDead(m0, id) {
      if id in m1.objs { assert PurgedAt(m0, m1, id); }
    }
  }

  lemma PurgedAlive(m: Marking, m': Marking, id: Id)
    requires Purged(m, m')
    ensures Alive(m, id) ==> Alive(m', id)
    ensures IsDead(m', id) ==> IsDead(m, id)
    ensures Alive(m', id) ==> Alive(m, id)
  {
    if id in m'.marks { assert PurgedAt(m, m', id); }
  }

  lemma PurgedClosed(m: Marking, m': Marking)
    requires Purged(m, m') && AliveClosed(m)
    ensures AliveClosed(m')
  {
    forall id, x | Alive(m', id) && Refers(m'.objs, id, x) ensures Alive(m', x) {
      PurgedAlive(m, m', id);
      assert KeptAt(m, m', id);
      assert Refers(m.objs, id, x);
      PurgedAlive(m, m', x);
    }
  }

  lemma PurgedKinds(m: Marking, m': Marking)
    requires Purged(m, m') && KindsOk(m)
    ensures KindsOk(m')
  {
    forall id | id in m'.objs ensures KindOk(m'.objs[id], m'.marks[id].colour) {
      assert PurgedAt(m, m', id) && KeptAt(m, m', id) && KindOk(m.objs[id], m.marks[id].colour);
    }
  }

  lemma PurgedRoots(g: G, g': G)
    requires RootsAlive(g) && Purged(g.m, g'.m) && RootVals(g') == RootVals(g) && g'.tmudata == g.tmudata
    ensures RootsAlive(g')
  {
    forall x ensures Alive(g.m, x) ==> Alive(g'.m, x) { PurgedAlive(g.m, g'.m, x); }
  }

  lemma PurgedFixed(g: G, g': G)
    requires FixedOk(g) && RootsAlive(g) && Purged(g.m, g'.m) && g'.rootgc != [] && g'.rootgc[|g'.rootgc| - 1] == g.main
    requires g'.main == g.main && g'.cur == g.cur
    ensures FixedOk(g')
  {
    assert Ref(g.main) in RootVals(g) && Ref(g.cur) in RootVals(g);
    PurgedAlive(g.m, g'.m, g.main);
    PurgedAlive(g.m, g'.m, g.cur);
    assert PurgedAt(g.m, g'.m, g.main);
    forall id | id in g'.m.objs && id in g'.m.marks && g'.m.marks[id].fixed ensures id == g.main || g'.m.objs[id].Str? {
      assert PurgedAt(g.m, g'.m, id) && KeptAt(g.m, g'.m, id);
    }
    assert KeptAt(g.m, g'.m, g.main) && KeptAt(g.m, g'.m, g.cur);
  }

  // ---------------------------------------------------------------- sweeping a list

  /** Strings and upvalues. */
  predicate Small(m: Marking, id: Id) { id in m.objs ==> m.objs[id].Str? || m.objs[id].Upval? }

  lemma SweepMarkPurges(m: Marking, id: Id)
    requires m.marks.Keys == m.objs.Keys && Small(m, id)
    ensures Purged(m, SweepMark(m, id))
  {
    var m' := SweepMark(m, id);
    forall j | j in m'.objs ensures KeptAt(m, m', j) { }
    forall j | j in m'.marks ensures PurgedAt(m, m', j) { }
  }

  /** What became of the list and of everything else. */
  ghost predicate SweptList(m: Marking, m': Marking, l: seq<Id>) {
    && m'.marks.Keys == m'.objs.Keys && m'.cw == m.cw && m'.objs.Keys <= m.objs.Keys
    && (forall id :: id in m'.objs ==> m'.objs[id] == m.objs[id])
    && (forall id :: id in m'.objs <==> id in m.objs && !(id in l && IsDead(m, id)))
    && (forall id :: id in m'.objs && id in l ==> Clean(m', id))
    && (forall id :: id in m'.marks && id !in l ==> id in m.marks && m'.marks[id] == m.marks[id])
  }

  lemma SweptListStep(m: Marking, m1: Marking, m2: Marking, l: seq<Id>)
    requires l != [] && m.marks.Keys == m.objs.Keys && m1 == SweepMark(m, l[0]) && SweptList(m1, m2, l[1..])
             && m2.marks.Keys == m2.objs.Keys
    requires m2.cw == m.cw
    ensures SweptList(m, m2, l)
  {
    assert l == [l[0]] + l[1..];
    forall id ensures id in m2.objs <==> id in m.objs && !(id in l && IsDead(m, id)) {
      if id != l[0] { assert IsDead(m1, id) == IsDead(m, id); }
    }
    forall id | id in m2.objs && id in l ensures Clean(m2, id) {
      if id !in l[1..] { assert m2.marks[id] == m1.marks[id]; }
    }
  }

  lemma {:induction false} SweepObjsPurges(m: Marking, l: seq<Id>)
    requires m.marks.Keys == m.objs.Keys && forall id :: id in l ==> Small(m, id)
    ensures Purged(m, SweepObjs(m, l)) && SweptList(m, SweepObjs(m, l), l)
    decreases |l|
  {
    if l != [] {
      var m1, m2 := SweepMark(m, l[0]), SweepObjs(m, l);
      SweepMarkPurges(m, l[0]);
      PurgedIs(m, m1);
      assert forall id :: id in l[1..] ==> id in l && Small(m1, id);
      hide Purged, SweptList, SweepMark;
      SweepObjsPurges(m1, l[1..]);
      PurgedTwice(m, m1, m2);
      PurgedIs(m, m2);
      SweptListStep(m, m1, m2, l);
    } else {
      PurgedSelf(m);
    }
  }

  lemma PurgedSelf(m: Marking)
    requires m.marks.Keys == m.objs.Keys
    ensures Purged(m, m)
  {
    forall id | id in m.objs ensures KeptAt(m, m, id) { }
    forall id | id in m.marks ensures PurgedAt(m, m, id) { }
  }

  lemma PurgedIs(m: Marking, m': Marking)
    requires Purged(m, m')
    ensures m'.marks.Keys == m'.objs.Keys && m'.cw == m.cw
  {
  }

  lemma {:induction false} SurvivorsCount(m: Marking, l: seq<Id>, id: Id)
    ensures multiset(Survivors(m, l))[id] == if IsDead(m, id) then 0 else multiset(l)[id]
    ensures |Survivors(m, l)| <= |l|
    decreases |l|
  {
    if l != [] {
      SurvivorsCount(m, l[1..], id);
      assert l == [l[0]] + l[1..];
    }
  }

  lemma {:induction false} SurvivorsIn(m: Marking, l: seq<Id>, i: nat) returns (k: nat)
    requires i < |Survivors(m, l)|
    ensures i <= k < |l| && l[k] == Survivors(m, l)[i] && !IsDead(m, l[k])
    decreases |l|
  {
    if IsDead(m, l[0]) { var k1 := SurvivorsIn(m, l[1..], i); k := k1 + 1; }
    else if i == 0 { k := 0; }
    else { var k1 := SurvivorsIn(m, l[1..], i - 1); k := k1 + 1; }
  }

  /** The number of objects that go is the number of dead ones. */
  lemma {:induction false} SurvivorsSize(m: Marking, l: seq<Id>)
    requires forall id :: multiset(l)[id] <= 1
    ensures |l| - |Survivors(m, l)| == |set id | id in l && IsDead(m, id)|
    decreases |l|
  {
    if l != [] {
      assert l == [l[0]] + l[1..];
      forall id
        ensures multiset(l[1..])[id] <= 1
      {
        assert multiset(l)[id] == multiset(l[1..])[id] + if id == l[0] then 1 else 0;
      }
      SurvivorsSize(m, l[1..]);
      var D, D1 := set id | id in l && IsDead(m, id), set id | id in l[1..] && IsDead(m, id);
      assert l[0] !in l[1..] by { assert multiset(l)[l[0]] <= 1; }
      assert D == if IsDead(m, l[0]) then D1 + {l[0]} else D1;
    }
  }

  // ---------------------------------------------------------------- a list of strings

  lemma StringListIs(g: G, l: seq<Id>)
    requires StringsOk(g) && g.sweepstr < |g.strt| && l == g.strt[g.sweepstr]
    ensures forall id :: id in l <==> InStringList(g, id, g.sweepstr)
    ensures forall id :: multiset(l)[id] <= 1
  {
    forall id
      ensures id in l <==> InStringList(g, id, g.sweepstr)
    {
      assert multiset(l)[id] == if InStringList(g, id, g.sweepstr) then 1 else 0;
    }
    forall id
      ensures multiset(l)[id] <= 1
    {
      assert multiset(l)[id] == if InStringList(g, id, g.sweepstr) then 1 else 0;
    }
  }

  lemma SweepStringTable(g: G)
    requires StringsOk(g) && KindsOk(g.m) && g.sweepstr < |g.strt|
    ensures StringsOk(SweepStringStep(g))
  {
    var l, g' := g.strt[g.sweepstr], SweepStringStep(g);
    StringListIs(g, l);
    assert forall id :: id in l ==> Small(g.m, id);
    hide Purged;
    SweepObjsPurges(g.m, l);
    forall b, id | 0 <= b < |g'.strt| ensures multiset(g'.strt[b])[id] == if InStringList(g', id, b) then 1 else 0 {
      SurvivorsCount(g.m, l, id);
      assert multiset(g.strt[b])[id] == if InStringList(g, id, b) then 1 else 0;
    }
  }

  lemma SweepStringCount(g: G)
    requires StringsOk(g) && Interned(g.m) && KindsOk(g.m) && g.sweepstr < |g.strt| && g.nuse == |StringIds(g.m)|
    ensures Interned(SweepStringStep(g).m) && SweepStringStep(g).nuse == |StringIds(SweepStringStep(g).m)|
  {
    var l, g' := g.strt[g.sweepstr], SweepStringStep(g);
    StringListIs(g, l);
    assert forall id :: id in l ==> Small(g.m, id);
    hide Purged;
    SweepObjsPurges(g.m, l);
    SurvivorsSize(g.m, l);
    var D := set id | id in l && IsDead(g.m, id);
    assert StringIds(g'.m) == StringIds(g.m) - D;
    assert D <= StringIds(g.m);
  }

  /** Only strings have gone, and nothing else has changed. */
  ghost predicate StringsGone(m: Marking, m': Marking) {
    && (forall id :: id in m'.objs ==> id in m.objs && m'.objs[id] == m.objs[id])
    && (forall id :: id in m.objs && id !in m'.objs ==> m.objs[id].Str?)
  }

  lemma StringsGoneLists(g: G, g': G, gone: set<Id>)
    requires RootsOk(g, gone) && UdataOk(g, gone) && OpenOk(g) && StringsGone(g.m, g'.m)
    requires g'.rootgc == g.rootgc && g'.udata == g.udata && g'.tmudata == g.tmudata && g'.uvhead == g.uvhead
    ensures RootsOk(g', gone) && UdataOk(g', gone) && OpenOk(g')
  {
  }

  lemma StringsGoneThreads(m: Marking, m': Marking)
    requires ThreadsOk(m) && HomesOk(m) && StringsGone(m, m')
    ensures ThreadsOk(m') && HomesOk(m')
  {
    forall th | th in m'.objs && m'.objs[th].Thread? ensures OpenListOk(m', th) {
      assert OpenListOk(m, th);
      forall id ensures OpenOn(m', id, th) == OpenOn(m, id, th) { }
    }
    forall id ensures HomeOk(m', id) { assert HomeOk(m, id); }
  }

  lemma SweptString(g: G, m': Marking, l: seq<Id>, id: Id)
    requires StringsOk(g) && KindsOk(g.m) && SweptOk(g) && g.phase == SweepString && g.sweepstr < |g.strt|
             && l == g.strt[g.sweepstr]
    requires SweptList(g.m, m', l) && id in m'.objs && m'.objs[id].Str?
    requires Bucket(g, m'.objs[id].text, |g.strt|) < g.sweepstr + 1
    ensures Clean(m', id)
  {
    if id !in l {
      assert multiset(l)[id] == if InStringList(g, id, g.sweepstr) then 1 else 0;
      assert SweptId(g, id);
      assert m'.marks[id] == g.m.marks[id];
    }
  }

  /** While strings are swept, only strings have been. */
  lemma NothingPassed(g: G, id: Id)
    requires (g.phase == SweepString || g.phase == Sweep) && g.swept == 0 && id in g.m.objs && SweptId(g, id)
    requires g.phase == Sweep ==> 0 < |g.strt| <= g.sweepstr
    ensures g.m.objs[id].Str? && |g.strt| > 0 && Bucket(g, g.m.objs[id].text, |g.strt|) < g.sweepstr
  {
  }

  lemma StringStepParts(g: G)
    requires g.sweepstr < |g.strt| && g.phase == SweepString
    ensures var g' := SweepStringStep(g);
            && g'.m == SweepObjs(g.m, g.strt[g.sweepstr]) && g'.swept == g.swept && |g'.strt| == |g.strt|
            && g'.sweepstr == g.sweepstr + 1
            && g'.hash == g.hash && g'.phase == if g'.sweepstr >= |g'.strt| then Sweep else SweepString
  {
    hide SweepObjs, Survivors;
  }

  lemma SweepStringSwept(g: G)
    requires StringsOk(g) && KindsOk(g.m) && PhaseOk(g) && g.phase == SweepString
    ensures PhaseOk(SweepStringStep(g))
  {
    var l, g' := g.strt[g.sweepstr], SweepStringStep(g);
    StringListIs(g, l);
    assert forall id :: id in l ==> Small(g.m, id);
    StringStepParts(g);
    hide SweepStringStep, Purged, SweepObjs, Survivors, RootList, StringsOk, SweptList, KindsOk, InStringList, SweptId,
      Clean, Bucket;
    SweepObjsPurges(g.m, l);
    forall id | id in g'.m.objs && SweptId(g', id) ensures Clean(g'.m, id) {
      NothingPassed(g', id);
      BucketSame(g, g', g'.m.objs[id].text);
      SweptString(g, g'.m, l, id);
    }
  }

  lemma BucketSame(g: G, g': G, text: string)
    requires g'.hash == g.hash && |g'.strt| == |g.strt| > 0
    ensures Bucket(g', text, |g'.strt|) == Bucket(g, text, |g.strt|)
  {
  }

  lemma SweepStringIs(g: G)
    requires StringsOk(g) && KindsOk(g.m) && g.sweepstr < |g.strt|
    ensures var g' := SweepStringStep(g);
            && g' == g.(m := g'.m, strt := g'.strt, nuse := g'.nuse, sweepstr := g'.sweepstr, phase := g'.phase)
            && Purged(g.m, g'.m) && StringsGone(g.m, g'.m)
  {
    var l, g' := g.strt[g.sweepstr], SweepStringStep(g);
    StringListIs(g, l);
    assert forall id :: id in l ==> Small(g.m, id);
    hide Purged;
    SweepObjsPurges(g.m, l);
    forall id | id in g.m.objs && id !in g'.m.objs ensures g.m.objs[id].Str? { assert InStringList(g, id, g.sweepstr); }
  }

  /** `singlestep` in the phase of strings. */
  lemma SweepStringKeeps(g: G)
    requires Inv(g) && g.phase == SweepString
    ensures Inv(SweepStringStep(g)) && Purged(g.m, SweepStringStep(g).m)
  {
    hide SweepStringStep, StringsGone, RootsOk, UdataOk, OpenOk, StringsOk, Interned, ThreadsOk, HomesOk, AliveClosed,
      RootsAlive, Purged, KindsOk, SweptOk;
    var g' := SweepStringStep(g);
    SweepStringIs(g);
    SweepStringTable(g);
    SweepStringCount(g);
    SweepStringSwept(g);
    StringsGoneLists(g, g', {});
    StringsGoneThreads(g.m, g'.m);
    PurgedFixed(g, g');
    PurgedClosed(g.m, g'.m);
    PurgedKinds(g.m, g'.m);
    PurgedRoots(g, g');
  }
}
