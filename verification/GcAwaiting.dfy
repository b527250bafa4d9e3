/** Userdata that await their finalizer: which ones the atomic step moves to `tmudata`, and which marks are
    set when weak tables are about to be cleared (lua/lgc.c:124-164, 525-551). */
module GcAwaiting {
  import opened GcHeap
  import opened GcMark
  import opened GcCollector
  import opened GcAtomic
  import opened GcState
  import opened GcStateMark
  import opened GcRuns
  import opened GcExact

  /** A userdata that cannot be reached strongly and has a finalizer that has not been called. */
  ghost predicate Awaiting(g: G, u: Id) {
    && Alive(g.m, u) && u in g.m.marks && !g.m.marks[u].finalized
    && HasFinalizer(g.m.objs, g.m.names, u) && !StronglyReachable(g, u)
  }

  /** A root of what the cycle keeps. */
  ghost predicate Source(g: G, x: Id) { Ref(x) in RootVals(g) || x in g.tmudata || Awaiting(g, x) }

  /** There is a way without weak references to `x`, from a root or from a userdata that awaits its finalizer,
      in `tmudata` or not yet. */
  ghost predicate Spared(g: G, x: Id) {
    exists p :: StrongPath(g.m.objs, g.m.names, p) && Source(g, p[0]) && p[|p| - 1] == x
  }

  /** `S` is exactly what is strongly reachable. */
  ghost predicate IsReach(g: G, S: set<Id>) { forall x :: x in S <==> StronglyReachable(g, x) }

  ghost predicate IsSpared(g: G, T: set<Id>) { forall x :: x in T <==> Spared(g, x) }

  lemma ReachRoots(g: G, x: Id)
    requires Ref(x) in RootVals(g)
    ensures StronglyReachable(g, x)
  {
    assert StrongPath(g.m.objs, g.m.names, [x]) && [x][0] == x;
  }

  lemma LongerPath(objs: Heap, names: Names, p: seq<Id>, x: Id)
    requires StrongPath(objs, names, p) && StronglyRefers(objs, names, p[|p| - 1], x)
    ensures StrongPath(objs, names, p + [x]) && (p + [x])[0] == p[0] && (p + [x])[|p|] == x
  {
  }

  lemma ReachStep(g: G, o: Id, x: Id)
    requires StronglyReachable(g, o) && StronglyRefers(g.m.objs, g.m.names, o, x)
    ensures StronglyReachable(g, x)
  {
    var p :| StrongPath(g.m.objs, g.m.names, p) && Ref(p[0]) in RootVals(g) && p[|p| - 1] == o;
    LongerPath(g.m.objs, g.m.names, p, x);
  }

  lemma ReachClosed(g: G, S: set<Id>)
    requires IsReach(g, S)
    ensures ClosedSet(g.m.objs, g.m.names, S) && forall x :: Ref(x) in RootVals(g) ==> x in S
  {
    forall o, x | o in S && StronglyRefers(g.m.objs, g.m.names, o, x) && x in g.m.objs
      ensures x in S
    {
      ReachStep(g, o, x);
    }
    forall x | Ref(x) in RootVals(g) ensures x in S { ReachRoots(g, x); }
  }

  lemma SparedStep(g: G, o: Id, x: Id)
    requires Spared(g, o) && StronglyRefers(g.m.objs, g.m.names, o, x)
    ensures Spared(g, x)
  {
    var p :| StrongPath(g.m.objs, g.m.names, p) && Source(g, p[0]) && p[|p| - 1] == o;
    LongerPath(g.m.objs, g.m.names, p, x);
  }

  lemma SparedSource(g: G, x: Id)
    requires Source(g, x)
    ensures Spared(g, x)
  {
    assert StrongPath(g.m.objs, g.m.names, [x]) && [x][0] == x;
  }

  lemma ReachIsSpared(g: G, x: Id)
    requires StronglyReachable(g, x)
    ensures Spared(g, x)
  {
    var p :| StrongPath(g.m.objs, g.m.names, p) && Ref(p[0]) in RootVals(g) && p[|p| - 1] == x;
    assert Source(g, p[0]);
  }

  lemma SparedClosed(g: G, T: set<Id>)
    requires IsSpared(g, T)
    ensures ClosedSet(g.m.objs, g.m.names, T)
    ensures forall x :: Source(g, x) || StronglyReachable(g, x) ==> x in T
  {
    hide Spared, StronglyReachable, Source;
    forall o, x | o in T && StronglyRefers(g.m.objs, g.m.names, o, x) && x in g.m.objs
      ensures x in T
    {
      SparedStep(g, o, x);
    }
    forall x | Source(g, x) ensures x in T { SparedSource(g, x); }
    forall x | StronglyReachable(g, x) ensures x in T { ReachIsSpared(g, x); }
  }

  // ---------------------------------------------------------------- the finalized bit

  ghost predicate SameFinal(m: Marking, m': Marking) {
    m'.marks.Keys == m.marks.Keys && forall x :: x in m.marks ==> m'.marks[x].finalized == m.marks[x].finalized
  }

  lemma MarkAllFinal(m: Marking, vs: seq<Val>)
    ensures SameFinal(m, MarkAll(m, vs))
  {
    MarkAllMarked(m, vs);
    forall x | x in m.marks
      ensures MarkAll(m, vs).marks[x].finalized == m.marks[x].finalized
    {
      assert MarkedAt(m, MarkAll(m, vs), x);
    }
  }

  lemma PropagateFinal(m: Marking)
    requires m.gray != []
    ensures SameFinal(m, Propagate(m))
  {
    var o, m0 := m.gray[0], m.(gray := m.gray[1..]);
    OpenedTidied(m0, o);
    assert SameFinal(m, Opened(m0, o));
    MarkAllFinal(Opened(m0, o), StrongFields(m.objs, m.names, o));
  }

  lemma {:induction false} PropagateAllFinal(m: Marking)
    ensures SameFinal(m, PropagateAll(m))
    decreases |Whites(m)| + |m.gray|
  {
    hide Propagate;
    if m.gray != [] {
      PropagateShrinks(m);
      PropagateFinal(m);
      PropagateAllFinal(Propagate(m));
    }
  }

  lemma {:induction false} RemarkFinal(m: Marking, uvs: seq<Id>)
    ensures SameFinal(m, Remark(m, uvs))
    decreases |uvs|
  {
    if uvs != [] {
      var u := uvs[0];
      if IsGray(m, u) && u in m.objs && m.objs[u].Upval? {
        MarkAllFinal(m, [HomeVal(m.objs, m.objs[u].home)]);
        RemarkFinal(MarkAll(m, [HomeVal(m.objs, m.objs[u].home)]), uvs[1..]);
      } else {
        RemarkFinal(m, uvs[1..]);
      }
    }
  }

  lemma FinishFinal(g: G)
    ensures SameFinal(g.m, Finish(g))
  {
    hide PropagateAll, Remark, MarkAll;
    var m0 := Remark(g.m, g.uvhead);
    RemarkFinal(g.m, g.uvhead);
    PropagateAllFinal(m0);
    var m1 := PropagateAll(m0);
    var m2 := m1.(gray := m1.weak, weak := []);
    MarkAllFinal(m2, [Ref(g.cur)] + g.mts);
    var m3 := MarkAll(m2, [Ref(g.cur)] + g.mts);
    PropagateAllFinal(m3);
    var m4 := PropagateAll(m3);
    PropagateAllFinal(m4.(gray := m4.grayagain, grayagain := []));
  }

  lemma TidyFinalizer(m: Marking, m': Marking, u: Id)
    requires Tidied(m.objs, m'.objs) && m'.names == m.names
    ensures HasFinalizer(m'.objs, m.names, u) == HasFinalizer(m.objs, m.names, u)
  {
    if u in m.objs {
      assert TidiedAt(m.objs[u], m'.objs[u]);
      if m.objs[u].Udata? { TidyMeta(m.objs, m'.objs, m.objs[u].mt, m.names.gc); }
    }
  }

  // ---------------------------------------------------------------- the marks before userdata are separated

  lemma RootsFinished(g: G, x: Id)
    requires Inv(g) && g.phase == Propagating && Ref(x) in RootVals(g)
    ensures x in g.m.objs && !IsWhite(Finish(g), x)
  {
    assert Alive(g.m, x);
    MarkPhase(g);
    hide Inv, Struct, MarkInv, Finish, Advanced, AliveClosed, KindsOk, UdataOk, OneWhite, RootsAlive, Alive, AllExist;
    FinishInv(g, Ids(g.tmudata));
    InRoots(g, x);
    hide RootVals;
    if Ref(x) !in [Ref(g.cur)] + g.mts { StaysMarked(g.m, Finish(g), x); }
  }

  lemma StrongIsFinished(g: G, x: Id)
    requires Inv(g) && g.phase == Propagating && MarkInv(g.m, {}, [], 0) && StronglyReachable(g, x)
    ensures x in g.m.objs && !IsWhite(Finish(g), x)
  {
    var p :| StrongPath(g.m.objs, g.m.names, p) && Ref(p[0]) in RootVals(g) && p[|p| - 1] == x;
    RootsFinished(g, p[0]);
    MarkPhase(g);
    hide Inv, StructBut, MarkInv, AllExist, Finish, StrongPath, RootVals, AliveClosed, RootsAlive, OneWhite, KindsOk,
      Advanced;
    FinishInv(g, {});
    FinishedPath(g.m, Finish(g), p);
  }

  /** A path from a marked object leads to a marked object once the marks are closed. */
  lemma FinishedPath(m: Marking, m': Marking, p: seq<Id>)
    requires MarkInv(m', {}, [], 3) && m'.gray == [] && Advanced(m, m') && AllExist(m)
    requires StrongPath(m.objs, m.names, p) && p[0] in m.objs && !IsWhite(m', p[0])
    ensures p[|p| - 1] in m.objs && !IsWhite(m', p[|p| - 1])
  {
    DoneIsClosed(m');
    AdvancedTidied(m, m');
    AdvancedExist(m, m');
    AdvancedNames(m, m');
    assert m'.objs.Keys == m.objs.Keys;
    hide MarkInv, Advanced, Tidied, AllExist, StrongClosed, StrongPath;
    StrongPathMarked(m', m.objs, p);
  }

  /** Marking from the roots stays in a set that holds them and is closed. */
  lemma FinishWithin(g: G, S: set<Id>)
    requires Inv(g) && g.phase == Propagating && Inside(g.m, S) && forall x :: Ref(x) in RootVals(g) ==> x in S
    ensures Inside(Finish(g), S) && Finish(g).marks.Keys == g.m.marks.Keys
  {
    MarkPhase(g);
    FinishInv(g, Ids(g.tmudata));
    assert Finish(g).marks.Keys == g.m.marks.Keys;
    assert forall y :: Ref(y) in [Ref(g.cur)] + g.mts ==> Ref(y) in RootVals(g);
    hide Inv, StructBut, MarkInv, AllExist, Finish, AliveClosed, RootsAlive, OneWhite, KindsOk, Advanced, ClosedSet;
    FinishInside(g, Ids(g.tmudata), S);
  }

  /** If marking began with nothing but white, then before userdata are separated exactly the strongly reachable
      objects are marked. */
  lemma FinishExact(g: G, S: set<Id>, x: Id)
    requires Inv(g) && g.phase == Propagating && MarkInv(g.m, {}, [], 0) && Inside(g.m, S) && IsReach(g, S)
             && x in g.m.objs
    ensures Inside(Finish(g), S) && (x in S <==> !IsWhite(Finish(g), x))
  {
    ReachClosed(g, S);
    assert x in g.m.marks by { MarkPhase(g); }
    hide Inv, MarkInv, Finish, ClosedSet;
    FinishWithin(g, S);
    if x in S { StrongIsFinished(g, x); }
  }

  // ---------------------------------------------------------------- separating

  lemma {:induction false} SeparateMoved(m: Marking, us: seq<Id>, u: Id)
    ensures u in Separate(m, us).moved <==> u in us && ToFinalize(m, u)
    decreases |us|
  {
    if us != [] {
      assert us == [us[0]] + us[1..];
      SeparateMoved(SetFinalized(m, us[0]), us[1..], u);
    }
  }

  lemma UdataListed(g: G, u: Id)
    requires UdataOk(g, {})
    ensures u in g.udata <==> u in g.m.objs && g.m.objs[u].Udata? && u !in g.tmudata
  {
    assert multiset(g.udata)[u] + multiset(g.tmudata)[u] == if u in g.m.objs && g.m.objs[u].Udata? then 1 else 0;
  }

  /** `luaC_separateudata` moves exactly the userdata that await their finalizer, if so far only objects that
      can be reached are marked and what black objects refer to is marked. */
  lemma MovedAreAwaiting(g: G, S: set<Id>, u: Id)
    requires Inv(g) && g.phase == Propagating && MarkInv(g.m, {}, [], 0) && Inside(g.m, S) && IsReach(g, S)
    ensures u in Separate(Finish(g), g.udata).moved <==> Awaiting(g, u) && u !in g.tmudata
  {
    MovedIs(g, u);
    assert Awaiting(g, u) ==> u in g.m.objs;
    assert u in S <==> StronglyReachable(g, u);
    hide Inv, MarkInv, Finish, Inside, IsReach, StronglyReachable, HasFinalizer;
    if u in g.m.objs { FinishExact(g, S, u); }
  }

  /** What is moved was white when the marks were complete. */
  lemma MovedIs(g: G, u: Id)
    requires Inv(g) && g.phase == Propagating
    ensures u in Separate(Finish(g), g.udata).moved <==>
            && Alive(g.m, u) && u in g.m.marks && !g.m.marks[u].finalized && HasFinalizer(g.m.objs, g.m.names, u)
            && u !in g.tmudata && IsWhite(Finish(g), u)
  {
    MarkPhase(g);
    FinishInv(g, Ids(g.tmudata));
    AdvancedTidied(g.m, Finish(g));
    AdvancedNames(g.m, Finish(g));
    hide Inv, StructBut, MarkInv, Finish, AliveClosed, RootsAlive, KindsOk, Advanced, Tidied;
    UdataListed(g, u);
    AliveInMarking(g.m, u);
    FinishFinal(g);
    TidyFinalizer(g.m, Finish(g), u);
    SeparateMoved(Finish(g), g.udata, u);
  }

  /** A way from a root that passes no userdata which is queued already. */
  ghost predicate PastQueue(g: G, p: seq<Id>) {
    StrongPath(g.m.objs, g.m.names, p) && Ref(p[0]) in RootVals(g)
    && forall i :: 0 <= i < |p| - 1 ==> p[i] !in g.tmudata
  }

  lemma PastQueueShorter(g: G, p: seq<Id>)
    requires PastQueue(g, p) && |p| > 1
    ensures PastQueue(g, p[..|p| - 1]) && p[|p| - 2] !in g.tmudata
    ensures StronglyRefers(g.m.objs, g.m.names, p[|p| - 2], p[|p| - 1])
  {
    hide StronglyRefers, RootVals;
  }

  lemma {:induction false} PastQueueMarked(g: G, p: seq<Id>)
    requires Inv(g) && g.phase == Propagating && PastQueue(g, p)
    ensures p[|p| - 1] in g.m.objs && !IsWhite(Finish(g), p[|p| - 1])
    decreases |p|
  {
    hide Inv, Finish, StronglyRefers, RootVals;
    if |p| == 1 {
      RootsFinished(g, p[0]);
    } else {
      var p', o, x := p[..|p| - 1], p[|p| - 2], p[|p| - 1];
      PastQueueShorter(g, p);
      hide Inv, PastQueue, Finish, StronglyRefers;
      PastQueueMarked(g, p');
      StepMarked(g, o, x);
    }
  }

  lemma StepMarked(g: G, o: Id, x: Id)
    requires Inv(g) && g.phase == Propagating && o in g.m.objs && o !in g.tmudata && !IsWhite(Finish(g), o)
    requires StronglyRefers(g.m.objs, g.m.names, o, x)
    ensures x in g.m.objs && !IsWhite(Finish(g), x)
  {
    MarkPhase(g);
    hide Inv, StructBut, MarkInv, AllExist, Finish, AliveClosed, RootsAlive, OneWhite, KindsOk, Advanced, Tidied,
      StrongFields;
    FinishInv(g, Ids(g.tmudata));
    AdvancedTidied(g.m, Finish(g));
    AdvancedNames(g.m, Finish(g));
    TidyRefers(g.m.objs, Finish(g).objs, g.m.names, o);
    ReachesObject(g.m, o, x);
    HasMark(Finish(g), Ids(g.tmudata), [], 3);
    assert o in Finish(g).objs by { TidiedKeys(g.m.objs, Finish(g).objs); }
    DoneMarks(Finish(g), Ids(g.tmudata), o, x);
  }

  lemma TidiedKeys(objs: Heap, objs': Heap)
    requires Tidied(objs, objs')
    ensures objs'.Keys == objs.Keys
  {
  }

  lemma ReachesObject(m: Marking, o: Id, x: Id)
    requires AllExist(m) && StronglyRefers(m.objs, m.names, o, x)
    ensures x in m.objs
  {
    StrongIsLess(m.objs, m.names, o, x);
    assert Refers(m.objs, o, x);
  }

  /** Whatever has been marked so far, a userdata to which such a way leads is not moved. */
  lemma ReachedIsNotMoved(g: G, p: seq<Id>)
    requires Inv(g) && g.phase == Propagating && PastQueue(g, p)
    ensures p[|p| - 1] !in Separate(Finish(g), g.udata).moved
  {
    PastQueueMarked(g, p);
    MovedIs(g, p[|p| - 1]);
    hide Inv, PastQueue, Finish;
  }

  /** So a userdata that awaits its finalizer is moved, or marked already. */
  lemma MovedOrReached(g: G, u: Id)
    requires Inv(g) && g.phase == Propagating
    ensures u in Separate(Finish(g), g.udata).moved ==> Awaiting(g, u) || StronglyReachable(g, u)
    ensures Awaiting(g, u) ==>
              u in g.m.objs && (u in g.tmudata + Separate(Finish(g), g.udata).moved || !IsWhite(Finish(g), u))
  {
    MovedIs(g, u);
    hide Inv, Finish, StronglyReachable, HasFinalizer;
  }

  // ---------------------------------------------------------------- the marks before tables are cleared

  lemma ColoursInside(m: Marking, m': Marking, S: set<Id>)
    requires Inside(m, S) && SameColours(m, m')
    ensures Inside(m', S)
  {
    assert m'.objs == m.objs && m'.names == m.names;
    hide ClosedSet, WeakKeys, WeakValues;
  }

  lemma {:induction false} SeparateColours(m: Marking, us: seq<Id>)
    ensures SameColours(m, Separate(m, us).m)
    decreases |us|
  {
    if us != [] {
      FinalizedColours(m, us[0]);
      SeparateColours(SetFinalized(m, us[0]), us[1..]);
    }
  }

  lemma WhitenedInside(m: Marking, u: Id, S: set<Id>)
    requires Inside(m, S)
    ensures Inside(SetColour(m, u, White(m.cw)), S)
  {
    hide ClosedSet, WeakKeys, WeakValues;
  }

  lemma {:induction false} MarkTmuInside(m: Marking, us: seq<Id>, S: set<Id>)
    requires Inside(m, S) && forall u :: u in us ==> u in S
    ensures Inside(MarkTmu(m, us), S)
    decreases |us|
  {
    hide Inside;
    if us != [] {
      var m1 := SetColour(m, us[0], White(m.cw));
      WhitenedInside(m, us[0], S);
      assert ValsWithin(m1, [Ref(us[0])], S);
      MarkAllInside(m1, [Ref(us[0])], S);
      MarkTmuInside(MarkAll(m1, [Ref(us[0])]), us[1..], S);
    }
  }

  lemma MovedInFinish(g: G)
    requires Inv(g) && g.phase == Propagating
    ensures var s := Separate(Finish(g), g.udata);
            MarkInv(s.m, Ids(g.tmudata), [], 3)
            && forall u :: u in g.tmudata + s.moved ==> u in s.m.objs && s.m.objs[u].Udata?
  {
    MarkPhase(g);
    hide Inv, StructBut, MarkInv, Finish, AliveClosed, RootsAlive, KindsOk, Advanced, OneWhite, AllExist, Separate;
    FinishInv(g, Ids(g.tmudata));
    var s := Separate(Finish(g), g.udata);
    SeparateInv(Finish(g), Ids(g.tmudata), g.udata, 3);
    MovedAreUdata(g, s);
    AdvancedTidied(g.m, Finish(g));
    hide UdataOk, SameUdata, Tidied, HomesOk, FixedOk, UpvalsListed;
    forall u | u in g.tmudata + s.moved
      ensures u in s.m.objs && s.m.objs[u].Udata?
    {
      TidiedUdata(g.m.objs, Finish(g).objs, u);
    }
  }

  lemma TmuInv(g: G)
    requires Inv(g) && g.phase == Propagating
    ensures var s := Separate(Finish(g), g.udata);
            MarkInv(MarkTmu(s.m, g.tmudata + s.moved), {}, [], 3)
              && Preserved(g) == PropagateAll(MarkTmu(s.m, g.tmudata + s.moved))
  {
    var s := Separate(Finish(g), g.udata);
    hide Inv, MarkInv, Finish, Advanced, Separate;
    MovedInFinish(g);
    MarkTmuInv(s.m, Ids(g.tmudata), g.tmudata + s.moved, 3);
    assert Ids(g.tmudata) - Ids(g.tmudata + s.moved) == {};
  }

  lemma TmuSpared(g: G, T: set<Id>)
    requires Inv(g) && g.phase == Propagating && IsSpared(g, T)
    ensures forall u :: u in g.tmudata + Separate(Finish(g), g.udata).moved ==> u in T
  {
    SparedClosed(g, T);
    hide Inv, Finish, IsSpared, StronglyReachable, Awaiting;
    forall u | u in g.tmudata + Separate(Finish(g), g.udata).moved ensures u in T { MovedOrReached(g, u); }
  }

  /** Marks stay in a closed set that holds the roots and the userdata that are queued. */
  lemma PreservedWithin(g: G, S: set<Id>)
    requires Inv(g) && g.phase == Propagating && Inside(g.m, S) && (forall x :: Ref(x) in RootVals(g) ==> x in S)
    requires forall u :: u in g.tmudata + Separate(Finish(g), g.udata).moved ==> u in S
    ensures Inside(Preserved(g), S)
  {
    var s := Separate(Finish(g), g.udata);
    hide Inv, Inside, Finish, MarkInv, RootVals;
    FinishWithin(g, S);
    SeparateColours(Finish(g), g.udata);
    ColoursInside(Finish(g), s.m, S);
    MarkTmuInside(s.m, g.tmudata + s.moved, S);
    TmuInv(g);
    PropagateAllInside(MarkTmu(s.m, g.tmudata + s.moved), {}, S, 3);
  }

  /** Nothing else is marked. */
  lemma PreservedInside(g: G, T: set<Id>)
    requires Inv(g) && g.phase == Propagating && Inside(g.m, T) && IsSpared(g, T)
    ensures Inside(Preserved(g), T)
  {
    SparedClosed(g, T);
    TmuSpared(g, T);
    assert forall x :: Ref(x) in RootVals(g) ==> Source(g, x);
    hide Inv, Inside, Finish, Source, StronglyReachable, IsSpared;
    PreservedWithin(g, T);
  }

  lemma SourcePreserved(g: G, x: Id)
    requires Inv(g) && g.phase == Propagating && Source(g, x)
    ensures x in g.m.objs && !IsWhite(Preserved(g), x)
  {
    if Ref(x) in RootVals(g) {
      RootsPreserved(g, x);
    } else {
      MovedOrReached(g, x);
      MarkPhase(g);
      assert x in g.m.objs by { if x in g.tmudata { QueuedKind(g, x); } }
      hide Inv, StructBut, MarkInv, Finish, Preserved, AliveClosed, RootsAlive, KindsOk, OneWhite, AllExist, Awaiting;
      PreservedInv(g);
      if x !in g.tmudata + Separate(Finish(g), g.udata).moved { StaysMarked(Finish(g), Preserved(g), x); }
    }
  }

  lemma SparedIsPreserved(g: G, x: Id)
    requires Inv(g) && g.phase == Propagating && Spared(g, x)
    ensures x in g.m.objs && !IsWhite(Preserved(g), x)
  {
    var p :| StrongPath(g.m.objs, g.m.names, p) && Source(g, p[0]) && p[|p| - 1] == x;
    SourcePreserved(g, p[0]);
    MarkPhase(g);
    PreservedIs(g);
    hide Inv, StructBut, MarkInv, Preserved, AllExist, StrongPath, Source, AliveClosed, RootsAlive, OneWhite, KindsOk,
      Advanced, Reshaped;
    FinishedPath(g.m, Preserved(g), p);
  }

  /** When weak tables are about to be cleared, exactly the spared objects are marked, if no others were before. */
  lemma PreservedExact(g: G, T: set<Id>, x: Id)
    requires Inv(g) && g.phase == Propagating && Inside(g.m, T) && IsSpared(g, T) && x in g.m.objs
    ensures x in Preserved(g).objs && (x in T <==> !IsWhite(Preserved(g), x))
  {
    PreservedIs(g);
    ReshapedKeys(g.m, Preserved(g));
    PreservedInside(g, T);
    hide Inv, Preserved, MarkInv, Reshaped, Advanced;
    if x in T { SparedIsPreserved(g, x); }
  }
}
