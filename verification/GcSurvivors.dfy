/** The exact result of `luaC_fullgc` (lua/lgc.c:636-659). */
module GcSurvivors {
  import opened GcHeap
  import opened GcMark
  import opened GcCollector
  import opened GcAtomic
  import opened GcClear
  import opened GcState
  import opened GcStateMark
  import opened GcSweep
  import opened GcMutator
  import opened GcStrings
  import opened GcSteps
  import opened GcRuns
  import opened GcFull
  import opened GcExact
  import opened GcAwaiting

  // ---------------------------------------------------------------- the atomic step

  /** The objects that a full collection keeps, if `T` are those that are spared. */
  ghost predicate Kept(g: G, T: set<Id>, x: Id) {
    x in g.m.objs && (x in T || (x in g.m.marks && g.m.marks[x].fixed) || FoundWeakly(g.m.objs, g.m.names, T, x))
  }

  /** The list of weak tables holds exactly the weak tables that are marked. */
  lemma WeakListed(m: Marking, S: set<Id>, h: Id)
    requires MarkInv(m, {}, [], 3) && m.gray == [] && BlackStrong(m)
             && (forall x :: x in m.objs ==> (x in S <==> !IsWhite(m, x)))
    ensures h in m.weak <==> h in m.objs && h in S && IsWeak(m.objs, m.names, h)
    ensures h in m.weak ==> h in m.marks && m.objs[h].Table? && m.marks[h].weakVal == WeakValues(m.objs, m.names, h)
  {
    if h in m.weak {
      WeakBits(m, h);
      assert m.marks[h].weakKey == WeakKeys(m.objs, m.names, h) && m.marks[h].weakVal == WeakValues(m.objs, m.names, h);
    }
    if h in m.objs && h in S && IsWeak(m.objs, m.names, h) { GrayTableListed(m, h); }
  }

  lemma GrayTableListed(m: Marking, h: Id)
    requires MarkInv(m, {}, [], 3) && m.gray == [] && h in m.objs && m.objs[h].Table? && IsGray(m, h)
    ensures h in m.weak
  {
    assert Count(m, h) == 1;
  }

  lemma FoundIsFound(m: Marking, S: set<Id>, x: Id)
    requires MarkInv(m, {}, [], 3) && m.gray == [] && BlackStrong(m)
             && (forall y :: y in m.objs ==> (y in S <==> !IsWhite(m, y))) && m.marks.Keys == m.objs.Keys
    ensures FoundBy(m, m.weak, x) && IsStr(m, x) <==> FoundWeakly(m.objs, m.names, S, x)
  {
    hide MarkInv, BlackStrong, Visits;
    if FoundBy(m, m.weak, x) && IsStr(m, x) {
      var h :| h in m.weak && h in m.objs && m.objs[h].Table? && h in m.marks
        && Ref(x) in Visits(m, m.objs[h], m.marks[h].weakVal);
      WeakListed(m, S, h);
      VisitsAre(m, S, m.objs[h], m.marks[h].weakVal, x);
    }
    if FoundWeakly(m.objs, m.names, S, x) {
      var h :| h in S && IsWeak(m.objs, m.names, h) && FoundIn(m.objs, S, m.objs[h], WeakValues(m.objs, m.names, h), x);
      assert h in m.objs by { WeakExists(m.objs, m.names, h); }
      WeakListed(m, S, h);
      VisitsAre(m, S, m.objs[h], m.marks[h].weakVal, x);
    }
  }

  lemma WeakExists(objs: Heap, names: Names, h: Id)
    requires IsWeak(objs, names, h)
    ensures h in objs && objs[h].Table?
  {
  }

  lemma TidyFoundIn(objs: Heap, objs': Heap, names: Names, S: set<Id>, h: Id, s: Id)
    requires Tidied(objs, objs') && h in objs && objs[h].Table?
    ensures objs'[h].Table?
            && (FoundIn(objs', S, objs'[h], WeakValues(objs', names, h), s) <==>
                  FoundIn(objs, S, objs[h], WeakValues(objs, names, h), s))
    ensures IsWeak(objs', names, h) == IsWeak(objs, names, h)
  {
    TidyWeak(objs, objs', names, h);
    assert TidiedAt(objs[h], objs'[h]);
    forall n ensures FoundAt(objs', S, n, s) == FoundAt(objs, S, n, s) { TidyGarbage(objs, objs', S, KeyVal(n.key)); }
    var ns, ns' := objs[h].nodes, objs'[h].nodes;
    forall i | 0 <= i < |ns| ensures FoundAt(objs', S, ns'[i], s) == FoundAt(objs, S, ns[i], s) { }
  }

  lemma TidyGarbage(objs: Heap, objs': Heap, S: set<Id>, v: Val)
    requires Tidied(objs, objs')
    ensures GarbageKey(objs', S, v) == GarbageKey(objs, S, v)
  {
    if v.Ref? && v.id in objs { assert TidiedAt(objs[v.id], objs'[v.id]); }
  }

  lemma TidyFoundWeakly(objs: Heap, objs': Heap, names: Names, S: set<Id>, s: Id)
    requires Tidied(objs, objs')
    ensures FoundWeakly(objs', names, S, s) <==> FoundWeakly(objs, names, S, s)
  {
    if s in objs { assert TidiedAt(objs[s], objs'[s]); }
    forall h | h in objs && objs[h].Table?
      ensures objs'[h].Table?
              && (FoundIn(objs', S, objs'[h], WeakValues(objs', names, h), s) <==>
                    FoundIn(objs, S, objs[h], WeakValues(objs, names, h), s))
      ensures IsWeak(objs', names, h) == IsWeak(objs, names, h)
    {
      TidyFoundIn(objs, objs', names, S, h, s);
    }
    forall h ensures IsWeak(objs', names, h) ==> h in objs && objs[h].Table? {
      if IsWeak(objs', names, h) {
        WeakExists(objs', names, h);
        assert TidiedAt(objs[h], objs'[h]);
      }
    }
    hide WeakKeys, WeakValues, FoundIn;
    if FoundWeakly(objs, names, S, s) {
      var h :| h in S && IsWeak(objs, names, h) && FoundIn(objs, S, objs[h], WeakValues(objs, names, h), s);
      WeakExists(objs, names, h);
    }
    if FoundWeakly(objs', names, S, s) {
      var h :| h in S && IsWeak(objs', names, h) && FoundIn(objs', S, objs'[h], WeakValues(objs', names, h), s);
    }
  }

  /** After the atomic step exactly these objects are alive. */
  lemma AtomicExact(g: G, T: set<Id>, x: Id)
    requires Midway(g, T) && x in g.m.objs
    ensures Alive(Atomic(g).m, x) <==> Kept(g, T, x)
  {
    var m, m' := Preserved(g), Unflipped(g);
    MarkPhase(g);
    PreservedIs(g);
    UnflippedIs(g);
    ReshapedKeys(g.m, m);
    ReshapedKeys(g.m, m');
    AdvancedTidied(g.m, m);
    AdvancedNames(g.m, m);
    assert m'.marks[x].fixed == g.m.marks[x].fixed by { FixedStays(g.m, m', x); }
    hide Inv, OnlyStrings, Reshaped, Advanced, OneWhite, AllExist, Struct, AliveClosed, RootsAlive, KindsOk, Tidied;
    AtomicMarks(g, T, x);
    TidyFoundWeakly(g.m.objs, m.objs, g.m.names, T, x);
    hide Preserved, Unflipped, FoundWeakly, MarkInv, Inside, IsSpared;
    AtomicIs(g);
    FlipAlive(m', x);
  }

  lemma FixedStays(m: Marking, m': Marking, x: Id)
    requires Reshaped(m, m') && x in m.marks
    ensures x in m'.marks && m'.marks[x].fixed == m.marks[x].fixed
  {
  }

  lemma AtomicMarks(g: G, T: set<Id>, x: Id)
    requires Midway(g, T) && x in g.m.objs
    ensures var m := Preserved(g); !IsWhite(Unflipped(g), x) <==> x in T || FoundWeakly(m.objs, m.names, T, x)
  {
    var m := Preserved(g);
    PreservedIs(g);
    ReshapedKeys(g.m, m);
    forall y | y in m.objs ensures y in T <==> !IsWhite(m, y) { PreservedExact(g, T, y); }
    PreservedInside(g, T);
    hide Inv, Preserved, Reshaped, Advanced, IsSpared, FoundWeakly;
    UnflippedWhite(m, T, x);
  }

  lemma UnflippedWhite(m: Marking, S: set<Id>, x: Id)
    requires MarkInv(m, {}, [], 3) && m.gray == [] && Inside(m, S) && m.marks.Keys == m.objs.Keys
             && (forall y :: y in m.objs ==> (y in S <==> !IsWhite(m, y)))
    requires x in m.objs
    ensures !IsWhite(ClearTables(m, m.weak), x) <==> x in S || FoundWeakly(m.objs, m.names, S, x)
  {
    forall h | h in m.weak ensures h in m.objs && m.objs[h].Table? && h in m.marks { WeakBits(m, h); }
    ListsOfInv(m, {}, 3);
    WeakNoDup(m);
    hide MarkInv, FoundBy, FoundWeakly;
    ClearTablesWhite(m, m.weak, x);
    FoundIsFound(m, S, x);
  }

  // ---------------------------------------------------------------- the rest of the cycle

  /** When the sweep is over, exactly the objects that were alive are left. */
  lemma SweptExactly(m: Marking, g: G, x: Id)
    requires Inv(g) && g.phase == Finalize && Purged(m, g.m)
    ensures x in g.m.objs <==> Alive(m, x)
  {
    if x in g.m.objs {
      assert SweptId(g, x) || x in g.tmudata;
      assert Alive(g.m, x);
      assert PurgedAt(m, g.m, x) && KeptAt(m, g.m, x);
    }
  }

  lemma {:induction false} CycleSwept(g: G, n: nat, m: Marking)
    requires Inv(g) && (g.phase == SweepString || g.phase == Sweep || g.phase == Finalize) && n >= Left(g)
             && Purged(m, g.m)
    ensures forall x :: x in CycleOut(g, n).m.objs <==> Alive(m, x)
    decreases n
  {
    hide Inv, Purged, SingleStep, Left;
    if g.phase == Finalize {
      FinalKeys(g, n);
      forall x ensures x in g.m.objs <==> Alive(m, x) { SweptExactly(m, g, x); }
    } else {
      LeftPositive(g);
      StepLeft(g);
      SingleStepKeeps(g);
      SweepingPurges(g);
      PurgedTwice(m, g.m, SingleStep(g).m);
      CycleSwept(SingleStep(g), n - 1, m);
    }
  }

  /** Handing userdata to their finalizers frees nothing. */
  lemma {:induction false} FinalKeys(g: G, n: nat)
    requires Inv(g) && (g.phase == Finalize || g.phase == Pause)
    ensures CycleOut(g, n).m.objs.Keys == g.m.objs.Keys
    decreases n
  {
    hide Inv, SingleStep;
    if n > 0 && g.phase == Finalize {
      SingleStepKeeps(g);
      FinalStep(g);
      FinalKeys(SingleStep(g), n - 1);
    }
  }

  lemma LeftPositive(g: G)
    requires Inv(g) && g.phase != Pause
    ensures Left(g) > 0
  {
    StepLeft(g);
  }

  lemma FinalStep(g: G)
    requires g.phase == Finalize
    ensures (SingleStep(g).phase == Pause || SingleStep(g).phase == Finalize)
            && SingleStep(g).m.objs.Keys == g.m.objs.Keys
  {
  }

  lemma TidyReach(g: G, g': G, x: Id)
    requires Tidied(g.m.objs, g'.m.objs) && g'.m.names == g.m.names && RootVals(g') == RootVals(g)
    ensures StronglyReachable(g', x) <==> StronglyReachable(g, x)
  {
    forall p: seq<Id>
      ensures StrongPath(g'.m.objs, g.m.names, p) == StrongPath(g.m.objs, g.m.names, p)
    {
      TidyPath(g.m, g'.m, p);
    }
  }

  lemma TidyPath(m: Marking, m': Marking, p: seq<Id>)
    requires Tidied(m.objs, m'.objs)
    ensures StrongPath(m'.objs, m.names, p) == StrongPath(m.objs, m.names, p)
  {
    forall o
      ensures StrongFields(m'.objs, m.names, o) == StrongFields(m.objs, m.names, o)
    {
      TidyRefers(m.objs, m'.objs, m.names, o);
    }
  }

  lemma SparedFrame(g: G, g': G, T: set<Id>)
    requires IsSpared(g, T)
    requires forall p: seq<Id> ::
               p != [] && Source(g, p[0]) ==>
                 (StrongPath(g'.m.objs, g'.m.names, p) <==> StrongPath(g.m.objs, g.m.names, p))
    requires forall x :: Source(g', x) <==> Source(g, x)
    ensures IsSpared(g', T)
  {
    hide Source, StronglyRefers;
    forall x ensures Spared(g', x) <==> Spared(g, x) {
      if Spared(g, x) {
        var p :| StrongPath(g.m.objs, g.m.names, p) && Source(g, p[0]) && p[|p| - 1] == x;
        assert StrongPath(g'.m.objs, g'.m.names, p) && Source(g', p[0]);
      }
      if Spared(g', x) {
        var p :| StrongPath(g'.m.objs, g'.m.names, p) && Source(g', p[0]) && p[|p| - 1] == x;
        assert StrongPath(g.m.objs, g.m.names, p) && Source(g, p[0]);
      }
    }
  }

  lemma PropagateKept(g: G, S: set<Id>, x: Id)
    requires Inv(g) && g.phase == Propagating && g.m.gray != []
    ensures Kept(g.(m := Propagate(g.m)), S, x) <==> Kept(g, S, x)
  {
    PropagateAdvanced(g.m);
    AdvancedTidied(g.m, Propagate(g.m));
    AdvancedNames(g.m, Propagate(g.m));
    if x in g.m.marks { FixedAdvanced(g.m, Propagate(g.m), x); }
    AdvancedKeys(g.m, Propagate(g.m));
    hide Propagate, Inv, Advanced, FoundWeakly, Tidied;
    TidyFoundWeakly(g.m.objs, Propagate(g.m).objs, g.m.names, S, x);
  }

  lemma AdvancedKeys(m: Marking, m': Marking)
    requires Advanced(m, m')
    ensures m'.objs.Keys == m.objs.Keys && m'.marks.Keys == m.marks.Keys
  {
  }

  lemma FixedAdvanced(m: Marking, m': Marking, x: Id)
    requires Advanced(m, m') && x in m.marks
    ensures x in m'.marks && m'.marks[x].fixed == m.marks[x].fixed
  {
    assert AdvancedAt(m.marks[x], m'.marks[x]);
  }

  /** What the rest of the cycle needs to know in the mark phase. */
  ghost predicate Midway(g: G, T: set<Id>) {
    Inv(g) && g.phase == Propagating && Inside(g.m, T) && IsSpared(g, T)
  }

  lemma PropagateSpared(g: G, T: set<Id>)
    requires Midway(g, T) && g.m.gray != [] && Inv(g.(m := Propagate(g.m)))
    ensures IsSpared(g.(m := Propagate(g.m)), T)
  {
    var g' := g.(m := Propagate(g.m));
    PropagateAdvanced(g.m);
    AdvancedTidied(g.m, g'.m);
    AdvancedNames(g.m, g'.m);
    PropagateFinal(g.m);
    MarkPhase(g);
    MarkPhase(g');
    assert RootVals(g') == RootVals(g);
    AdvancedKeys(g.m, g'.m);
    hide Propagate, Tidied, Advanced, RootVals, Inv, MarkInv, StructBut, OneWhite, AllExist, AliveClosed, RootsAlive,
      KindsOk, IsSpared, Inside, StrongPath;
    forall x ensures Source(g', x) <==> Source(g, x) {
      TidyReach(g, g', x);
      TidyFinalizer(g.m, g'.m, x);
      AliveInMarking(g.m, x);
      AliveInMarking(g'.m, x);
    }
    forall p: seq<Id>
      ensures StrongPath(g'.m.objs, g'.m.names, p) <==> StrongPath(g.m.objs, g.m.names, p)
    {
      TidyPath(g.m, g'.m, p);
    }
    hide Source;
    SparedFrame(g, g', T);
  }

  lemma InsideAfter(g: G, S: set<Id>)
    requires Inv(g) && g.phase == Propagating && Inside(g.m, S) && g.m.gray != []
    ensures Inside(Propagate(g.m), S)
  {
    MarkPhase(g);
    ListsOfInv(g.m, Ids(g.tmudata), 0);
    hide Inv, Inside, MarkInv, ListsOk, Propagate;
    PropagateInside(g.m, S);
  }

  lemma PropagateMidway(g: G, T: set<Id>)
    requires Midway(g, T) && g.m.gray != []
    ensures Midway(g.(m := Propagate(g.m)), T)
  {
    hide Propagate, Inv, Inside, IsSpared;
    PropagateKeeps(g);
    InsideAfter(g, T);
    PropagateSpared(g, T);
  }

  /** From the mark phase to the end of the cycle. */
  lemma {:induction false} CycleExact(g: G, n: nat, T: set<Id>)
    requires Midway(g, T) && n >= Left(g)
    ensures forall x :: x in CycleOut(g, n).m.objs <==> Kept(g, T, x)
    decreases n
  {
    hide Midway, Inv, Left, Kept, Propagate, Atomic, Purged;
    assert Inv(g) && g.phase == Propagating by { MidwayIs(g, T); }
    LeftPositive(g);
    StepLeft(g);
    SingleStepKeeps(g);
    if g.m.gray != [] {
      assert SingleStep(g) == g.(m := Propagate(g.m));
      PropagateMidway(g, T);
      CycleExact(SingleStep(g), n - 1, T);
      forall x ensures Kept(SingleStep(g), T, x) <==> Kept(g, T, x) { PropagateKept(g, T, x); }
    } else {
      assert SingleStep(g) == Atomic(g);
      AtomicMoves(g);
      CycleSwept(Atomic(g), n - 1, Atomic(g).m);
      forall x ensures Alive(Atomic(g).m, x) <==> Kept(g, T, x) { AtomicKept(g, T, x); }
    }
  }

  lemma MidwayIs(g: G, T: set<Id>)
    requires Midway(g, T)
    ensures Inv(g) && g.phase == Propagating
  {
  }

  lemma AtomicMoves(g: G)
    requires Inv(g) && g.phase == Propagating
    ensures Atomic(g).phase == SweepString && Purged(Atomic(g).m, Atomic(g).m)
  {
    MarkPhase(g);
    AtomicKeeps(g);
    StringTable(Atomic(g));
    PurgedSelf(Atomic(g).m);
    hide Inv, Purged, Finish, Unflipped;
    AtomicIs(g);
  }

  lemma AtomicKept(g: G, T: set<Id>, x: Id)
    requires Midway(g, T)
    ensures Alive(Atomic(g).m, x) <==> Kept(g, T, x)
  {
    AtomicKeeps(g);
    hide Inv, Atomic, Inside, IsSpared;
    if x in g.m.objs { AtomicExact(g, T, x); }
  }

  // ---------------------------------------------------------------- the first sweep

  lemma PurgedMode(m: Marking, m': Marking, mt: Val, name: Id)
    requires Purged(m, m') && (mt.Ref? ==> Alive(m, mt.id))
    ensures MetaField(m'.objs, mt, name) == MetaField(m.objs, mt, name)
  {
    if mt.Ref? {
      PurgedAlive(m, m', mt.id);
      assert KeptAt(m, m', mt.id);
    }
  }

  lemma MetaAlive(m: Marking, mt: Val, name: Id)
    requires AliveClosed(m) && (mt.Ref? ==> Alive(m, mt.id))
    ensures ValAlive(m, MetaField(m.objs, mt, name))
  {
    var v := MetaField(m.objs, mt, name);
    if v.Ref? {
      LookupHeld(m.objs[mt.id].nodes, Ref(name));
      assert Refers(m.objs, mt.id, v.id);
    }
  }

  lemma PurgedTable(m: Marking, m': Marking, h: Id)
    requires Purged(m, m') && AliveClosed(m) && Alive(m, h) && m.objs[h].Table?
    ensures h in m'.objs && m'.objs[h] == m.objs[h]
    ensures WeakKeys(m'.objs, m.names, h) == WeakKeys(m.objs, m.names, h)
            && WeakValues(m'.objs, m.names, h) == WeakValues(m.objs, m.names, h)
  {
    PurgedAlive(m, m', h);
    assert KeptAt(m, m', h);
    var mt := m.objs[h].mt;
    if mt.Ref? { assert Refers(m.objs, h, mt.id); }
    PurgedMode(m, m', mt, m.names.mode);
    MetaAlive(m, mt, m.names.mode);
    var mode := MetaField(m.objs, mt, m.names.mode);
    if mode.Ref? {
      PurgedAlive(m, m', mode.id);
      assert KeptAt(m, m', mode.id);
    }
  }

  lemma PurgedStrong(m: Marking, m': Marking, o: Id)
    requires Purged(m, m') && AliveClosed(m) && Alive(m, o)
    ensures StrongFields(m'.objs, m.names, o) == StrongFields(m.objs, m.names, o)
  {
    PurgedAlive(m, m', o);
    assert KeptAt(m, m', o);
    if m.objs[o].Table? { PurgedTable(m, m', o); }
  }

  lemma PathSplit(objs: Heap, names: Names, p: seq<Id>)
    requires |p| > 1
    ensures StrongPath(objs, names, p) <==>
              StrongPath(objs, names, p[..|p| - 1]) && StronglyRefers(objs, names, p[|p| - 2], p[|p| - 1])
  {
    hide StronglyRefers;
  }

  lemma PurgedEdge(m: Marking, m': Marking, o: Id, x: Id)
    requires Purged(m, m') && AliveClosed(m) && Alive(m, o)
    ensures StronglyRefers(m'.objs, m.names, o, x) <==> StronglyRefers(m.objs, m.names, o, x)
    ensures StronglyRefers(m.objs, m.names, o, x) ==> Alive(m, x)
  {
    hide Purged, Alive, StrongFields;
    PurgedStrong(m, m', o);
    if StronglyRefers(m.objs, m.names, o, x) { StrongIsLess(m.objs, m.names, o, x); }
  }

  lemma {:induction false} PurgedPath(m: Marking, m': Marking, p: seq<Id>)
    requires Purged(m, m') && AliveClosed(m) && p != [] && Alive(m, p[0])
    ensures StrongPath(m.objs, m.names, p) <==> StrongPath(m'.objs, m.names, p)
    ensures StrongPath(m.objs, m.names, p) ==> Alive(m, p[|p| - 1])
    decreases |p|
  {
    hide Purged, AliveClosed, Alive, StronglyRefers;
    if |p| > 1 {
      hide StrongPath;
      var q := p[..|p| - 1];
      PurgedPath(m, m', q);
      PathSplit(m.objs, m.names, p);
      PathSplit(m'.objs, m.names, p);
      if StrongPath(m.objs, m.names, q) { PurgedEdge(m, m', p[|p| - 2], p[|p| - 1]); }
    }
  }

  /** Sweeping does not change what is strongly reachable. */
  lemma PurgedReach(g: G, g': G, x: Id)
    requires Inv(g) && Purged(g.m, g'.m) && RootVals(g') == RootVals(g)
    ensures StronglyReachable(g', x) <==> StronglyReachable(g, x)
    ensures StronglyReachable(g, x) ==> Alive(g.m, x)
  {
    assert g'.m.names == g.m.names;
    forall p: seq<Id> | p != [] && Ref(p[0]) in RootVals(g)
      ensures StrongPath(g'.m.objs, g.m.names, p) <==> StrongPath(g.m.objs, g.m.names, p)
      ensures StrongPath(g.m.objs, g.m.names, p) ==> Alive(g.m, p[|p| - 1])
    {
      assert Alive(g.m, p[0]);
      PurgedPath(g.m, g'.m, p);
    }
    hide Inv, Purged, Alive, StrongPath, RootVals;
    if StronglyReachable(g, x) {
      var p :| StrongPath(g.m.objs, g.m.names, p) && Ref(p[0]) in RootVals(g) && p[|p| - 1] == x;
    }
    if StronglyReachable(g', x) {
      var p :| StrongPath(g'.m.objs, g'.m.names, p) && Ref(p[0]) in RootVals(g') && p[|p| - 1] == x;
    }
  }

  lemma PurgedGarbage(m: Marking, m': Marking, S: set<Id>, v: Val)
    requires Purged(m, m') && (v.Ref? ==> Alive(m, v.id))
    ensures GarbageKey(m'.objs, S, v) == GarbageKey(m.objs, S, v)
  {
    if v.Ref? {
      PurgedAlive(m, m', v.id);
      assert KeptAt(m, m', v.id);
    }
  }

  lemma PurgedFoundIn(m: Marking, m': Marking, S: set<Id>, h: Id, wv: bool, s: Id)
    requires Purged(m, m') && AliveClosed(m) && Alive(m, h) && m.objs[h].Table?
    ensures h in m'.objs && m'.objs[h] == m.objs[h]
            && (FoundIn(m'.objs, S, m.objs[h], wv, s) <==> FoundIn(m.objs, S, m.objs[h], wv, s))
    ensures FoundIn(m.objs, S, m.objs[h], wv, s) ==> Alive(m, s)
  {
    PurgedTable(m, m', h);
    var ns := m.objs[h].nodes;
    forall i | 0 <= i < |ns| && ns[i].val != Nil ensures FoundAt(m'.objs, S, ns[i], s) == FoundAt(m.objs, S, ns[i], s)
      ensures FoundAt(m.objs, S, ns[i], s) ==> Alive(m, s)
    {
      EntryHeld(ns, i);
      if KeyVal(ns[i].key).Ref? { assert Refers(m.objs, h, KeyVal(ns[i].key).id); }
      if ns[i].val.Ref? { assert Refers(m.objs, h, ns[i].val.id); }
      PurgedGarbage(m, m', S, KeyVal(ns[i].key));
    }
    if Ref(s) in m.objs[h].arr { assert Ref(s) in Backward(m.objs[h].arr) && Refers(m.objs, h, s); }
    hide Purged, Alive, FoundAt;
  }

  /** Sweeping does not change which strings are found in weak tables. */
  lemma PurgedFound(m: Marking, m': Marking, S: set<Id>, s: Id)
    requires Purged(m, m') && AliveClosed(m) && forall h :: h in S ==> Alive(m, h)
    ensures FoundWeakly(m'.objs, m.names, S, s) <==> FoundWeakly(m.objs, m.names, S, s)
  {
    forall h | h in S && h in m.objs && m.objs[h].Table?
      ensures h in m'.objs && m'.objs[h] == m.objs[h] && IsWeak(m'.objs, m.names, h) == IsWeak(m.objs, m.names, h)
              && WeakValues(m'.objs, m.names, h) == WeakValues(m.objs, m.names, h)
      ensures FoundIn(m'.objs, S, m.objs[h], WeakValues(m.objs, m.names, h), s) <==>
                FoundIn(m.objs, S, m.objs[h], WeakValues(m.objs, m.names, h), s)
      ensures FoundIn(m.objs, S, m.objs[h], WeakValues(m.objs, m.names, h), s) ==> Alive(m, s)
    {
      PurgedFoundIn(m, m', S, h, WeakValues(m.objs, m.names, h), s);
      PurgedTable(m, m', h);
    }
    forall h | h in S && IsWeak(m'.objs, m.names, h)
      ensures h in m.objs && m.objs[h].Table?
    {
      PurgedIsTable(m, m', h);
    }
    PurgedString(m, m', s);
    hide FoundIn, Alive, Purged, WeakKeys, WeakValues;
    FoundSame(m, m', S, s);
  }

  lemma PurgedIsTable(m: Marking, m': Marking, h: Id)
    requires Purged(m, m') && IsWeak(m'.objs, m.names, h)
    ensures h in m.objs && m.objs[h].Table?
  {
    assert KeptAt(m, m', h);
  }

  lemma PurgedString(m: Marking, m': Marking, s: Id)
    requires Purged(m, m')
    ensures IsStr(m', s) ==> IsStr(m, s)
    ensures IsStr(m, s) && Alive(m, s) ==> IsStr(m', s)
  {
    if s in m'.objs { assert KeptAt(m, m', s); }
  }

  lemma FoundSame(m: Marking, m': Marking, S: set<Id>, s: Id)
    requires forall h :: h in S && h in m.objs && m.objs[h].Table? ==>
      && h in m'.objs && m'.objs[h] == m.objs[h] && IsWeak(m'.objs, m.names, h) == IsWeak(m.objs, m.names, h)
      && WeakValues(m'.objs, m.names, h) == WeakValues(m.objs, m.names, h)
      && (FoundIn(m'.objs, S, m.objs[h], WeakValues(m.objs, m.names, h), s) <==>
            FoundIn(m.objs, S, m.objs[h], WeakValues(m.objs, m.names, h), s))
      && (FoundIn(m.objs, S, m.objs[h], WeakValues(m.objs, m.names, h), s) ==> Alive(m, s))
    requires forall h :: h in S && IsWeak(m'.objs, m.names, h) ==> h in m.objs && m.objs[h].Table?
    requires (IsStr(m', s) ==> IsStr(m, s)) && (IsStr(m, s) && Alive(m, s) ==> IsStr(m', s))
    ensures FoundWeakly(m'.objs, m.names, S, s) <==> FoundWeakly(m.objs, m.names, S, s)
  {
    hide FoundIn, Alive;
    if FoundWeakly(m.objs, m.names, S, s) {
      var h :| h in S && IsWeak(m.objs, m.names, h) && FoundIn(m.objs, S, m.objs[h], WeakValues(m.objs, m.names, h), s);
      assert IsWeak(m'.objs, m.names, h);
    }
    if FoundWeakly(m'.objs, m.names, S, s) {
      var h :| h in S && IsWeak(m'.objs, m.names, h)
        && FoundIn(m'.objs, S, m'.objs[h], WeakValues(m'.objs, m.names, h), s);
      assert IsWeak(m.objs, m.names, h);
    }
  }

  lemma FoundSurvives(m: Marking, m': Marking, S: set<Id>, x: Id)
    requires Purged(m, m') && AliveClosed(m) && (forall h :: h in S ==> Alive(m, h))
             && FoundWeakly(m.objs, m.names, S, x)
    ensures FoundWeakly(m'.objs, m.names, S, x) && x in m'.objs
  {
    hide Purged, AliveClosed, Alive;
    PurgedFound(m, m', S, x);
  }

  lemma PurgedMembers(m: Marking, m': Marking, x: Id)
    requires Purged(m, m') && x in m'.objs
    ensures x in m.objs && x in m.marks && x in m'.marks && m'.marks[x].fixed == m.marks[x].fixed
  {
    assert KeptAt(m, m', x) && PurgedAt(m, m', x);
  }

  lemma PurgedFinalizer(m: Marking, m': Marking, u: Id)
    requires Purged(m, m') && AliveClosed(m) && Alive(m, u)
    ensures u in m'.objs && u in m'.marks && u in m.marks
    ensures HasFinalizer(m'.objs, m.names, u) == HasFinalizer(m.objs, m.names, u)
            && m'.marks[u].finalized == m.marks[u].finalized
  {
    PurgedAlive(m, m', u);
    assert PurgedAt(m, m', u) && KeptAt(m, m', u);
    if m.objs[u].Udata? {
      var mt := m.objs[u].mt;
      if mt.Ref? { assert Refers(m.objs, u, mt.id); }
      PurgedMode(m, m', mt, m.names.gc);
    }
  }

  lemma PurgedSource(g: G, g': G, x: Id)
    requires Inv(g) && Purged(g.m, g'.m) && RootVals(g') == RootVals(g) && g'.tmudata == g.tmudata
    ensures Source(g', x) <==> Source(g, x)
    ensures Source(g, x) ==> Alive(g.m, x)
  {
    assert g'.m.names == g.m.names && AliveClosed(g.m);
    assert Ref(x) in RootVals(g) || x in g.tmudata ==> Alive(g.m, x);
    PurgedReach(g, g', x);
    PurgedAlive(g.m, g'.m, x);
    hide Inv, RootVals, StronglyReachable, Purged, AliveClosed, Alive;
    if Alive(g.m, x) { PurgedFinalizer(g.m, g'.m, x); }
  }

  lemma SparedSame(g: G, g': G, T: set<Id>)
    requires Inv(g) && Purged(g.m, g'.m) && RootVals(g') == RootVals(g) && g'.tmudata == g.tmudata && IsSpared(g, T)
    ensures IsSpared(g', T) && (forall h :: h in T ==> Alive(g.m, h)) && AliveClosed(g.m) && g'.m.names == g.m.names
            && g.m.marks.Keys == g.m.objs.Keys
  {
    hide IsSpared, Source, Alive;
    forall x ensures (Source(g', x) <==> Source(g, x)) && (Source(g, x) ==> Alive(g.m, x)) { PurgedSource(g, g', x); }
    forall p: seq<Id> | p != [] && Source(g, p[0])
      ensures StrongPath(g'.m.objs, g'.m.names, p) <==> StrongPath(g.m.objs, g.m.names, p)
      ensures StrongPath(g.m.objs, g.m.names, p) ==> Alive(g.m, p[|p| - 1])
    {
      PurgedPath(g.m, g'.m, p);
    }
    hide StrongPath, Inv, Purged;
    SparedFrame(g, g', T);
    SparedAlive(g, T);
  }

  lemma SparedAlive(g: G, T: set<Id>)
    requires IsSpared(g, T)
    requires forall p: seq<Id> ::
               p != [] && Source(g, p[0]) && StrongPath(g.m.objs, g.m.names, p) ==> Alive(g.m, p[|p| - 1])
    ensures forall h :: h in T ==> Alive(g.m, h)
  {
    hide Source, Alive;
    forall h | h in T ensures Alive(g.m, h) {
      assert Spared(g, h);
      var p :| StrongPath(g.m.objs, g.m.names, p) && Source(g, p[0]) && p[|p| - 1] == h;
    }
  }

  /** So it does not change what a full collection keeps. */
  lemma PurgedKept(g: G, g': G, S: set<Id>, x: Id)
    requires Inv(g) && Purged(g.m, g'.m) && RootVals(g') == RootVals(g) && g'.tmudata == g.tmudata && IsSpared(g, S)
    ensures Kept(g', S, x) <==> Kept(g, S, x)
  {
    SparedSame(g, g', S);
    hide Inv, Purged, RootVals, AliveClosed, IsSpared, FoundWeakly, Alive;
    PurgedFound(g.m, g'.m, S, x);
    if Kept(g, S, x) {
      if FoundWeakly(g.m.objs, g.m.names, S, x) {
        FoundSurvives(g.m, g'.m, S, x);
      } else {
        PurgedFixedAlive(g.m, g'.m, x);
      }
      PurgedMembers(g.m, g'.m, x);
    }
    if x in g'.m.objs { PurgedMembers(g.m, g'.m, x); }
  }

  lemma PurgedFixedAlive(m: Marking, m': Marking, x: Id)
    requires Purged(m, m') && x in m.objs && (Alive(m, x) || (x in m.marks && m.marks[x].fixed))
    ensures x in m'.objs
  {
    PurgedAlive(m, m', x);
  }

  // ---------------------------------------------------------------- the whole collection

  function Bound(g: G): nat { if Left(g) < 0 then 0 else Left(g) }

  /** `luaC_fullgc`. */
  function FullGc(g: G): G {
    var g0 := Restarted(g);
    var g1 := MarkRoot(SweepOut(g0, Bound(g0)));
    CycleOut(g1, Bound(g1))
  }

  /** The state after the first sweep. */
  function Rested(g: G): G { SweepOut(Restarted(g), Bound(Restarted(g))) }

  lemma RestedKeeps(g: G)
    requires Inv(g)
    ensures Inv(Rested(g)) && Rested(g).phase == Finalize && Purged(Restarted(g).m, Rested(g).m)
    ensures RootVals(Rested(g)) == RootVals(g) && Rested(g).tmudata == g.tmudata
  {
    var g0 := Restarted(g);
    hide Inv, Restarted, SweepOut, Purged, Left;
    RestartedKeeps(g);
    LeftNat(g0);
    SweepOutEnds(g0, Bound(g0));
  }

  /** What `markroot` starts from. */
  function Emptied(m: Marking): Marking { m.(gray := [], grayagain := [], weak := []) }

  function RootMarks(g: G): seq<Val> { [Ref(g.main), GlobalsOf(Emptied(g.m), g.main), g.registry] + g.mts }

  lemma RootMarksWithin(g: G, T: set<Id>)
    requires IsSpared(g, T) && g.main in g.m.objs && g.m.objs[g.main].Thread?
    ensures ValsWithin(Emptied(g.m), RootMarks(g), T)
  {
    SparedClosed(g, T);
    assert Ref(g.main) in RootVals(g);
    hide IsSpared, StronglyReachable;
    forall x | Ref(x) in RootMarks(g) && x in g.m.objs ensures x in T {
      MainHolds(g, x);
      assert Source(g, g.main);
      hide Awaiting, RootVals, RootMarks, StronglyRefers;
    }
  }

  lemma MainHolds(g: G, x: Id)
    requires Ref(x) in RootMarks(g) && g.main in g.m.objs && g.m.objs[g.main].Thread?
    ensures Ref(x) in RootVals(g) || StronglyRefers(g.m.objs, g.m.names, g.main, x)
  {
  }

  /** What is not white is spared. */
  lemma RestWithin(g: G, T: set<Id>, id: Id)
    requires Inv(g) && AtRest(g) && IsSpared(g, T) && id in g.m.marks && !IsWhite(g.m, id)
    ensures id in T && IsBlack(g.m, id) && id in g.m.objs && g.m.objs[id].Udata?
  {
    KindsOfState(g);
    AtRestColour(g, id);
    QueuedKind(g, id);
    SparedClosed(g, T);
    hide Inv, IsSpared, StronglyReachable, Awaiting;
    assert Source(g, id);
  }

  lemma WhiteInside(g: G, T: set<Id>)
    requires Inv(g) && AtRest(g) && IsSpared(g, T)
    ensures Inside(Emptied(g.m), T) && g.main in g.m.objs && g.m.objs[g.main].Thread?
  {
    hide Inv, IsSpared, ClosedSet, AtRest;
    MainIsThread(g);
    SparedClosed(g, T);
    forall id | id in g.m.marks && !IsWhite(g.m, id)
      ensures id in T && id in g.m.objs && g.m.objs[id].Udata?
    {
      RestWithin(g, T, id);
    }
  }

  lemma MainIsThread(g: G)
    requires Inv(g)
    ensures g.main in g.m.objs && g.m.objs[g.main].Thread?
  {
    StructIs(g, {});
  }

  lemma MarkRootInside(g: G, T: set<Id>)
    requires Inv(g) && AtRest(g) && IsSpared(g, T)
    ensures Inside(MarkRoot(g).m, T)
  {
    WhiteInside(g, T);
    RootMarksWithin(g, T);
    assert MarkRoot(g).m == MarkAll(Emptied(g.m), RootMarks(g));
    hide Inside, Inv, IsSpared, RootMarks, Emptied, MarkRoot;
    MarkAllInside(Emptied(g.m), RootMarks(g), T);
  }

  lemma MarkRootSame(g: G)
    ensures var g' := MarkRoot(g);
            && g'.phase == Propagating && RootVals(g') == RootVals(g) && g'.m.names == g.m.names
            && g'.m.objs == g.m.objs && g'.m.marks.Keys == g.m.marks.Keys
            && g'.tmudata == g.tmudata && forall x :: x in g.m.marks ==> g'.m.marks[x].fixed == g.m.marks[x].fixed
  {
    MarkAllMarked(Emptied(g.m), RootMarks(g));
    forall x | x in g.m.marks
      ensures MarkRoot(g).m.marks[x].fixed == g.m.marks[x].fixed
    {
      assert MarkedAt(Emptied(g.m), MarkRoot(g).m, x);
    }
  }

  lemma MarkRootMidway(g: G, T: set<Id>)
    requires Inv(g) && AtRest(g) && IsSpared(g, T)
    ensures Midway(MarkRoot(g), T) && forall x :: Kept(MarkRoot(g), T, x) <==> Kept(g, T, x)
  {
    hide Inv, MarkRoot, Inside, FoundWeakly, RootVals, IsSpared;
    MarkRootKeeps(g);
    MarkRootInside(g, T);
    MarkRootSame(g);
    MarkRootSpared(g, T);
  }

  lemma MarkRootSpared(g: G, T: set<Id>)
    requires Inv(g) && AtRest(g) && IsSpared(g, T)
    ensures IsSpared(MarkRoot(g), T)
  {
    var g' := MarkRoot(g);
    hide Inv, MarkRoot, IsSpared, StrongPath, AtRest;
    MarkRootSame(g);
    forall x ensures Source(g', x) <==> Source(g, x) { MarkRootSource(g, x); }
    hide Source;
    SparedFrame(g, g', T);
  }

  lemma MarkRootFinal(g: G)
    ensures SameFinal(g.m, MarkRoot(g).m)
  {
    MarkAllFinal(Emptied(g.m), RootMarks(g));
  }

  lemma MarkRootSource(g: G, x: Id)
    requires Inv(g) && AtRest(g)
    ensures Source(MarkRoot(g), x) <==> Source(g, x)
  {
    var g' := MarkRoot(g);
    MarkRootFinal(g);
    hide Inv, MarkRoot, RootVals, StructBut, MarkInv, OneWhite, AliveClosed, RootsAlive, KindsOk, AllExist, UdataOk,
      AtRest;
    MarkRootKeeps(g);
    MarkRootSame(g);
    FreshMarking(g);
    MarkPhase(g');
    AliveInMarking(g.m, x);
    AliveInMarking(g'.m, x);
    SameReach(g, g', x);
  }

  lemma SameReach(g: G, g': G, x: Id)
    requires g'.m.objs == g.m.objs && g'.m.names == g.m.names && RootVals(g') == RootVals(g)
    ensures StronglyReachable(g', x) <==> StronglyReachable(g, x)
  {
  }

  /** What a full collection spares because of references: a program can compute it before the call. */
  ghost function Sparing(g: G): set<Id> { set x | x in g.m.objs && Spared(g, x) }

  lemma SparingIs(g: G)
    requires Inv(g)
    ensures IsSpared(g, Sparing(g))
  {
    forall x | Spared(g, x) ensures x in g.m.objs { SparedExists(g, x); }
  }

  lemma SparedExists(g: G, x: Id)
    requires Inv(g) && Spared(g, x)
    ensures Alive(g.m, x)
  {
    var p :| StrongPath(g.m.objs, g.m.names, p) && Source(g, p[0]) && p[|p| - 1] == x;
    PurgedSelf(g.m);
    PurgedSource(g, g, p[0]);
    PurgedPath(g.m, g.m, p);
  }

  lemma RestedKept(g: G, T: set<Id>)
    requires Inv(g) && IsSpared(g, T)
    ensures IsSpared(Rested(g), T) && forall x :: Kept(Rested(g), T, x) <==> Kept(g, T, x)
  {
    hide Inv, Rested, Restarted, Purged, IsSpared, FoundWeakly;
    RestartedKeeps(g);
    RestedKeeps(g);
    RestartedSpared(g, T);
    SparedSame(Restarted(g), Rested(g), T);
    forall x ensures Kept(Rested(g), T, x) <==> Kept(g, T, x) { PurgedKept(Restarted(g), Rested(g), T, x); }
  }

  lemma RestartedSpared(g: G, T: set<Id>)
    requires Inv(g) && IsSpared(g, T)
    ensures IsSpared(Restarted(g), T)
  {
    var g' := Restarted(g);
    RestartedKeeps(g);
    assert g'.m.cw == g.m.cw;
    hide Inv, Restarted, RootVals, IsSpared, StrongPath;
    forall x ensures Source(g', x) <==> Source(g, x) { SameReach(g, g', x); }
    hide Source;
    SparedFrame(g, g', T);
  }

  /** `luaC_fullgc` from any state of the collector: an object is left exactly if a way without weak references
      led to it from a root, from a userdata in `tmudata`, or from a userdata that awaited its finalizer, or if it
      was fixed, or a string that was found in a weak table. A string that is the key of an entry is found even
      if the entry is removed. All that is left has the current white, and nothing refers, weakly or strongly, to
      an object that is not left. */
  lemma FullGcExact(g: G, x: Id)
    requires Inv(g)
    ensures Inv(FullGc(g)) && FullGc(g).phase == Pause
    ensures x in FullGc(g).m.objs <==> Kept(g, Sparing(g), x)
    ensures x in FullGc(g).m.objs ==> Clean(FullGc(g).m, x)
    ensures forall y :: x in FullGc(g).m.objs && Refers(FullGc(g).m.objs, x, y) ==> y in FullGc(g).m.objs
  {
    var T, g1 := Sparing(g), Rested(g);
    hide Inv, Sparing, Rested, Kept, IsSpared, Midway, MarkRoot, Left, Refers, CycleOut;
    SparingIs(g);
    RestedKeeps(g);
    RestedKept(g, T);
    MarkRootMidway(g1, T);
    MarkRootKeeps(g1);
    var g2 := MarkRoot(g1);
    FullGcIs(g);
    hide FullGc;
    LeftNat(g2);
    CycleOutEnds(g2, Bound(g2));
    CycleExact(g2, Bound(g2), T);
    SurvivorsClean(FullGc(g), x);
  }

  lemma FullGcIs(g: G)
    ensures FullGc(g) == CycleOut(MarkRoot(Rested(g)), Bound(MarkRoot(Rested(g))))
  {
    hide CycleOut, MarkRoot, SweepOut, Restarted, Left;
  }

  lemma SurvivorsClean(g: G, x: Id)
    requires Inv(g) && g.phase == Pause
    ensures x in g.m.objs ==> Clean(g.m, x) && forall y :: Refers(g.m.objs, x, y) ==> y in g.m.objs
  {
    if x in g.m.objs {
      assert SweptId(g, x);
      forall y | Refers(g.m.objs, x, y) ensures y in g.m.objs { assert Alive(g.m, x); }
    }
  }

  /** If nothing awaits its finalizer, what is spared is what is strongly reachable. */
  lemma NothingAwaits(g: G, x: Id)
    requires g.tmudata == [] && forall u :: !Awaiting(g, u)
    ensures Spared(g, x) <==> StronglyReachable(g, x)
  {
    if StronglyReachable(g, x) { ReachIsSpared(g, x); }
    if Spared(g, x) {
      var p :| StrongPath(g.m.objs, g.m.names, p) && Source(g, p[0]) && p[|p| - 1] == x;
      assert Ref(p[0]) in RootVals(g);
    }
  }

  // ---------------------------------------------------------------- a full collection is a run

  /** A full collection is a sequence of steps of the collector, between which the program may take its own. */
  lemma FullGcIsRun(g: G)
    requires Inv(g)
    ensures exists run ::
              IsRun(g, run) && After(g, run) == FullGc(g)
              && forall a :: a in run ==> a == Collect || a == Restart || a == MarkAgain
  {
    var g0, g1 := Restarted(g), Rested(g);
    hide Inv, Restarted, MarkRoot, SweepOut, CycleOut, Left, SingleStep, FullGc, Rested;
    RestartedKeeps(g);
    RestedKeeps(g);
    FullGcIs(g);
    StringTable(g);
    RestedIs(g);
    var r1 := SweepRun(g0, Bound(g0));
    MarkRootKeeps(g1);
    StringTable(g1);
    var r2 := CycleRun(MarkRoot(g1), Bound(MarkRoot(g1)));
    assert After(g, [Restart] + r1) == g1 && IsRun(g, [Restart] + r1) by { assert ([Restart] + r1)[1..] == r1; }
    assert After(g1, [MarkAgain] + r2) == FullGc(g) && IsRun(g1, [MarkAgain] + r2) by {
      assert ([MarkAgain] + r2)[1..] == r2;
    }
    RunJoins(g, [Restart] + r1, [MarkAgain] + r2);
    assert IsRun(g, [Restart] + r1 + ([MarkAgain] + r2));
  }

  lemma RestedIs(g: G)
    ensures Rested(g) == SweepOut(Restarted(g), Bound(Restarted(g)))
  {
    hide SweepOut, Restarted, Left;
  }

  lemma {:induction false} RunJoins(g: G, r1: seq<Action>, r2: seq<Action>)
    requires IsRun(g, r1) && IsRun(After(g, r1), r2)
    ensures IsRun(g, r1 + r2) && After(g, r1 + r2) == After(After(g, r1), r2)
    decreases |r1|
  {
    hide Enabled, Apply;
    if r1 == [] {
      assert r1 + r2 == r2;
    } else {
      assert (r1 + r2)[0] == r1[0] && (r1 + r2)[1..] == r1[1..] + r2;
      RunJoins(Apply(g, r1[0]), r1[1..], r2);
    }
  }

  lemma {:induction false} SweepRun(g: G, n: nat) returns (run: seq<Action>)
    requires Inv(g)
    ensures IsRun(g, run) && After(g, run) == SweepOut(g, n) && forall a :: a in run ==> a == Collect
    decreases n
  {
    hide Inv, SingleStep;
    if n == 0 || g.phase == Finalize {
      run := [];
    } else {
      StringTable(g);
      SingleStepKeeps(g);
      run := SweepRun(SingleStep(g), n - 1);
      assert ([Collect] + run)[1..] == run;
      run := [Collect] + run;
    }
  }

  lemma {:induction false} CycleRun(g: G, n: nat) returns (run: seq<Action>)
    requires Inv(g)
    ensures IsRun(g, run) && After(g, run) == CycleOut(g, n) && forall a :: a in run ==> a == Collect
    decreases n
  {
    hide Inv, SingleStep;
    if n == 0 || g.phase == Pause {
      run := [];
    } else {
      StringTable(g);
      SingleStepKeeps(g);
      run := CycleRun(SingleStep(g), n - 1);
      assert ([Collect] + run)[1..] == run;
      run := [Collect] + run;
    }
  }
}
