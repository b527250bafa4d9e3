/** One step of the collector (lua/lgc.c:563-607) keeps the invariant and frees only dead objects. */
module GcSteps {
  import opened GcHeap
  import opened GcMark
  import opened GcCollector
  import opened GcState
  import opened GcStateMark
  import opened GcSweep
  import opened GcClose
  import opened GcSweepElem
  import opened GcMutator
  import opened GcAllocate
  import opened GcStrings
  import opened GcCloseAll

  // ---------------------------------------------------------------- the end of the sweep

  lemma SweepElemElse(g: G)
    requires g.swept < |RootList(g)|
    ensures var g' := SweepElem(g);
            g'.tmudata == g.tmudata && g'.strt == g.strt && g'.nuse == g.nuse && g'.main == g.main && g'.cur == g.cur
              && g'.registry == g.registry && g'.mts == g.mts
  {
    var g1 := SweepOpen(g, RootList(g)[g.swept]);
    var id := RootList(g1)[g1.swept];
    if IsDead(g1.m, id) { CloseElse(Unlink(g1), id, 0, |OpenList(Unlink(g1).m, id)|); }
  }

  lemma {:induction false} CloseElse(g: G, th: Id, level: nat, n: nat)
    ensures var g' := Close(g, th, level, n);
            g'.tmudata == g.tmudata && g'.strt == g.strt && g'.nuse == g.nuse && g'.main == g.main && g'.cur == g.cur
              && g'.registry == g.registry && g'.mts == g.mts
    decreases n
  {
    var l := OpenList(g.m, th);
    if !(n == 0 || l == [] || !AtOrAbove(g.m, l[0], level)) {
      CloseFirstElse(g, th);
      hide CloseFirst;
      CloseElse(CloseFirst(g, th), th, level, n - 1);
    }
  }

  lemma {:induction false} SweepElemsElse(g: G, count: nat)
    ensures SweepElems(g, count).tmudata == g.tmudata && RootVals(SweepElems(g, count)) == RootVals(g)
    decreases count
  {
    if !(count == 0 || g.swept >= |RootList(g)|) {
      SweepElemElse(g);
      hide SweepElem;
      SweepElemsElse(SweepElem(g), count - 1);
    }
  }

  /** When the position is at the end, everything has been swept. */
  lemma EverythingSwept(g: G)
    requires IdleInv(g) && g.phase == Sweep && g.swept >= |RootList(g)|
    ensures SweptOk(g.(phase := Finalize))
  {
    var g' := g.(phase := Finalize);
    BaseParts(g);
    StructIs(g, {});
    assert RootList(g)[..g.swept] == RootList(g);
    forall id | id in g'.m.objs && SweptId(g', id) ensures Clean(g'.m, id) { SweptAtEnd(g, id); }
  }

  lemma SweptAtEnd(g: G, id: Id)
    requires g.phase == Sweep && g.swept == |RootList(g)| && RootList(g)[..g.swept] == RootList(g) && SweptOk(g)
    requires RootsOk(g, {}) && UdataOk(g, {}) && HomesOk(g.m) && id in g.m.objs && SweptId(g.(phase := Finalize), id)
    ensures Clean(g.m, id)
  {
    assert HomeOk(g.m, id);
    match g.m.objs[id]
    case Str(_) => assert SweptId(g, id);
    case Upval(Open(th, _)) => InRootList(g, th); assert SweptId(g, id);
    case _ => InRootList(g, id); assert SweptId(g, id);
  }

  lemma InRootList(g: G, id: Id)
    requires RootsOk(g, {}) && UdataOk(g, {}) && id in g.m.objs
             && (RootKind(g.m.objs[id]) || (g.m.objs[id].Udata? && id !in g.tmudata))
    ensures id in RootList(g)
  {
    if RootKind(g.m.objs[id]) { assert multiset(g.rootgc)[id] == 1; } else { assert multiset(g.udata)[id] == 1; }
  }

  lemma FinalizeIdle(g: G)
    requires IdleInv(g) && g.phase == Sweep && g.swept >= |RootList(g)|
    ensures IdleInv(g.(phase := Finalize))
  {
    var g' := g.(phase := Finalize);
    EverythingSwept(g);
    MovesBase(g, g');
    assert RootList(g') == RootList(g);
    hide SweptOk, BaseInv, RootList;
  }

  /** The positions of the sweep and the phase are not part of the structure. */
  lemma MovesBase(g: G, g': G)
    requires BaseInv(g) && g' == g.(swept := g'.swept, sweepstr := g'.sweepstr, phase := g'.phase)
    ensures BaseInv(g')
  {
    assert RootVals(g') == RootVals(g);
    hide AliveClosed, KindsOk, Alive, Struct;
    SweptMoves(g, g');
  }

  lemma IdleOfSweep(g: G, g': G)
    requires IdleInv(g) && g.phase == Sweep && RestInv(g', {}) && g'.phase == Sweep
    ensures IdleInv(g')
  {
  }

  lemma CheckSizesKeeps(g: G)
    requires Inv(g)
    ensures Inv(CheckSizes(g)) && CheckSizes(g).m == g.m && CheckSizes(g).phase == g.phase
            && RootList(CheckSizes(g)) == RootList(g) && CheckSizes(g).swept == g.swept
  {
    hide Inv;
    if g.nuse < |g.strt| / 4 && |g.strt| > MINSTRTABSIZE * 2 { ResizeKeeps(g, |g.strt| / 2); }
  }

  lemma SweepStepKeeps(g: G)
    requires Inv(g) && g.phase == Sweep
    ensures Inv(SweepStep(g)) && Purged(g.m, SweepStep(g).m)
  {
    hide Inv, IdleInv, RestInv, Purged, SweepElems, CheckSizes, RootList;
    var g1 := SweepElems(g, GCSWEEPMAX);
    IdleIs(g);
    RestOfIdle(g);
    SweepElemsRest(g, GCSWEEPMAX);
    IdleOfSweep(g, g1);
    IdleIs(g1);
    if g1.swept >= |RootList(g1)| {
      CheckSizesKeeps(g1);
      IdleIs(CheckSizes(g1));
      FinalizeIdle(CheckSizes(g1));
      IdleIs(SweepStep(g));
    }
  }

  // ---------------------------------------------------------------- finalizers

  /** `Gctm` before the finalizer is pushed. */
  function Returned(g: G): G
    requires g.tmudata != []
  {
    var u := g.tmudata[0];
    g.(tmudata := g.tmudata[1..], udata := [u] + g.udata, m := SetColour(g.m, u, White(g.m.cw)))
  }

  lemma ReturnedIs(g: G)
    requires g.tmudata != []
    ensures SameUdata(g, Returned(g)) && |RootList(Returned(g))| == |RootList(g)| + 1
    ensures forall u :: u in Returned(g).tmudata ==> u in g.tmudata
    ensures RootVals(Returned(g)) == RootVals(g)
  {
    var u, g' := g.tmudata[0], Returned(g);
    assert g.tmudata == [u] + g.tmudata[1..];
    forall id
      ensures multiset(g'.udata)[id] + multiset(g'.tmudata)[id] == multiset(g.udata)[id] + multiset(g.tmudata)[id]
    {
      assert multiset(g.tmudata)[id] == multiset(g.tmudata[1..])[id] + if id == u then 1 else 0;
    }
  }

  lemma ReturnedStruct(g: G)
    requires Struct(g) && g.tmudata != []
    ensures Struct(Returned(g))
  {
    StructIs(g, {});
    ReturnedIs(g);
    CurIsThread(g);
    WhitenReshapes(g.m, g.tmudata[0], g.m.cw);
    assert Returned(g).m == SetColour(g.m, g.tmudata[0], White(g.m.cw));
    hide StructBut, RootsOk, UdataOk, StringsOk, OpenOk, ThreadsOk, HomesOk, Interned, FixedOk, Reshaped, SetColour,
      StringIds, SameUdata;
    ReshapedStruct(g, Returned(g), {});
  }

  lemma ReturnedAlive(g: G)
    requires BaseInv(g) && g.tmudata != []
    ensures AliveClosed(Returned(g).m) && RootsAlive(Returned(g)) && Alive(Returned(g).m, g.tmudata[0])
            && KindsOk(Returned(g).m)
    ensures g.tmudata[0] in g.m.objs
  {
    var u := g.tmudata[0];
    assert u in g.tmudata && Alive(g.m, u);
    WhiteKinds(g.m, u);
    RecolourAlive(g, u, White(g.m.cw));
    ReturnedIs(g);
    assert Returned(g).m == SetColour(g.m, u, White(g.m.cw));
    hide AliveClosed, KindsOk, Struct, SetColour, RootVals;
  }

  lemma ReturnedSwept(g: G)
    requires SweptOk(g) && g.phase == Finalize && g.tmudata != [] && g.m.marks.Keys == g.m.objs.Keys
    ensures SweptOk(Returned(g))
  {
    var g', u := Returned(g), g.tmudata[0];
    assert g.tmudata == [u] + g.tmudata[1..];
    forall id | id in g'.m.objs && SweptId(g', id) ensures Clean(g'.m, id) {
      if id != u { assert SweptId(g, id); }
    }
  }

  lemma ReturnedKeeps(g: G)
    requires IdleInv(g) && g.phase == Finalize && g.tmudata != []
    ensures IdleInv(Returned(g)) && Alive(Returned(g).m, g.tmudata[0])
  {
    BaseParts(g);
    hide Struct, AliveClosed, RootsAlive, KindsOk, SweptOk, Alive, RootList, HomesOk, ThreadsOk, FixedOk;
    ReturnedIs(g);
    ReturnedStruct(g);
    ReturnedAlive(g);
    ReturnedSwept(g);
  }

  lemma {:induction false} LookupHeld(nodes: seq<Node>, key: Val)
    requires Lookup(nodes, key) != Nil
    ensures Lookup(nodes, key) in NodeVals(nodes, false, false)
    decreases |nodes|
  {
    if nodes[0].key == Live(key) && nodes[0].val != Nil {
      EntryHeld(nodes, 0);
    } else {
      LookupHeld(nodes[1..], key);
      TailVals(nodes, Lookup(nodes[1..], key));
    }
  }

  lemma {:induction false} TailVals(nodes: seq<Node>, v: Val)
    requires nodes != [] && v in NodeVals(nodes[1..], false, false)
    ensures v in NodeVals(nodes, false, false)
    decreases |nodes|
  {
    var last := nodes[|nodes| - 1];
    if |nodes| > 1 {
      assert nodes[1..][|nodes| - 2] == last && nodes[1..][..|nodes| - 2] == nodes[..|nodes| - 1][1..];
      if v !in EntryVals(last, false, false) { TailVals(nodes[..|nodes| - 1], v); }
    }
  }

  /** The finalizer is held by the metatable of the userdata. */
  lemma FinalizerAlive(m: Marking, u: Id)
    requires AliveClosed(m) && Alive(m, u) && m.objs[u].Udata?
    ensures ValAlive(m, MetaField(m.objs, m.objs[u].mt, m.names.gc))
  {
    var mt, v := m.objs[u].mt, MetaField(m.objs, m.objs[u].mt, m.names.gc);
    if v.Ref? {
      LookupHeld(m.objs[mt.id].nodes, Ref(m.names.gc));
      assert Refers(m.objs, u, mt.id) && Refers(m.objs, mt.id, v.id);
    }
  }

  /** Values pushed on a stack must be alive. */
  lemma PushOk(m: Marking, th: Id, vs: seq<Val>)
    requires th in m.objs && m.objs[th].Thread? && HomesOk(m) && AliveClosed(m)
    requires forall v :: v in vs ==> ValAlive(m, v)
    ensures Push(m, th, vs) == SetObj(m, th, m.objs[th].(stack := m.objs[th].stack + vs))
    ensures StoreOk(m, th, m.objs[th].(stack := m.objs[th].stack + vs))
  {
    var obj := m.objs[th].(stack := m.objs[th].stack + vs);
    var m' := SetObj(m, th, obj);
    forall u ensures HomeOk(m', u) { assert HomeOk(m, u); }
    if Alive(m, th) {
      forall v | v in Fields(m'.objs, obj, false, false) ensures ValAlive(m, v) {
        if v.Ref? && v !in vs { assert Refers(m.objs, th, v.id); }
      }
    }
    forall u | OpenOn(m, u, th)
      ensures HomeVal(m'.objs, m.objs[u].home) == HomeVal(m.objs, m.objs[u].home)
    {
      assert HomeOk(m, u);
    }
  }

  lemma PushKeeps(g: G, vs: seq<Val>)
    requires Inv(g) && forall v :: v in vs ==> ValAlive(g.m, v)
    ensures Inv(g.(m := Push(g.m, g.cur, vs))) && Push(g.m, g.cur, vs).objs.Keys == g.m.objs.Keys
  {
    BaseOf(g);
    BaseParts(g);
    CurIsThread(g);
    PushOk(g.m, g.cur, vs);
    hide Inv, StoreOk, BaseInv;
    StackKeeps(g, g.cur, g.m.objs[g.cur].(stack := g.m.objs[g.cur].stack + vs));
  }

  lemma GctmUdata(g: G)
    requires Struct(g) && g.tmudata != []
    ensures g.tmudata[0] in g.m.objs && g.m.objs[g.tmudata[0]].Udata?
  {
    StructIs(g, {});
    assert multiset(g.tmudata)[g.tmudata[0]] >= 1;
  }

  lemma GctmIs(g: G)
    requires g.tmudata != []
    ensures var g1, u := Returned(g), g.tmudata[0];
            var tm := if u in g.m.objs && g.m.objs[u].Udata? then MetaField(g.m.objs, g.m.objs[u].mt, g.m.names.gc)
              else Nil;
            && Gctm(g) == (if tm == Nil then g1 else g1.(m := Push(g1.m, g.cur, [tm, Ref(u)])))
            && g1.m.objs == g.m.objs && g1.m.names == g.m.names && g1.cur == g.cur
  {
  }

  lemma GctmKeeps(g: G)
    requires Inv(g) && g.phase == Finalize && g.tmudata != []
    ensures Inv(Gctm(g)) && Gctm(g).m.objs.Keys == g.m.objs.Keys
  {
    var g1, u := Returned(g), g.tmudata[0];
    BaseOf(g);
    GctmUdata(g);
    GctmIs(g);
    hide Inv, BaseInv, Returned, Gctm, MetaField, Push;
    ReturnedInv(g);
    PushTm(g1, u);
  }

  lemma ReturnedInv(g: G)
    requires Inv(g) && g.phase == Finalize && g.tmudata != []
    ensures Inv(Returned(g)) && Alive(Returned(g).m, g.tmudata[0])
  {
    assert Returned(g).phase == Finalize;
    hide Inv, IdleInv, Returned, Alive;
    IdleIs(g);
    ReturnedKeeps(g);
    IdleIs(Returned(g));
  }

  lemma PushTm(g: G, u: Id)
    requires Inv(g) && Alive(g.m, u) && g.m.objs[u].Udata?
    ensures var g' := g.(m := Push(g.m, g.cur, [MetaField(g.m.objs, g.m.objs[u].mt, g.m.names.gc), Ref(u)]));
            Inv(g') && g'.m.objs.Keys == g.m.objs.Keys
  {
    BaseOf(g);
    TmAlive(g, u);
    hide Inv, BaseInv, MetaField, Push, ValAlive, Alive;
    PushKeeps(g, [MetaField(g.m.objs, g.m.objs[u].mt, g.m.names.gc), Ref(u)]);
  }

  lemma TmAlive(g: G, u: Id)
    requires BaseInv(g) && Alive(g.m, u) && g.m.objs[u].Udata?
    ensures ValAlive(g.m, MetaField(g.m.objs, g.m.objs[u].mt, g.m.names.gc)) && ValAlive(g.m, Ref(u))
  {
    FinalizerAlive(g.m, u);
  }

  // ---------------------------------------------------------------- starting over

  lemma ResetKeeps(g: G)
    requires Inv(g) && (g.phase == Pause || g.phase == Propagating)
    ensures Inv(Reset(g))
  {
    var m' := g.m.(gray := [], grayagain := [], weak := []);
    BaseOf(g);
    StringTable(g);
    hide Inv, BaseInv;
    ListsFrame(g, m');
    MovesBase(g.(m := m'), Reset(g));
    IdleIs(Reset(g));
    ResetIdle(g);
  }

  lemma ResetIdle(g: G)
    requires BaseInv(Reset(g)) && |g.strt| > 0
    ensures IdleInv(Reset(g))
  {
    hide BaseInv;
  }

  lemma RestartedKeeps(g: G)
    requires Inv(g)
    ensures Inv(Restarted(g)) && RootVals(Restarted(g)) == RootVals(g) && Restarted(g).tmudata == g.tmudata
    ensures Restarted(g).m.objs == g.m.objs && Restarted(g).m.marks == g.m.marks && Restarted(g).m.names == g.m.names
    ensures var p := Restarted(g).phase; p == SweepString || p == Sweep || p == Finalize
  {
    hide Inv;
    if g.phase == Pause || g.phase == Propagating { ResetKeeps(g); }
  }

  // ---------------------------------------------------------------- single steps

  lemma PauseKeeps(g: G)
    requires Inv(g) && g.phase == Finalize && g.tmudata == []
    ensures Inv(g.(phase := Pause))
  {
    var g' := g.(phase := Pause);
    BaseOf(g);
    PauseSwept(g);
    assert RootList(g') == RootList(g);
    hide SweptOk, BaseInv, RootList;
    MovesBase(g, g');
    IdleIs(g');
  }

  lemma PauseSwept(g: G)
    requires SweptOk(g) && g.phase == Finalize
    ensures SweptOk(g.(phase := Pause))
  {
    var g' := g.(phase := Pause);
    forall id | id in g'.m.objs && SweptId(g', id) ensures Clean(g'.m, id) { assert SweptId(g, id); }
  }

  /** What goes is dead, and the current white has not changed. */
  ghost predicate FreesDead(m: Marking, m': Marking) {
    forall id :: id in m.objs && id !in m'.objs ==> IsDead(m, id)
  }

  lemma PurgedFrees(m: Marking, m': Marking)
    requires Purged(m, m')
    ensures FreesDead(m, m')
  {
  }

  /** `singlestep` keeps the invariant, in every phase, and frees only dead objects. */
  lemma SingleStepKeeps(g: G)
    requires Inv(g)
    ensures Inv(SingleStep(g)) && FreesDead(g.m, SingleStep(g).m)
  {
    hide Inv, Purged, MarkRoot, Propagate, Atomic, SweepStringStep, SweepStep, Gctm;
    match g.phase
    case Pause => MarkRootKeeps(g);
    case Propagating =>
      if g.m.gray != [] {
        PropagateKeeps(g);
        AdvancedTidied(g.m, Propagate(g.m));
      } else {
        AtomicKeeps(g);
      }
    case SweepString => SweepStringKeeps(g); PurgedFrees(g.m, SweepStringStep(g).m);
    case Sweep => SweepStepKeeps(g); PurgedFrees(g.m, SweepStep(g).m);
    case Finalize => if g.tmudata != [] { GctmKeeps(g); } else { PauseKeeps(g); }
  }
}
