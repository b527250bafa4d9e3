/** A full collection (lua/lgc.c:636-659): from any state of the collector it leaves exactly what is strongly
    reachable, what is fixed, and the strings that `cleartable` found in weak tables. */
module GcFull {
  import opened GcHeap
  import opened GcMark
  import opened GcCollector
  import opened GcState
  import opened GcStateMark
  import opened GcSweep
  import opened GcClose
  import opened GcSweepRoot
  import opened GcSweepElem
  import opened GcMutator
  import opened GcStrings
  import opened GcCloseAll
  import opened GcSteps

  /** Steps until the sweep is over. */
  function SweepOut(g: G, n: nat): G
    decreases n
  {
    if n == 0 || g.phase == Finalize then g else SweepOut(SingleStep(g), n - 1)
  }

  /** Steps until the cycle is over. */
  function CycleOut(g: G, n: nat): G
    decreases n
  {
    if n == 0 || g.phase == Pause then g else CycleOut(SingleStep(g), n - 1)
  }

  // ---------------------------------------------------------------- a cycle ends

  /** What the sweep of the root list may still have to visit. */
  function Unswept(g: G): int { |g.uvhead| + |RootList(g)| - g.swept }

  /** An upper bound of the number of steps that are left in the cycle. */
  function Left(g: G): int {
    match g.phase
    case Pause => 0
    case Finalize => |g.tmudata| + 1
    case Sweep => |g.tmudata| + 2 + Unswept(g)
    case SweepString => |g.tmudata| + 3 + Unswept(g) + |g.strt| - g.sweepstr
    case Propagating => |g.tmudata| + 4 + |g.uvhead| + |RootList(g)| + |g.strt| + |Whites(g.m)| + |g.m.gray|
  }

  lemma {:induction false} WithoutSize(l: seq<Id>, id: Id)
    ensures |Without(l, id)| == |l| - if id in l then 1 else 0
    decreases |l|
  {
    if l != [] && l[0] != id { WithoutSize(l[1..], id); }
  }

  lemma {:induction false} WithoutAllSize(l: seq<Id>, ids: seq<Id>)
    ensures |WithoutAll(l, ids)| <= |l|
    decreases |ids|
  {
    if ids != [] {
      WithoutSize(l, ids[0]);
      WithoutAllSize(Without(l, ids[0]), ids[1..]);
    }
  }

  lemma CloseFirstUnswept(g: G, th: Id, gone: set<Id>)
    requires gone <= {th} && RestInv(g, gone) && OpenList(g.m, th) != []
    ensures Unswept(CloseFirst(g, th)) <= Unswept(g)
  {
    RestParts(g, gone);
    StructIs(g, gone);
    FirstIsOpen(g.m, th);
    CloseFirstUnfolds(g, th);
    CloseFirstDetaches(g, th);
    var uv := OpenList(g.m, th)[0];
    assert multiset(g.uvhead)[uv] == 1;
    WithoutSize(g.uvhead, uv);
    hide RestInv, CloseFirst, CloseFirstIs, Detached, RootList, StructBut;
    assert CloseFirst(g, th).uvhead == Without(g.uvhead, uv) by { DetachedUvhead(g, CloseFirst(g, th), th, uv); }
    CloseFirstRest(g, th, gone);
  }

  lemma DetachedUvhead(g: G, g': G, th: Id, uv: Id)
    requires Detached(g, g', th, uv)
    ensures g'.uvhead == Without(g.uvhead, uv)
  {
  }

  lemma {:induction false} CloseUnswept(g: G, th: Id, level: nat, n: nat)
    requires RestInv(g, {th})
    ensures Unswept(Close(g, th, level, n)) <= Unswept(g)
    decreases n
  {
    var l := OpenList(g.m, th);
    hide RestInv, CloseFirst, Unswept;
    if !(n == 0 || l == [] || !AtOrAbove(g.m, l[0], level)) {
      CloseFirstUnswept(g, th, {th});
      CloseFirstRest(g, th, {th});
      CloseUnswept(CloseFirst(g, th), th, level, n - 1);
    }
  }

  lemma FreeUnswept(g: G, id: Id)
    requires RestInv(g, {id})
    ensures Unswept(Free(g, id)) <= Unswept(g)
  {
    CloseUnswept(g, id, 0, |OpenList(g.m, id)|);
  }

  lemma KeepOrFreeUnswept(g: G)
    requires RestInv(g, {}) && g.phase == Sweep && g.swept < |RootList(g)|
    ensures Unswept(KeepOrFree(g)) < Unswept(g)
  {
    var id := RootList(g)[g.swept];
    if IsDead(g.m, id) {
      UnlinkRest(g);
      UnlinkPrefix(g);
      assert Unlink(g).uvhead == g.uvhead && Unlink(g).swept == g.swept;
      hide RestInv, Free, Unlink, RootList;
      FreeUnswept(Unlink(g), id);
    }
  }

  lemma SweepElemUnswept(g: G)
    requires RestInv(g, {}) && g.phase == Sweep && g.swept < |RootList(g)|
    ensures Unswept(SweepElem(g)) < Unswept(g)
  {
    var id := RootList(g)[g.swept];
    var g1 := SweepOpen(g, id);
    WithoutAllSize(g.uvhead, DeadOnes(g.m, OpenList(g.m, id)));
    assert RootList(g1) == RootList(g) && |g1.uvhead| <= |g.uvhead|;
    hide RestInv, SweepOpen, KeepOrFree, RootList;
    OwnerExists(g);
    SweepOpenRest(g, id);
    KeepOrFreeUnswept(g1);
  }

  lemma {:induction false} SweepElemsUnswept(g: G, count: nat)
    requires RestInv(g, {}) && g.phase == Sweep
    ensures Unswept(SweepElems(g, count)) <= Unswept(g)
    ensures count > 0 && g.swept < |RootList(g)| ==> Unswept(SweepElems(g, count)) < Unswept(g)
    decreases count
  {
    hide RestInv, SweepElem, Unswept;
    if !(count == 0 || g.swept >= |RootList(g)|) {
      SweepElemUnswept(g);
      SweepElemRest(g);
      SweepElemsUnswept(SweepElem(g), count - 1);
    }
  }

  lemma SweepStepElems(g: G)
    requires Inv(g) && g.phase == Sweep
    ensures var g1 := SweepElems(g, GCSWEEPMAX);
            && g1.tmudata == g.tmudata && RootVals(g1) == RootVals(g) && g1.phase == Sweep && g1.swept <= |RootList(g1)|
            && Unswept(g1) <= Unswept(g)
            && (g.swept < |RootList(g)| ==> Unswept(g1) < Unswept(g)) && Purged(g.m, g1.m)
  {
    IdleIs(g);
    hide Inv, IdleInv, RestInv, SweepElems, Unswept, Purged, RootVals;
    RestOfIdle(g);
    SweepElemsUnswept(g, GCSWEEPMAX);
    SweepElemsRest(g, GCSWEEPMAX);
    SweepElemsElse(g, GCSWEEPMAX);
    SweptInside(SweepElems(g, GCSWEEPMAX));
  }

  lemma SweptInside(g: G)
    requires RestInv(g, {})
    ensures g.swept <= |RootList(g)|
  {
  }

  lemma SizesSame(g: G)
    ensures RootVals(CheckSizes(g)) == RootVals(g) && CheckSizes(g).tmudata == g.tmudata
            && RootList(CheckSizes(g)) == RootList(g) && CheckSizes(g).swept == g.swept
    ensures CheckSizes(g).uvhead == g.uvhead && CheckSizes(g).phase == g.phase && CheckSizes(g).m == g.m
  {
  }

  /** The end of `SweepStep`. */
  function SweepEnd(g: G): G { if g.swept >= |RootList(g)| then CheckSizes(g).(phase := Finalize) else g }

  lemma SweepEndLeft(g: G)
    requires g.phase == Sweep && g.swept <= |RootList(g)|
    ensures Left(SweepEnd(g)) == (if g.swept >= |RootList(g)| then |g.tmudata| + 1 else Left(g))
            && SweepEnd(g).tmudata == g.tmudata && RootVals(SweepEnd(g)) == RootVals(g)
    ensures SweepEnd(g).phase == Sweep || SweepEnd(g).phase == Finalize
    ensures Left(g) == |g.tmudata| + 2 + Unswept(g) && Unswept(g) >= 0
  {
    SizesSame(g);
    hide CheckSizes;
  }

  lemma SweepStepLeft(g: G)
    requires Inv(g) && g.phase == Sweep
    ensures Left(SweepStep(g)) < Left(g) && SweepStep(g).tmudata == g.tmudata && RootVals(SweepStep(g)) == RootVals(g)
    ensures SweepStep(g).phase == Sweep || SweepStep(g).phase == Finalize
  {
    assert g.swept <= |RootList(g)|;
    hide Inv, SweepElems, CheckSizes, RootList, Purged, Left, Unswept, RootVals;
    SweepStepElems(g);
    SweepEndLeft(SweepElems(g, GCSWEEPMAX));
    SweepEndLeft(g);
    assert SweepStep(g) == SweepEnd(SweepElems(g, GCSWEEPMAX));
  }

  lemma AtomicLeft(g: G)
    requires Inv(g) && g.phase == Propagating && g.m.gray == []
    ensures Left(Atomic(g)) < Left(g)
  {
    MarkPhase(g);
    hide Inv, MarkInv, Finish, Unflipped;
    AtomicIs(g);
    SeparateSizes(Finish(g), g.udata);
  }

  lemma {:induction false} SeparateSizes(m: Marking, us: seq<Id>)
    ensures |Separate(m, us).kept| + |Separate(m, us).moved| == |us|
    decreases |us|
  {
    if us != [] { SeparateSizes(SetFinalized(m, us[0]), us[1..]); }
  }

  lemma PropagateLeft(g: G)
    requires g.phase == Propagating && g.m.gray != []
    ensures Left(g.(m := Propagate(g.m))) < Left(g)
  {
    PropagateShrinks(g.m);
    hide Propagate;
  }

  lemma SweepStringLeft(g: G)
    requires g.phase == SweepString && g.sweepstr < |g.strt|
    ensures Left(SweepStringStep(g)) < Left(g) && SweepStringStep(g).tmudata == g.tmudata
            && RootVals(SweepStringStep(g)) == RootVals(g)
    ensures SweepStringStep(g).phase == SweepString || SweepStringStep(g).phase == Sweep
  {
    hide SweepObjs, Survivors;
  }

  lemma InString(g: G)
    requires Inv(g) && g.phase == SweepString
    ensures g.sweepstr < |g.strt|
  {
  }

  /** Every step brings the end of the cycle nearer. */
  lemma StepLeft(g: G)
    requires Inv(g) && g.phase != Pause
    ensures 0 <= Left(SingleStep(g)) < Left(g)
  {
    hide Inv, Propagate, Atomic, SweepStep, SweepStringStep, Left;
    SingleStepKeeps(g);
    LeftNat(SingleStep(g));
    match g.phase
    case Propagating => if g.m.gray != [] { PropagateLeft(g); } else { AtomicLeft(g); }
    case SweepString => InString(g); SweepStringLeft(g);
    case Sweep => SweepStepLeft(g);
    case Finalize => FinalizeLeft(g);
  }

  lemma FinalizeLeft(g: G)
    requires g.phase == Finalize
    ensures Left(SingleStep(g)) < Left(g)
  {
  }

  lemma LeftNat(g: G)
    requires Inv(g)
    ensures Left(g) >= 0
  {
  }

  lemma SweptOut(g: G)
    requires Inv(g) && g.phase == Finalize
    ensures Purged(g.m, g.m)
  {
    StringTable(g);
    PurgedSelf(g.m);
  }

  /** The loops of `luaC_fullgc` end. */
  lemma {:induction false} SweepOutEnds(g: G, n: nat)
    requires Inv(g) && (g.phase == SweepString || g.phase == Sweep || g.phase == Finalize) && n >= Left(g)
    ensures Inv(SweepOut(g, n)) && SweepOut(g, n).phase == Finalize && Purged(g.m, SweepOut(g, n).m)
    ensures SweepOut(g, n).tmudata == g.tmudata && RootVals(SweepOut(g, n)) == RootVals(g)
    decreases n
  {
    hide Inv, Purged, SingleStep, Left, RootVals;
    if g.phase == Finalize {
      SweptOut(g);
    } else {
      StepLeft(g);
      SingleStepKeeps(g);
      SweepingPurges(g);
      SweepOutEnds(SingleStep(g), n - 1);
      PurgedTwice(g.m, SingleStep(g).m, SweepOut(g, n).m);
    }
  }

  lemma SweepingPurges(g: G)
    requires Inv(g) && (g.phase == SweepString || g.phase == Sweep)
    ensures Purged(g.m, SingleStep(g).m) && SingleStep(g).tmudata == g.tmudata && RootVals(SingleStep(g)) == RootVals(g)
    ensures SingleStep(g).phase == SweepString || SingleStep(g).phase == Sweep || SingleStep(g).phase == Finalize
  {
    hide Inv, Purged, SweepStep, SweepStringStep, RootVals;
    if g.phase == SweepString {
      InString(g);
      SweepStringKeeps(g);
      SweepStringLeft(g);
    } else {
      SweepStepKeeps(g);
      SweepStepLeft(g);
    }
  }

  lemma {:induction false} CycleOutEnds(g: G, n: nat)
    requires Inv(g) && n >= Left(g)
    ensures Inv(CycleOut(g, n)) && CycleOut(g, n).phase == Pause
    decreases n
  {
    hide Inv, SingleStep;
    if g.phase != Pause {
      StepLeft(g);
      SingleStepKeeps(g);
      CycleOutEnds(SingleStep(g), n - 1);
    }
  }
}
