/** The collector as lua/lgc.c does it: the global state is updated in place, object by object. Every method is
    proved to do what its function on whole states does, so the results about those hold for it. */
module GcMachine {
  import opened GcHeap
  import opened GcMark
  import opened GcCollector
  import opened GcOrder
  import opened GcState
  import opened GcClear
  import opened GcStateMark
  import opened GcClose
  import opened GcSweepElem
  import opened GcMutator
  import opened Wrappers
  import opened GcAllocate
  import opened GcStrings
  import opened GcUpvals
  import opened GcCloseAll
  import opened GcSteps
  import opened GcFull
  import opened GcSurvivors

  /** The fields of `global_State` that the collector uses, the heap, and the running thread. */
  class GlobalState {
    var objs: Heap
    var marks: map<Id, Mark>
    var currentwhite: bool
    var gray: seq<Id>
    var grayagain: seq<Id>
    var weak: seq<Id>
    const names: Names
    var gcstate: Phase
    var rootgc: seq<Id>
    var udata: seq<Id>
    var swept: nat
    var strt: seq<seq<Id>>
    var sweepstrgc: nat
    var nuse: int
    const hash: string -> nat
    var tmudata: seq<Id>
    var uvhead: seq<Id>
    const mainthread: Id
    var cur: Id
    var registry: Val
    var mt: seq<Val>

    function M(): Marking reads this { Marking(objs, marks, currentwhite, gray, grayagain, weak, names) }

    function Now(): G reads this {
      G(M(), gcstate, rootgc, udata, swept, strt, sweepstrgc, nuse, hash, tmudata, uvhead, mainthread, cur, registry,
        mt)
    }

    constructor (g: G)
      ensures Now() == g
    {
      objs, marks, currentwhite, gray, grayagain, weak, names := g.m.objs, g.m.marks, g.m.cw, g.m.gray, g.m.grayagain,
        g.m.weak, g.m.names;
      gcstate, rootgc, udata, swept, strt, sweepstrgc, nuse := g.phase, g.rootgc, g.udata, g.swept, g.strt, g.sweepstr,
        g.nuse;
      hash, tmudata, uvhead, mainthread, cur, registry, mt := g.hash, g.tmudata, g.uvhead, g.main, g.cur, g.registry,
        g.mts;
    }

    // -------------------------------------------------------------- marking

    method SetColour(id: Id, c: Colour)
      modifies this`marks
      ensures M() == GcHeap.SetColour(old(M()), id, c)
    {
      if id in marks { marks := marks[id := marks[id].(colour := c)]; }
    }

    /** `markvalue` and `markobject` */
    method MarkValue(v: Val)
      modifies this`marks, this`gray
      ensures M() == MarkAll(old(M()), [v])
      decreases |Whites(M())|, 1
    {
      hide MarkAll;
      MarkingOne(M(), v);
      if v.Ref? && v.id in objs && v.id in marks && marks[v.id].colour.White? { ReallyMarkObject(v.id); }
    }

    method ReallyMarkObject(id: Id)
      requires id in objs && IsWhite(M(), id)
      modifies this`marks, this`gray
      ensures M() == MarkAll(MarkOne(old(M()), id), Inner(old(objs), old(objs)[id]))
      decreases |Whites(M())|, 0
    {
      hide MarkAll, MarkOne, Inner, GcHeap.SetColour, HomeVal, Whites;
      ghost var m1 := MarkOne(M(), id);
      MarkingKinds(M(), id);
      MarkingOne(m1, Nil);
      SetColour(id, Gray);
      match objs[id]
      case Str(_) =>
      case Udata(mt, env) =>
        SetColour(id, Black);
        MarkBoth(mt, env);
      case Upval(home) =>
        ghost var t := M();
        var v := HomeVal(objs, home);
        MarkValue(v);
        if home.Closed? {
          SetColour(id, Black);
          ClosedLast(m1, id, t, v);
        }
      case _ =>
        gray := [id] + gray;
    }

    method MarkBoth(v: Val, w: Val)
      modifies this`marks, this`gray
      ensures M() == MarkAll(old(M()), [v, w])
      decreases |Whites(M())|, 2
    {
      hide MarkAll;
      WhitesOnlyLess(M(), [v]);
      MarkAllAppend(M(), [v], [w]);
      assert [v] + [w] == [v, w];
      MarkValue(v);
      MarkValue(w);
    }

    method MarkValues(vs: seq<Val>)
      modifies this`marks, this`gray
      ensures M() == MarkAll(old(M()), vs)
    {
      hide MarkAll;
      MarkingOne(M(), Nil);
      for i := 0 to |vs|
        invariant M() == MarkAll(old(M()), vs[..i])
      {
        MarkAllAppend(old(M()), vs[..i], [vs[i]]);
        assert vs[..i] + [vs[i]] == vs[..i + 1];
        MarkValue(vs[i]);
      }
      assert vs[..|vs|] == vs;
    }

    // -------------------------------------------------------------- traversing

    /** `removeentry` */
    method RemoveEntry(h: Id, i: nat)
      requires h in objs && objs[h].Table? && i < |objs[h].nodes| && objs[h].nodes[i].val == Nil
      modifies this`objs
      ensures objs == old(objs)[h := old(objs)[h].(nodes := old(objs)[h].nodes[i := CleanNode(old(objs)[h].nodes[i])])]
    {
      var n := objs[h].nodes[i];
      if n.key.Live? && n.key.v.Ref? {
        objs := objs[h := objs[h].(nodes := objs[h].nodes[i := n.(key := Dead)])];
      } else {
        assert objs[h].nodes[i := n] == objs[h].nodes;
      }
    }

    /** `ghost` arguments: `m` is the marking when `h` left the gray list, and `done` are the values marked since. */
    method MarkField(v: Val, h: Id, ghost m: Marking, ghost done: seq<Val>)
      requires Amid(m, done, h, M())
      modifies this`marks, this`gray
      ensures Amid(m, done + [v], h, M()) && marks[h] == old(marks)[h]
    {
      hide MarkAll;
      AmidStep(m, done, h, M(), [v]);
      MarkValue(v);
    }

    /** The array part, from its end. */
    method TraverseArray(h: Id, ghost m: Marking, ghost done: seq<Val>)
      requires Amid(m, done, h, M()) && objs[h].Table?
      modifies this`marks, this`gray
      ensures Amid(m, done + Backward(old(objs)[h].arr), h, M()) && marks[h] == old(marks)[h]
    {
      hide Over, MarkAll;
      var arr := objs[h].arr;
      var i := |arr|;
      ghost var so := done;
      assert arr[..i] == arr && done + Backward(arr) == so + Backward(arr[..i]);
      while i > 0
        invariant 0 <= i <= |arr| && objs == old(objs) && weak == old(weak) && grayagain == old(grayagain)
        invariant Amid(m, so, h, M()) && marks[h] == old(marks)[h] && done + Backward(arr) == so + Backward(arr[..i])
      {
        i := i - 1;
        assert arr[..i + 1][..i] == arr[..i];
        assert so + ([arr[i]] + Backward(arr[..i])) == so + [arr[i]] + Backward(arr[..i]);
        MarkField(arr[i], h, m, so);
        so := so + [arr[i]];
      }
      assert so + Backward(arr[..0]) == so;
    }

    /** One node of the hash part. */
    method TraverseNode(h: Id, i: nat, wk: bool, wv: bool, ghost m: Marking, ghost done: seq<Val>)
      requires Amid(m, done, h, M()) && objs[h].Table? && i < |objs[h].nodes|
      modifies this`marks, this`gray, this`objs
      ensures var n := old(objs)[h].nodes[i];
              && Amid(m, done + EntryVals(n, wk, wv), h, M()) && marks[h] == old(marks)[h]
              && objs[h] == old(objs)[h].(nodes := old(objs)[h].nodes[i := CleanNode(n)])
    {
      hide MarkAll;
      var n := objs[h].nodes[i];
      if n.val == Nil {
        RemoveEntry(h, i);
        assert done + [] == done;
      } else {
        assert objs[h].nodes[i := CleanNode(n)] == objs[h].nodes;
        ghost var so := done;
        if !wk { MarkField(KeyVal(n.key), h, m, so); so := so + [KeyVal(n.key)]; }
        if !wv { MarkField(n.val, h, m, so); }
        assert done + EntryVals(n, wk, wv) == if wv then so else so + [n.val];
      }
    }

    /** The hash part, from its end. */
    method TraverseNodes(h: Id, wk: bool, wv: bool, ghost m: Marking, ghost done: seq<Val>)
      requires Amid(m, done, h, M()) && objs[h].Table?
      modifies this`marks, this`gray, this`objs
      ensures var t := old(objs)[h];
              && Amid(m, done + NodeVals(t.nodes, wk, wv), h, M()) && marks[h] == old(marks)[h]
              && objs[h] == t.(nodes := CleanNodes(t.nodes))
    {
      hide Over, MarkAll, CleanNode, EntryVals;
      ghost var t := objs[h];
      ghost var so := done;
      var i := |objs[h].nodes|;
      assert t.nodes[..i] == t.nodes && done + NodeVals(t.nodes, wk, wv) == so + NodeVals(t.nodes[..i], wk, wv);
      while i > 0
        invariant 0 <= i <= |t.nodes| && weak == old(weak) && grayagain == old(grayagain)
        invariant Amid(m, so, h, M()) && marks[h] == old(marks)[h] && objs[h] == t.(nodes := objs[h].nodes)
                  && Swept(t.nodes, objs[h].nodes, i)
        invariant done + NodeVals(t.nodes, wk, wv) == so + NodeVals(t.nodes[..i], wk, wv)
      {
        i := i - 1;
        NodeValsStep(t.nodes, i, wk, wv);
        Assoc(so, EntryVals(t.nodes[i], wk, wv), NodeVals(t.nodes[..i], wk, wv));
        TraverseNode(h, i, wk, wv, m, so);
        so := so + EntryVals(t.nodes[i], wk, wv);
      }
      SweptAll(t.nodes, objs[h].nodes);
      assert so + NodeVals(t.nodes[..0], wk, wv) == so;
    }

    /** What is strong in the array part and the hash part. */
    method TraverseEntries(h: Id, wk: bool, wv: bool, ghost m: Marking, ghost done: seq<Val>)
      requires Amid(m, done, h, M()) && objs[h].Table? && !(wk && wv)
      modifies this`marks, this`gray, this`objs
      ensures var t := old(objs)[h];
              && Amid(m, done + (if wv then [] else Backward(t.arr)) + NodeVals(t.nodes, wk, wv), h, M())
              && marks[h] == old(marks)[h] && objs[h] == t.(nodes := CleanNodes(t.nodes))
    {
      hide Over, MarkAll, CleanNodes, NodeVals;
      ghost var so := done;
      assert done + [] == done;
      if !wv { so := so + Backward(objs[h].arr); TraverseArray(h, m, done); }
      TraverseNodes(h, wk, wv, m, so);
    }

    /** `traversetable`; `h` is black. A weak table is to be gray again. */
    method TraverseTable(h: Id) returns (isWeak: bool)
      requires h in objs && h in marks && objs[h].Table? && marks[h].colour.Black?
      modifies this`marks, this`gray, this`objs, this`weak
      ensures isWeak == (WeakKeys(old(objs), names, h) || WeakValues(old(objs), names, h))
      ensures h in marks && marks[h].colour.Black?
              && GcHeap.SetColour(M(), h, if isWeak then Gray else Black)
              == MarkAll(Opened(GcHeap.SetColour(old(M()), h, Gray), h), StrongFields(old(objs), names, h))
    {
      hide MarkAll, Over, Opened, StrongFields, WeakKeys, WeakValues, CleanNodes, NodeVals;
      ghost var m := GcHeap.SetColour(M(), h, Gray);
      var t := objs[h];
      TableFields(objs, names, h);
      BeginAmid(m, h, M());
      MarkField(t.mt, h, m, []);
      assert [] + [t.mt] == [t.mt];
      var wk, wv := WeakKeys(objs, names, h), WeakValues(objs, names, h);
      isWeak := wk || wv;
      if isWeak {
        NowWeak(m, [t.mt], h, M(), wk, wv);
        marks := marks[h := marks[h].(weakKey := wk, weakVal := wv)];
        weak := [h] + weak;
      }
      if wk && wv {
        assert StrongFields(old(objs), names, h) == [t.mt];
      } else {
        TraverseEntries(h, wk, wv, m, [t.mt]);
      }
      hide Amid;
      TableDone(m, h, M());
    }

    method TraverseClosure(env: Val, p: Val, ups: seq<Val>)
      modifies this`marks, this`gray
      ensures M() == MarkAll(old(M()), [env, p] + ups)
    {
      hide MarkAll;
      MarkAllAppend(M(), [env, p], ups);
      MarkBoth(env, p);
      MarkValues(ups);
    }

    method TraverseStack(gt: Val, stack: seq<Val>)
      modifies this`marks, this`gray
      ensures M() == MarkAll(old(M()), [gt] + stack)
    {
      hide MarkAll;
      MarkAllAppend(M(), [gt], stack);
      MarkValue(gt);
      MarkValues(stack);
    }

    method TraverseProto(source: Val, k: seq<Val>, names: seq<Val>, ps: seq<Val>, locals: seq<Val>)
      modifies this`marks, this`gray
      ensures M() == MarkAll(old(M()), [source] + k + names + ps + locals)
    {
      hide MarkAll;
      ghost var m := M();
      MarkAllAppend(m, [source], k);
      MarkAllAppend(m, [source] + k, names);
      MarkAllAppend(m, [source] + k + names, ps);
      MarkAllAppend(m, [source] + k + names + ps, locals);
      MarkValue(source);
      MarkValues(k);
      MarkValues(names);
      MarkValues(ps);
      MarkValues(locals);
    }

    /** `propagatemark` */
    method PropagateMark()
      requires ListsOk(M()) && gray != []
      modifies this`marks, this`gray, this`objs, this`weak, this`grayagain
      ensures M() == Propagate(old(M())) && ListsOk(M())
    {
      hide MarkAll, Opened, StrongFields, WeakKeys, WeakValues, ListsOk, GcHeap.SetColour;
      var o := gray[0];
      OnGray(M(), o);
      ListsPropagate(M());
      ghost var m := M().(gray := gray[1..]);
      Recoloured(m, o, Gray);
      SetColour(o, Black);
      gray := gray[1..];
      ColourLast(old(M()), o, old(M()).gray[1..], Black);
      if objs[o].Table? {
        var isWeak := TraverseTable(o);
        Recoloured(M(), o, Black);
        if isWeak { SetColour(o, Gray); }
      } else {
        PlainOpened(m, o);
        match objs[o]
        case Closure(env, p, ups) =>
          TraverseClosure(env, p, ups);
        case Thread(gt, stack, _) =>
          grayagain := [o] + grayagain;
          SetColour(o, Gray);
          ThreadGray(m, o);
          TraverseStack(gt, stack);
        case Proto(source, k, names, ps, locals) =>
          TraverseProto(source, k, names, ps, locals);
        case _ =>
      }
    }

    method PropagateEverything()
      requires ListsOk(M())
      modifies this`marks, this`gray, this`objs, this`weak, this`grayagain
      ensures M() == PropagateAll(old(M())) && ListsOk(M()) && gray == []
    {
      hide Propagate, ListsOk, PropagateAll;
      PropagateAllStep(M());
      while gray != []
        invariant ListsOk(M()) && PropagateAll(old(M())) == PropagateAll(M())
        decreases |Whites(M())| + |gray|
      {
        PropagateAllStep(M());
        PropagateMark();
      }
      PropagateAllStep(M());
    }

    // -------------------------------------------------------------- the atomic step

    /** `remarkupvals` */
    method RemarkUpvals()
      requires ListsOk(M())
      modifies this`marks, this`gray
      ensures M() == Remark(old(M()), uvhead) && ListsOk(M())
    {
      hide MarkAll, ListsOk, Remark;
      assert uvhead[0..] == uvhead;
      for i := 0 to |uvhead|
        invariant ListsOk(M()) && Remark(old(M()), uvhead) == Remark(M(), uvhead[i..])
      {
        var u := uvhead[i];
        RemarkStep(M(), uvhead[i..]);
        assert uvhead[i..][1..] == uvhead[i + 1..];
        if u in marks && marks[u].colour.Gray? && u in objs && objs[u].Upval? {
          var v := HomeVal(objs, objs[u].home);
          ListsMarkAll(M(), [v]);
          MarkValue(v);
        }
      }
      NothingLeft(M());
    }

    /** `luaC_separateudata` */
    method SeparateUdata()
      modifies this`marks, this`udata, this`tmudata
      ensures var s := Separate(old(M()), old(udata));
              M() == s.m && udata == s.kept && tmudata == old(tmudata) + s.moved
    {
      hide Separate, HasFinalizer;
      var kept: seq<Id>, moved: seq<Id> := [], [];
      var us := udata;
      ghost var s := Separate(M(), us);
      assert us[0..] == us && [] + s.kept == s.kept && [] + s.moved == s.moved;
      for i := 0 to |us|
        invariant us == udata == old(udata) && tmudata == old(tmudata)
        invariant Separate(M(), us[i..]).m == s.m && kept + Separate(M(), us[i..]).kept == s.kept
                  && moved + Separate(M(), us[i..]).moved == s.moved
      {
        var u := us[i];
        SeparateStep(M(), us[i..], kept, moved);
        assert us[i..][1..] == us[i + 1..];
        if !(u in marks && marks[u].colour.White?) || marks[u].finalized {
          FinalizedTwice(M(), u);
          kept := kept + [u];
        } else if !HasFinalizer(objs, names, u) {
          marks := marks[u := marks[u].(finalized := true)];
          kept := kept + [u];
        } else {
          marks := marks[u := marks[u].(finalized := true)];
          moved := moved + [u];
        }
      }
      NothingLeft(M());
      assert us[|us|..] == [];
      assert kept + [] == kept && moved + [] == moved;
      udata, tmudata := kept, tmudata + moved;
    }

    /** `marktmu` */
    method MarkFinalized()
      modifies this`marks, this`gray
      ensures M() == MarkTmu(old(M()), tmudata)
    {
      hide MarkAll, MarkTmu;
      assert tmudata[0..] == tmudata;
      for i := 0 to |tmudata|
        invariant MarkTmu(old(M()), tmudata) == MarkTmu(M(), tmudata[i..])
      {
        TmuOne(M(), tmudata[i..]);
        assert tmudata[i..][1..] == tmudata[i + 1..];
        SetColour(tmudata[i], White(currentwhite));
        MarkValue(Ref(tmudata[i]));
      }
      NothingLeft(M());
    }

    // -------------------------------------------------------------- weak tables

    /** `iscleared`, which marks strings. */
    method IsCleared(v: Val, isKey: bool, h: Id, ghost m: Marking, ghost done: seq<Val>) returns (r: bool)
      requires Clearing(m, done, h, M())
      modifies this`marks
      ensures Clearing(m, done + [v], h, M()) && r == Cleared(m, v, isKey)
    {
      ClearingOne(M(), v);
      ClearingStep(m, done, h, M(), v);
      hide Clearing, MarkStrings;
      if !v.Ref? || v.id !in objs { return false; }
      if objs[v.id].Str? {
        if v.id in marks && marks[v.id].colour.White? { SetColour(v.id, Gray); }
        return false;
      }
      return v.id in marks && (marks[v.id].colour.White? || (objs[v.id].Udata? && !isKey && marks[v.id].finalized));
    }

    /** The array part of a table with weak values. */
    method ClearArrayOf(h: Id, ghost m: Marking, ghost done: seq<Val>)
      requires Clearing(m, done, h, M())
      modifies this`marks, this`objs
      ensures Clearing(m, done + Backward(old(objs)[h].arr), h, M())
              && objs[h] == old(objs)[h].(arr := ClearArray(m, old(objs)[h].arr))
    {
      hide Cleared, MarkStrings;
      ghost var t := objs[h];
      ghost var so := done;
      var i := |objs[h].arr|;
      assert t.arr[..i] == t.arr && done + Backward(t.arr) == so + Backward(t.arr[..i]);
      while i > 0
        invariant 0 <= i <= |t.arr| && Clearing(m, so, h, M()) && done + Backward(t.arr) == so + Backward(t.arr[..i])
        invariant objs[h] == t.(arr := objs[h].arr) && ArrayCleared(m, t.arr, objs[h].arr, i)
      {
        i := i - 1;
        BackwardStep(t.arr, i);
        Assoc(so, [t.arr[i]], Backward(t.arr[..i]));
        var v := objs[h].arr[i];
        var cleared := IsCleared(v, false, h, m, so);
        so := so + [v];
        if cleared { SetEntry(h, objs[h].(arr := objs[h].arr[i := Nil]), m, so); }
      }
      AllSeen(m, t.arr, objs[h].arr, [], []);
      assert so + Backward(t.arr[..0]) == so;
    }

    method SetEntry(h: Id, t: Obj, ghost m: Marking, ghost done: seq<Val>)
      requires Clearing(m, done, h, M()) && t.Table?
      modifies this`objs
      ensures Clearing(m, done, h, M()) && objs == old(objs)[h := t]
    {
      objs := objs[h := t];
    }

    /** One entry of the hash part. */
    method ClearEntry(h: Id, i: nat, ghost m: Marking, ghost done: seq<Val>)
      requires Clearing(m, done, h, M()) && i < |objs[h].nodes|
      modifies this`marks, this`objs
      ensures var n := old(objs)[h].nodes[i];
              && Clearing(m, done + VisitsOf(m, n), h, M())
              && objs[h] == old(objs)[h].(nodes := old(objs)[h].nodes[i := ClearNode(m, n)])
    {
      hide Cleared, MarkStrings;
      var n := objs[h].nodes[i];
      assert objs[h].nodes[i := n] == objs[h].nodes;
      if n.val == Nil {
        assert done + [] == done;
        return;
      }
      var cleared := IsCleared(KeyVal(n.key), true, h, m, done);
      assert done + ([KeyVal(n.key)] + []) == done + [KeyVal(n.key)];
      if !cleared {
        Assoc(done, [KeyVal(n.key)], [n.val]);
        cleared := IsCleared(n.val, false, h, m, done + [KeyVal(n.key)]);
      }
      if cleared {
        SetEntry(h, objs[h].(nodes := objs[h].nodes[i := CleanNode(n.(val := Nil))]), m, done + VisitsOf(m, n));
      }
    }

    method ClearHash(h: Id, ghost m: Marking, ghost done: seq<Val>)
      requires Clearing(m, done, h, M())
      modifies this`marks, this`objs
      ensures Clearing(m, done + NodeVisits(m, old(objs)[h].nodes), h, M())
              && objs[h] == old(objs)[h].(nodes := ClearNodes(m, old(objs)[h].nodes))
    {
      hide Cleared, MarkStrings, ClearNode, VisitsOf;
      ghost var t := objs[h];
      ghost var so := done;
      var i := |objs[h].nodes|;
      assert t.nodes[..i] == t.nodes && done + NodeVisits(m, t.nodes) == so + NodeVisits(m, t.nodes[..i]);
      while i > 0
        invariant 0 <= i <= |t.nodes| && Clearing(m, so, h, M())
                  && done + NodeVisits(m, t.nodes) == so + NodeVisits(m, t.nodes[..i])
        invariant objs[h] == t.(nodes := objs[h].nodes) && NodesCleared(m, t.nodes, objs[h].nodes, i)
      {
        i := i - 1;
        VisitsStep(m, t.nodes, i);
        Assoc(so, VisitsOf(m, t.nodes[i]), NodeVisits(m, t.nodes[..i]));
        ClearEntry(h, i, m, so);
        so := so + VisitsOf(m, t.nodes[i]);
      }
      AllSeen(m, [], [], t.nodes, objs[h].nodes);
      assert so + NodeVisits(m, t.nodes[..0]) == so;
    }

    /** `cleartable` for one table. */
    method ClearTable(h: Id)
      modifies this`marks, this`objs
      ensures M() == GcCollector.ClearTable(old(M()), h)
    {
      if h !in objs || !objs[h].Table? || h !in marks { return; }
      hide MarkStrings, ClearArray, ClearNodes, NodeVisits;
      ghost var m, t := M(), objs[h];
      var wv := marks[h].weakVal;
      BeginClearing(m, h);
      ghost var done: seq<Val> := if wv then Backward(t.arr) else [];
      assert [] + Backward(t.arr) == Backward(t.arr);
      if wv { ClearArrayOf(h, m, []); }
      ClearHash(h, m, done);
      assert m.objs[h := objs[h]] == objs;
    }

    /** `cleartable` */
    method ClearTables(l: seq<Id>)
      modifies this`marks, this`objs
      ensures M() == GcCollector.ClearTables(old(M()), l)
    {
      hide GcCollector.ClearTable;
      assert l[0..] == l;
      for i := 0 to |l|
        invariant GcCollector.ClearTables(old(M()), l) == GcCollector.ClearTables(M(), l[i..])
      {
        assert l[i..][1..] == l[i + 1..];
        ClearTable(l[i]);
      }
    }

    /** The first part of `atomic`: everything that is still gray, or weak, or gray again, is traversed. */
    method FinishMarking()
      requires ListsOk(M()) && AllUdata(M(), tmudata)
      modifies this`marks, this`gray, this`objs, this`weak, this`grayagain
      ensures M() == Finish(old(Now())) && ListsOk(M()) && AllUdata(M(), tmudata)
    {
      hide AllUdata, MarkAll, PropagateAll, Remark, ListsOk;
      FinishUdata(Now(), tmudata);
      RemarkUpvals();
      PropagateEverything();
      Relisted(M());
      gray, weak := weak, [];
      MarkThread(cur);
      PropagateEverything();
      Relisted(M());
      gray, grayagain := grayagain, [];
      PropagateEverything();
    }

    /** `markobject` for the running thread, and `markmt`. */
    method MarkThread(th: Id)
      requires ListsOk(M())
      modifies this`marks, this`gray
      ensures M() == MarkAll(old(M()), [Ref(th)] + mt) && ListsOk(M())
    {
      hide MarkAll, ListsOk;
      ListsMarkAll(M(), [Ref(th)] + mt);
      MarkAllAppend(M(), [Ref(th)], mt);
      MarkValue(Ref(th));
      MarkValues(mt);
    }

    /** Userdata with finalizers are separated, and what they need is marked. */
    method Resurrect()
      requires ListsOk(M()) && AllUdata(M(), tmudata)
      modifies this`marks, this`gray, this`objs, this`weak, this`grayagain, this`udata, this`tmudata
      ensures var s := Separate(old(M()), old(udata));
              M() == PropagateAll(MarkTmu(s.m, old(tmudata) + s.moved)) && udata == s.kept
                && tmudata == old(tmudata) + s.moved
    {
      hide MarkAll, PropagateAll, Separate, MarkTmu, ListsOk;
      SeparateLists(M(), udata);
      SeparateUdata();
      TmuLists(M(), tmudata);
      MarkFinalized();
      PropagateEverything();
    }

    /** `atomic` */
    method AtomicStep()
      requires ListsOk(M()) && AllUdata(M(), tmudata)
      modifies this`objs, this`marks, this`gray, this`grayagain, this`weak, this`udata, this`tmudata, this`currentwhite,
               this`sweepstrgc, this`swept, this`gcstate
      ensures Now() == Atomic(old(Now()))
    {
      hide MarkAll, PropagateAll, Finish, Separate, MarkTmu, GcCollector.ClearTables, ListsOk, AllUdata;
      FinishMarking();
      Resurrect();
      ClearTables(weak);
      currentwhite := !currentwhite;
      sweepstrgc, swept, gcstate := 0, 0, SweepString;
    }

    // -------------------------------------------------------------- the sweep

    /** `sweeplist` on strings or open upvalues. `dead` are those that were freed. */
    method SweepList(l: seq<Id>) returns (kept: seq<Id>, dead: seq<Id>)
      requires NoDup(l)
      modifies this`objs, this`marks
      ensures M() == SweepObjs(old(M()), l) && kept == Survivors(old(M()), l) && dead == DeadOnes(old(M()), l)
    {
      hide SweepObjs, Survivors, DeadOnes;
      kept, dead := [], [];
      ghost var m := M();
      assert l[0..] == l && [] + Survivors(m, l) == Survivors(m, l) && [] + DeadOnes(m, l) == DeadOnes(m, l);
      for i := 0 to |l|
        invariant SweepObjs(m, l) == SweepObjs(M(), l[i..])
        invariant kept + Survivors(m, l[i..]) == Survivors(m, l) && dead + DeadOnes(m, l[i..]) == DeadOnes(m, l)
        invariant forall k :: i <= k < |l| ==> IsDead(M(), l[k]) == IsDead(m, l[k])
      {
        var id := l[i];
        SweepNext(m, M(), l[i..], kept, dead);
        assert l[i..][1..] == l[i + 1..];
        forall k | i < k < |l|
          ensures IsDead(SweepMark(M(), id), l[k]) == IsDead(m, l[k])
        {
          SweptOthers(M(), id, l[k]);
        }
        if id in marks && marks[id].colour == White(!currentwhite) && !marks[id].fixed {
          objs, marks := objs - {id}, marks - {id};
          dead := dead + [id];
        } else {
          SetColour(id, White(currentwhite));
          kept := kept + [id];
        }
      }
      SweepNone(m);
      SweepNone(M());
      assert l[|l|..] == [] && kept + [] == kept && dead + [] == dead;
    }

    /** One list of the string table. */
    method SweepStrings()
      requires sweepstrgc < |strt| ==> NoDup(strt[sweepstrgc])
      modifies this`objs, this`marks, this`strt, this`nuse, this`sweepstrgc, this`gcstate
      ensures Now() == SweepStringStep(old(Now()))
    {
      hide SweepObjs, Survivors, SweepStringStep;
      StringStepIs(Now());
      if sweepstrgc < |strt| { SweepStringList(); }
      if sweepstrgc >= |strt| { gcstate := GcCollector.Sweep; }
    }

    method SweepStringList()
      requires sweepstrgc < |strt| && NoDup(strt[sweepstrgc])
      modifies this`objs, this`marks, this`strt, this`nuse, this`sweepstrgc
      ensures M() == SweepObjs(old(M()), old(strt)[old(sweepstrgc)]) && sweepstrgc == old(sweepstrgc) + 1
      ensures var l := old(strt)[old(sweepstrgc)]; var kept := Survivors(old(M()), l);
              strt == old(strt)[old(sweepstrgc) := kept] && nuse == old(nuse) - (|l| - |kept|)
    {
      hide SweepObjs, Survivors, NoDup;
      var l := strt[sweepstrgc];
      var kept, dead := SweepList(l);
      strt := strt[sweepstrgc := kept];
      nuse := nuse - (|l| - |kept|);
      sweepstrgc := sweepstrgc + 1;
    }

    // -------------------------------------------------------------- barriers and links

    /** `luaC_barrierf`, as the macros use it. */
    method BarrierForward(o: Id, v: Val)
      modifies this`marks, this`gray
      ensures Now() == Barrier(old(Now()), o, v)
    {
      hide MarkAll;
      if o in marks && marks[o].colour.Black? && v.Ref? && v.id in objs && v.id in marks && marks[v.id].colour.White? {
        if gcstate == Propagating { MarkValue(v); } else { SetColour(o, White(currentwhite)); }
      }
    }

    /** `luaC_barrierback`, as the macros use it. */
    method BarrierBackward(t: Id, v: Val)
      modifies this`marks, this`grayagain
      ensures Now() == BarrierBack(old(Now()), t, v)
    {
      if t in marks && marks[t].colour.Black? && v.Ref? && v.id in objs && v.id in marks && marks[v.id].colour.White? {
        SetColour(t, Gray);
        grayagain := [t] + grayagain;
      }
    }

    /** `luaC_linkupval` */
    method LinkUpvalue(uv: Id, v: Val)
      modifies this`marks, this`gray, this`rootgc, this`swept
      ensures Now() == LinkUpval(old(Now()), uv, v)
    {
      hide MarkAll, Barrier, LinkUpval;
      LinkFields(Now(), uv, v);
      rootgc := [uv] + rootgc;
      swept := if swept == 0 then 0 else swept + 1;
      if uv in marks && marks[uv].colour.Gray? {
        if gcstate == Propagating {
          SetColour(uv, Black);
          BarrierForward(uv, v);
        } else {
          SetColour(uv, White(currentwhite));
        }
      }
    }

    // -------------------------------------------------------------- closing upvalues

    /** `luaF_close` for the first upvalue of the list. */
    method CloseOne(th: Id)
      requires OpenList(M(), th) != []
      modifies this`objs, this`marks, this`gray, this`uvhead, this`rootgc, this`swept
      ensures Now() == CloseFirst(old(Now()), th)
    {
      hide MarkAll, LinkUpval, CloseFirst;
      DetachFields(Now(), th);
      var open := objs[th].open;
      var uv := open[0];
      var v := if uv in objs && objs[uv].Upval? then HomeVal(objs, objs[uv].home) else Nil;
      objs := objs[th := objs[th].(open := open[1..])];
      uvhead := Without(uvhead, uv);
      if (uv in marks && marks[uv].colour == White(!currentwhite) && !marks[uv].fixed) || uv !in objs
        || !objs[uv].Upval? {
        objs, marks := objs - {uv}, marks - {uv};
      } else {
        objs := objs[uv := Upval(Closed(v))];
        LinkUpvalue(uv, v);
      }
    }

    /** `luaF_close` */
    method CloseUpvalues(th: Id, level: nat)
      modifies this`objs, this`marks, this`gray, this`uvhead, this`rootgc, this`swept
      ensures Now() == CloseUpvals(old(Now()), th, level)
    {
      hide CloseFirst;
      ghost var g, n := Now(), |OpenList(M(), th)|;
      ghost var k := n;
      while th in objs && objs[th].Thread? && objs[th].open != [] && AtOrAbove(M(), objs[th].open[0], level)
        invariant |OpenList(M(), th)| <= k && Close(g, th, level, n) == Close(Now(), th, level, k)
        decreases k
      {
        CloseShorter(Now(), th);
        CloseOne(th);
        k := k - 1;
      }
    }

    // -------------------------------------------------------------- the sweep of all other objects

    /** A thread's open upvalues are swept with it. */
    method SweepOpenOf(th: Id)
      requires NoDup(OpenList(M(), th))
      modifies this`objs, this`marks, this`uvhead
      ensures Now() == SweepOpen(old(Now()), th)
    {
      hide SweepObjs, Survivors, DeadOnes;
      ghost var l := OpenList(M(), th);
      SweepNone(M());
      if th in objs && objs[th].Thread? {
        var kept, dead := SweepList(objs[th].open);
        if th in objs && objs[th].Thread? { objs := objs[th := objs[th].(open := kept)]; }
        uvhead := WithoutAll(uvhead, dead);
      }
    }

    /** The object at the sweep position is taken from its list and freed. */
    method Erase(id: Id)
      requires swept < |rootgc + udata|
      modifies this`objs, this`marks, this`gray, this`uvhead, this`rootgc, this`udata, this`swept
      ensures Now() == Free(Unlink(old(Now())), id)
    {
      hide CloseUpvals;
      if swept < |rootgc| {
        rootgc := rootgc[..swept] + rootgc[swept + 1..];
      } else {
        var k := swept - |rootgc|;
        udata := udata[..k] + udata[k + 1..];
      }
      CloseUpvalues(id, 0);
      objs, marks := objs - {id}, marks - {id};
    }

    /** One round of `sweeplist` on the list that begins at `rootgc`. */
    method SweepOne()
      requires swept < |rootgc + udata| && forall th :: NoDup(OpenList(M(), th))
      modifies this`objs, this`marks, this`gray, this`uvhead, this`rootgc, this`udata, this`swept
      ensures Now() == SweepElem(old(Now()))
    {
      hide SweepOpen, Free, Unlink, SweepElem, KeepOrFree;
      var id := if swept < |rootgc| then rootgc[swept] else udata[swept - |rootgc|];
      SweepElemIs(Now());
      SweepOpenOf(id);
      KeepOrFreeIs(Now());
      if id in marks && marks[id].colour == White(!currentwhite) && !marks[id].fixed {
        Erase(id);
      } else {
        SetColour(id, White(currentwhite));
        swept := swept + 1;
      }
    }

    /** `sweeplist` on that list, for at most `GCSWEEPMAX` objects. */
    method SweepRoots()
      requires RestInv(Now(), {}) && gcstate == GcCollector.Sweep
      modifies this`objs, this`marks, this`gray, this`uvhead, this`rootgc, this`udata, this`swept
      ensures Now() == SweepElems(old(Now()), GCSWEEPMAX)
    {
      hide RestInv, SweepElem;
      var count := GCSWEEPMAX;
      while swept < |rootgc + udata| && count > 0
        invariant 0 <= count && RestInv(Now(), {}) && gcstate == GcCollector.Sweep
        invariant SweepElems(old(Now()), GCSWEEPMAX) == SweepElems(Now(), count)
        decreases count
      {
        RestNoDup(Now());
        SweepElemRest(Now());
        SweepOne();
        count := count - 1;
      }
    }

    /** `luaS_resize` */
    method ResizeStrings(size: nat)
      requires size > 0
      modifies this`strt
      ensures Now() == Resize(old(Now()), size)
    {
      if gcstate == SweepString { return; }
      ghost var g := Now();
      var t: seq<seq<Id>> := seq(size, _ => []);
      ghost var t0 := t;
      assert strt[0..] == strt;
      for b := 0 to |strt|
        invariant Now() == g && |t| == size && RehashAll(g, strt, t0) == RehashAll(g, strt[b..], t)
      {
        assert strt[b..][1..] == strt[b + 1..];
        t := RehashList(strt[b], t);
      }
      strt := t;
    }

    method RehashList(l: seq<Id>, t0: seq<seq<Id>>) returns (t: seq<seq<Id>>)
      requires |t0| > 0
      ensures t == Rehash(Now(), l, t0)
    {
      t := t0;
      assert l[0..] == l;
      for i := 0 to |l|
        invariant |t| == |t0| && Rehash(Now(), l, t0) == Rehash(Now(), l[i..], t)
      {
        assert l[i..][1..] == l[i + 1..];
        var b := hash(TextOf(M(), l[i])) % |t|;
        t := t[b := [l[i]] + t[b]];
      }
    }

    /** `checkSizes` */
    method CheckStringTable()
      modifies this`strt
      ensures Now() == CheckSizes(old(Now()))
    {
      hide Resize;
      if nuse < |strt| / 4 && |strt| > MINSTRTABSIZE * 2 { ResizeStrings(|strt| / 2); }
    }

    /** `GCTM` up to the call of the finalizer. */
    method CallFinalizer()
      requires tmudata != []
      modifies this`objs, this`marks, this`tmudata, this`udata
      ensures Now() == Gctm(old(Now()))
    {
      hide Gctm, MetaField;
      GctmFields(Now());
      var u := tmudata[0];
      var tm := if u in objs && objs[u].Udata? then MetaField(objs, objs[u].mt, names.gc) else Nil;
      tmudata, udata := tmudata[1..], [u] + udata;
      SetColour(u, White(currentwhite));
      if tm != Nil && cur in objs && objs[cur].Thread? {
        objs := objs[cur := objs[cur].(stack := objs[cur].stack + [tm, Ref(u)])];
      }
    }

    // -------------------------------------------------------------- what the program does

    /** A dead object that is handed out again gets the current white. */
    method ReviveObject(id: Id)
      modifies this`marks
      ensures Now() == Revive(old(Now()), id)
    {
      if id in marks && marks[id].colour == White(!currentwhite) { SetColour(id, White(currentwhite)); }
    }

    /** `luaS_newlstr`: the walk along a list of the string table, and `newlstr` if the string is not there. */
    method InternString(id: Id, text: string) returns (r: Val)
      requires |strt| > 0
      modifies this`objs, this`marks, this`strt, this`nuse
      ensures Now() == Intern(old(Now()), id, text) && r == Interning(old(Now()), id, text)
    {
      hide Find, Revive, NewString, Intern, Interning;
      InternIs(Now(), id, text);
      var b := hash(text) % |strt|;
      var l := strt[b];
      assert l[0..] == l;
      FindNone(M(), text);
      var i := 0;
      while i < |l|
        invariant 0 <= i <= |l| && Now() == old(Now()) && Find(M(), l, text) == Find(M(), l[i..], text)
      {
        FindStep(M(), l[i..], text);
        assert l[i..][1..] == l[i + 1..];
        if l[i] in objs && objs[l[i]].Str? && objs[l[i]].text == text {
          ReviveObject(l[i]);
          return Ref(l[i]);
        }
        i := i + 1;
      }
      assert l[i..] == [];
      AddString(id, text);
      return Ref(id);
    }

    /** `newlstr` */
    method AddString(id: Id, text: string)
      requires |strt| > 0
      modifies this`objs, this`marks, this`strt, this`nuse
      ensures Now() == NewString(old(Now()), id, text)
    {
      hide Resize, NewString;
      NewStringFields(Now(), id, text);
      var b := hash(text) % |strt|;
      objs, marks := objs[id := Str(text)], marks[id := Mark(White(currentwhite), false, false, false, false)];
      strt := strt[b := [id] + strt[b]];
      nuse := nuse + 1;
      if nuse > |strt| && |strt| <= MAX_INT / 2 { ResizeStrings(|strt| * 2); }
    }

    /** `luaF_findupval` for the running thread. */
    method FindUpvalue(level: nat, id: Id) returns (r: Val)
      requires cur in objs && objs[cur].Thread? && id !in objs
      modifies this`objs, this`marks, this`uvhead
      ensures Now() == FindUpval(old(Now()), level, id) && r == Captured(old(Now()), level, id)
    {
      hide FindLevel, Insert, Revive, NewUpval, LevelOf;
      var l := objs[cur].open;
      var i := 0;
      assert l[0..] == l && l[..0] == [] && [] + Insert(M(), l, level, id) == Insert(M(), l, level, id);
      while i < |l| && LevelAt(l[i]) >= level
        invariant 0 <= i <= |l| && Now() == old(Now())
        invariant FindLevel(M(), l, level) == FindLevel(M(), l[i..], level)
        invariant Insert(M(), l, level, id) == l[..i] + Insert(M(), l[i..], level, id)
      {
        LevelStep(M(), l[i..], level, id);
        assert l[i..][1..] == l[i + 1..] && l[..i + 1] == l[..i] + [l[i]];
        if LevelAt(l[i]) == level {
          ReviveObject(l[i]);
          return Ref(l[i]);
        }
        i := i + 1;
      }
      LevelStep(M(), l[i..], level, id);
      NewUpvalFields(Now(), level, id);
      objs, marks := objs[id := Upval(Open(cur, level))],
        marks[id := Mark(White(currentwhite), false, false, false, false)];
      objs := objs[cur := objs[cur].(open := l[..i] + ([id] + l[i..]))];
      uvhead := [id] + uvhead;
      return Ref(id);
    }

    function LevelAt(uv: Id): int reads this { LevelOf(M(), uv) }

    /** `luaC_link` */
    method NewObject(id: Id, obj: Obj)
      modifies this`objs, this`marks, this`rootgc, this`udata, this`swept
      ensures Now() == Allocate(old(Now()), id, obj)
    {
      hide Allocate;
      AllocateFields(Now(), id, obj);
      objs, marks := objs[id := obj], marks[id := Mark(White(currentwhite), false, false, false, false)];
      if obj.Udata? {
        udata := [id] + udata;
        if swept > |rootgc| { swept := swept + 1; }
      } else {
        rootgc := [id] + rootgc;
        if swept > 0 { swept := swept + 1; }
      }
    }

    // -------------------------------------------------------------- steps and cycles

    method EmptyLists()
      modifies this`gray, this`grayagain, this`weak
      ensures M() == Emptied(old(M()))
    {
      gray, grayagain, weak := [], [], [];
    }

    /** `markroot` */
    method MarkRoots()
      modifies this`marks, this`gray, this`grayagain, this`weak, this`gcstate
      ensures Now() == MarkRoot(old(Now()))
    {
      hide MarkAll, GlobalsOf, MarkRoot, Emptied;
      MarkRootIs(Now());
      EmptyLists();
      var gt := GlobalsOf(M(), mainthread);
      MarkThree(Ref(mainthread), gt, registry);
      gcstate := Propagating;
    }

    method MarkThree(u: Val, v: Val, w: Val)
      modifies this`marks, this`gray
      ensures M() == MarkAll(old(M()), [u, v, w] + mt)
    {
      hide MarkAll;
      MarkAllAppend(M(), [u, v], [w]);
      MarkAllAppend(M(), [u, v, w], mt);
      assert [u, v] + [w] == [u, v, w];
      MarkBoth(u, v);
      MarkValue(w);
      MarkValues(mt);
    }

    /** The sweep of all objects but strings. */
    method SweepSome()
      requires RestInv(Now(), {}) && gcstate == GcCollector.Sweep
      modifies this
      ensures Now() == SweepStep(old(Now()))
    {
      hide RestInv, SweepElems, CheckSizes;
      SweepRoots();
      if swept >= |rootgc + udata| {
        CheckStringTable();
        gcstate := Finalize;
      }
    }

    /** `singlestep` */
    method Step()
      requires Inv(Now())
      modifies this
      ensures Now() == SingleStep(old(Now())) && Inv(Now()) && FreesDead(old(M()), M())
    {
      hide Inv, MarkRoot, Propagate, Atomic, SweepStringStep, SweepStep, Gctm, ListsOk, RestInv, NoDup, FreesDead,
        SingleStep;
      SingleStepKeeps(Now());
      StepNeeds(Now());
      StepIs(Now());
      match gcstate
      case Pause => MarkRoots();
      case Propagating => if gray != [] { PropagateMark(); } else { AtomicStep(); }
      case SweepString => SweepStrings();
      case Sweep => SweepSome();
      case Finalize => if tmudata != [] { CallFinalizer(); } else { gcstate := Pause; }
    }

    /** Steps until the sweep is over. */
    method SweepEverything()
      requires Inv(Now()) && (gcstate == SweepString || gcstate == GcCollector.Sweep || gcstate == Finalize)
      modifies this
      ensures Now() == SweepOut(old(Now()), Bound(old(Now())))
    {
      hide Inv, SingleStep, Left, FreesDead;
      ghost var g, n := Now(), Bound(Now());
      ghost var k := n;
      while gcstate != Finalize
        invariant Inv(Now()) && (gcstate == SweepString || gcstate == GcCollector.Sweep || gcstate == Finalize)
        invariant k >= 0 && k >= Left(Now()) && SweepOut(g, n) == SweepOut(Now(), k)
        decreases Left(Now())
      {
        StepLeft(Now());
        SweepPhases(Now());
        Step();
        k := k - 1;
      }
    }

    /** Steps until the cycle is over. */
    method FinishCycle()
      requires Inv(Now())
      modifies this
      ensures Now() == CycleOut(old(Now()), Bound(old(Now())))
    {
      hide Inv, SingleStep, Left, FreesDead;
      ghost var g, n := Now(), Bound(Now());
      ghost var k := n;
      while gcstate != Pause
        invariant Inv(Now()) && k >= 0 && k >= Left(Now()) && CycleOut(g, n) == CycleOut(Now(), k)
        decreases Left(Now())
      {
        StepLeft(Now());
        Step();
        k := k - 1;
      }
    }

    /** The beginning of `luaC_fullgc`: a sweep that does not depend on marks made so far. */
    method StartOver()
      modifies this`sweepstrgc, this`swept, this`gray, this`grayagain, this`weak, this`gcstate
      ensures Now() == Restarted(old(Now()))
    {
      hide Restarted, Emptied;
      if gcstate == Pause || gcstate == Propagating {
        RestartedIs(Now());
        EmptyLists();
        sweepstrgc, swept, gcstate := 0, 0, SweepString;
      } else {
        RestartedSame(Now());
      }
    }

    /** `luaC_fullgc`: what is left is what `Kept` says. */
    method FullCollection()
      requires Inv(Now())
      modifies this
      ensures Now() == FullGc(old(Now())) && Inv(Now()) && gcstate == Pause
      ensures forall x :: x in objs <==> Kept(old(Now()), Sparing(old(Now())), x)
    {
      hide Inv, MarkRoot, Bound, Kept, Sparing, SweepOut, CycleOut, Restarted, FullGc;
      ghost var g := Now();
      RestartedKeeps(g);
      RestedRoots(g);
      FullGcLeaves(g);
      StartOver();
      SweepEverything();
      MarkRoots();
      FinishCycle();
    }
  }

  lemma FullGcLeaves(g: G)
    requires Inv(g)
    ensures Inv(FullGc(g)) && FullGc(g).phase == Pause && forall x :: x in FullGc(g).m.objs <==> Kept(g, Sparing(g), x)
  {
    hide Inv, FullGc, Kept, Sparing;
    forall x ensures x in FullGc(g).m.objs <==> Kept(g, Sparing(g), x) { FullGcExact(g, x); }
    FullGcExact(g, 0);
  }

  lemma RestartedIs(g: G)
    requires g.phase == Pause || g.phase == Propagating
    ensures Restarted(g)
            == G(Emptied(g.m), SweepString, g.rootgc, g.udata, 0, g.strt, 0, g.nuse, g.hash, g.tmudata, g.uvhead,
                              g.main, g.cur, g.registry, g.mts)
  {
  }

  lemma RestartedSame(g: G)
    requires g.phase != Pause && g.phase != Propagating
    ensures Restarted(g) == g
  {
  }

  lemma MarkRootIs(g: G)
    ensures var m := Emptied(g.m);
            MarkRoot(g)
              == G(MarkAll(m, [Ref(g.main), GlobalsOf(m, g.main), g.registry] + g.mts), Propagating, g.rootgc, g.udata,
              g.swept, g.strt,
                             g.sweepstr, g.nuse, g.hash, g.tmudata, g.uvhead, g.main, g.cur, g.registry, g.mts)
  {
    hide MarkAll;
  }

  lemma GctmFields(g: G)
    requires g.tmudata != []
    ensures var u := g.tmudata[0];
            var tm := if u in g.m.objs && g.m.objs[u].Udata? then MetaField(g.m.objs, g.m.objs[u].mt, g.m.names.gc)
              else Nil;
            var m1 := SetColour(g.m, u, White(g.m.cw));
            var objs := if tm != Nil && g.cur in g.m.objs
              && g.m.objs[g.cur].Thread?
              then g.m.objs[g.cur := g.m.objs[g.cur].(stack := g.m.objs[g.cur].stack + [tm, Ref(u)])] else g.m.objs;
            Gctm(g) == G(Marking(objs, m1.marks, g.m.cw, g.m.gray, g.m.grayagain, g.m.weak, g.m.names), g.phase,
              g.rootgc, [u] + g.udata, g.swept,
                         g.strt, g.sweepstr, g.nuse, g.hash, g.tmudata[1..], g.uvhead, g.main, g.cur, g.registry, g.mts)
  {
    hide MetaField;
  }

  lemma SweepElemIs(g: G)
    requires g.swept < |RootList(g)|
    ensures var g1 := SweepOpen(g, RootList(g)[g.swept]);
            RootList(g1) == RootList(g) && g1.swept == g.swept && SweepElem(g) == KeepOrFree(g1)
  {
    hide KeepOrFree;
  }

  lemma KeepOrFreeIs(g: G)
    requires g.swept < |RootList(g)|
    ensures var id := RootList(g)[g.swept];
            KeepOrFree(g) == if IsDead(g.m, id) then Free(Unlink(g), id)
              else g.(m := SetColour(g.m, id, White(g.m.cw)), swept := g.swept + 1)
  {
    hide Free, Unlink;
  }

  lemma InternIs(g: G, id: Id, text: string)
    requires |g.strt| > 0
    ensures var r := Find(g.m, g.strt[g.hash(text) % |g.strt|], text);
            && Intern(g, id, text) == (if r.Ref? then Revive(g, r.id) else NewString(g, id, text))
            && Interning(g, id, text) == if r.Ref? then r else Ref(id)
  {
    hide Find, Revive, NewString;
  }

  lemma FindNone(m: Marking, text: string)
    ensures Find(m, [], text) == Nil
  {
  }

  lemma FindStep(m: Marking, l: seq<Id>, text: string)
    requires l != []
    ensures Find(m, l, text) == if IsStr(m, l[0]) && m.objs[l[0]].text == text then Ref(l[0]) else Find(m, l[1..], text)
  {
  }

  lemma LevelStep(m: Marking, l: seq<Id>, level: nat, id: Id)
    ensures if l == [] || LevelOf(m, l[0]) < level then
              FindLevel(m, l, level) == Nil && Insert(m, l, level, id) == [id] + l
            else
              && FindLevel(m, l, level)
                   == (if LevelOf(m, l[0]) == level then Ref(l[0]) else FindLevel(m, l[1..], level))
              && Insert(m, l, level, id) == [l[0]] + Insert(m, l[1..], level, id)
  {
  }

  lemma NewUpvalFields(g: G, level: nat, id: Id)
    requires g.cur in g.m.objs && g.m.objs[g.cur].Thread? && id != g.cur
    ensures var objs := g.m.objs[id := Upval(Open(g.cur, level))];
            var objs' := objs[g.cur := objs[g.cur].(open := Insert(g.m, g.m.objs[g.cur].open, level, id))];
            NewUpval(g, level, id)
              == G(Marking(objs', g.m.marks[id := NewMark(g.m)], g.m.cw, g.m.gray, g.m.grayagain, g.m.weak, g.m.names),
              g.phase,
                                        g.rootgc, g.udata, g.swept, g.strt, g.sweepstr, g.nuse, g.hash, g.tmudata,
                                          [id] + g.uvhead, g.main, g.cur, g.registry, g.mts)
  {
    hide Insert;
  }

  lemma NewStringFields(g: G, id: Id, text: string)
    requires |g.strt| > 0
    ensures var b := g.hash(text) % |g.strt|;
            var m := Marking(g.m.objs[id := Str(text)], g.m.marks[id := NewMark(g.m)], g.m.cw, g.m.gray, g.m.grayagain,
              g.m.weak, g.m.names);
            var g1 := G(m, g.phase, g.rootgc, g.udata, g.swept, g.strt[b := [id] + g.strt[b]], g.sweepstr, g.nuse + 1,
              g.hash,
                        g.tmudata, g.uvhead, g.main, g.cur, g.registry, g.mts);
            NewString(g, id, text) == if g.nuse + 1 > |g.strt| && |g.strt| <= MAX_INT / 2 then Resize(g1, |g.strt| * 2)
              else g1
  {
    hide Resize;
  }

  lemma LinkFields(g: G, uv: Id, v: Val)
    ensures var swept := if g.swept == 0 then 0 else g.swept + 1;
            var black := SetColour(g.m, uv, Black);
            LinkUpval(g, uv, v) ==
            if IsGray(g.m, uv) && g.phase == Propagating then
              Barrier(G(black, g.phase, [uv] + g.rootgc, g.udata, swept, g.strt, g.sweepstr, g.nuse, g.hash, g.tmudata,
                g.uvhead, g.main, g.cur, g.registry, g.mts), uv, v)
            else
              G(if IsGray(g.m, uv) then SetColour(g.m, uv, White(g.m.cw))
                else g.m, g.phase, [uv] + g.rootgc, g.udata, swept, g.strt, g.sweepstr, g.nuse,
                g.hash, g.tmudata, g.uvhead, g.main, g.cur, g.registry, g.mts)
  {
    hide Barrier;
  }

  lemma DetachFields(g: G, th: Id)
    requires OpenList(g.m, th) != []
    ensures var uv, v := OpenList(g.m, th)[0], UpvalVal(g.m, OpenList(g.m, th)[0]);
            var objs := g.m.objs[th := g.m.objs[th].(open := OpenList(g.m, th)[1..])];
            var gone := IsDead(g.m, uv) || uv !in objs || !objs[uv].Upval?;
            var m := Marking(if gone then objs - {uv}
              else objs[uv := Upval(Closed(v))], if gone then g.m.marks - {uv} else g.m.marks,
                             g.m.cw, g.m.gray, g.m.grayagain, g.m.weak, g.m.names);
            var g1 := G(m, g.phase, g.rootgc, g.udata, g.swept, g.strt, g.sweepstr, g.nuse, g.hash, g.tmudata,
              Without(g.uvhead, uv), g.main, g.cur, g.registry, g.mts);
            CloseFirst(g, th) == if gone then g1 else LinkUpval(g1, uv, v)
  {
    hide LinkUpval, Without, UpvalVal;
  }

  lemma AllocateFields(g: G, id: Id, obj: Obj)
    ensures var m :=
            Marking(g.m.objs[id := obj], g.m.marks[id := NewMark(g.m)], g.m.cw, g.m.gray, g.m.grayagain, g.m.weak,
            g.m.names);
            Allocate(g, id, obj) ==
            if obj.Udata? then
              G(m, g.phase, g.rootgc, [id] + g.udata,
                if g.swept > |g.rootgc| then g.swept + 1 else g.swept, g.strt, g.sweepstr, g.nuse, g.hash,
                g.tmudata, g.uvhead, g.main, g.cur, g.registry, g.mts)
            else
              G(m, g.phase, [id] + g.rootgc, g.udata,
                if g.swept == 0 then 0 else g.swept + 1, g.strt, g.sweepstr, g.nuse, g.hash,
                g.tmudata, g.uvhead, g.main, g.cur, g.registry, g.mts)
  {
  }

  lemma StepIs(g: G)
    ensures SingleStep(g) ==
            match g.phase
            case Pause => MarkRoot(g)
            case Propagating => if g.m.gray != [] then g.(m := Propagate(g.m)) else Atomic(g)
            case SweepString => SweepStringStep(g)
            case Sweep => SweepStep(g)
            case Finalize => if g.tmudata != [] then Gctm(g) else g.(phase := Pause)
  {
    hide MarkRoot, Propagate, Atomic, SweepStringStep, SweepStep, Gctm;
  }

  /** What the parts of a step need. */
  lemma StepNeeds(g: G)
    requires Inv(g)
    ensures g.phase == Propagating ==> ListsOk(g.m) && AllUdata(g.m, g.tmudata)
    ensures g.phase == SweepString && g.sweepstr < |g.strt| ==> NoDup(g.strt[g.sweepstr])
    ensures g.phase == Sweep ==> RestInv(g, {})
  {
    forall u | u in g.tmudata ensures u in g.m.objs && g.m.objs[u].Udata? { QueuedKind(g, u); }
    if g.phase == SweepString {
      StringTable(g);
      if g.sweepstr < |g.strt| { StringsNoDup(g, g.sweepstr); }
    }
    if g.phase == Sweep {
      IdleIs(g);
      RestOfIdle(g);
    }
  }

  lemma RestNoDup(g: G)
    requires RestInv(g, {})
    ensures forall th :: NoDup(OpenList(g.m, th))
  {
    StructIs(g, {});
    hide NoDup, RestInv;
    forall th ensures NoDup(OpenList(g.m, th)) { OpenNoDup(g.m, th); }
  }

  lemma SweepPhases(g: G)
    requires Inv(g) && (g.phase == SweepString || g.phase == Sweep)
    ensures SingleStep(g).phase == SweepString || SingleStep(g).phase == Sweep || SingleStep(g).phase == Finalize
  {
    hide Inv, SingleStep, SweepStringStep, SweepStep, SweepElems, RestInv, NoDup;
    StepIs(g);
    StepNeeds(g);
    StringStepIs(g);
    SweepStepPhase(g);
    if g.phase == Sweep { SweepElemsRest(g, GCSWEEPMAX); }
  }

  lemma SweepStepPhase(g: G)
    ensures SweepStep(g).phase == Finalize || SweepStep(g).phase == SweepElems(g, GCSWEEPMAX).phase
  {
    hide SweepElems, CheckSizes;
  }

  /** The roots may be marked when the first sweep is over. */
  lemma RestedRoots(g: G)
    requires Inv(g)
    ensures var g1 := SweepOut(Restarted(g), Bound(Restarted(g)));
            Inv(MarkRoot(g1)) && FullGc(g) == CycleOut(MarkRoot(g1), Bound(MarkRoot(g1)))
  {
    RestedKeeps(g);
    MarkRootKeeps(Rested(g));
  }

  lemma NothingLeft(m: Marking)
    ensures Remark(m, []) == m && MarkTmu(m, []) == m && Separate(m, []) == Separated(m, [], [])
  {
  }

  lemma FinalizedTwice(m: Marking, u: Id)
    requires IsWhite(m, u) ==> m.marks[u].finalized
    ensures SetFinalized(m, u) == m
  {
    if IsWhite(m, u) { assert m.marks[u := m.marks[u].(finalized := true)] == m.marks; }
  }
}
