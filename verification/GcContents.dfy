/** What the collector does to the contents of the objects that it leaves (lua/lgc.c:142-197, 337-375, 399-479,
    549-608; section 2.10.2 of the Lua 5.1 Reference Manual). From a weak table it removes exactly the entries whose key
    or value has gone or is a userdata that has been finalized; everything else is as it was. */
module GcContents {
  import opened GcHeap
  import opened GcMark
  import opened GcCollector
  import opened GcAtomic
  import opened GcClear
  import opened GcState
  import opened GcStateMark
  import opened GcSweep
  import opened GcStrings
  import opened GcSteps
  import opened GcFull
  import opened GcExact
  import opened GcAwaiting
  import opened GcSurvivors

  // ---------------------------------------------------------------- what is promised

  predicate IsText(objs: Heap, id: Id) { id in objs && objs[id].Str? }

  /** A key or value of a weak table that stays: it is no object, or one that was a string, or one that is alive; as a
      value, not a userdata that has been finalized. */
  predicate Stays(objs: Heap, m: Marking, v: Val, isValue: bool) {
    v.Ref? ==>
      || IsText(objs, v.id)
      || (Alive(m, v.id) && !(isValue && m.objs[v.id].Udata? && v.id in m.marks && m.marks[v.id].finalized))
  }

  /** The key of an empty entry may have been marked as dead. An entry of a weak table stays if its key and its value
      do; otherwise it is empty, and its key is dead if it was an object. */
  predicate NodeRemains(n: Node, n': Node, weak: bool, objs: Heap, m': Marking) {
    if n.val == Nil then n' == n || (KeyVal(n.key).Ref? && n' == n.(key := Dead))
    else if weak && !(Stays(objs, m', KeyVal(n.key), false) && Stays(objs, m', n.val, true)) then
      n' == Node(if KeyVal(n.key).Ref? then Dead else n.key, Nil)
    else n' == n
  }

  /** The array part changes only in a table with weak values. */
  predicate SlotRemains(v: Val, v': Val, weakVal: bool, objs: Heap, m': Marking) {
    v' == if weakVal && !Stays(objs, m', v, true) then Nil else v
  }

  ghost predicate TableRemains(o: Obj, o': Obj, weak: bool, weakVal: bool, objs: Heap, m': Marking)
    requires o.Table?
  {
    && o'.Table? && o'.mt == o.mt && |o'.arr| == |o.arr| && |o'.nodes| == |o.nodes|
    && (forall i :: 0 <= i < |o.arr| ==> SlotRemains(o.arr[i], o'.arr[i], weak && weakVal, objs, m'))
    && (forall i :: 0 <= i < |o.nodes| ==> NodeRemains(o.nodes[i], o'.nodes[i], weak, objs, m'))
  }

  /** Objects that are not tables are as they were. An upvalue may have been closed over its value; the running thread
      may have been given finalizers to call; lists of open upvalues are not looked at. */
  ghost predicate ObjRemains(m: Marking, m': Marking, cur: Id, x: Id)
    requires x in m.objs && x in m'.objs
  {
    var o, o' := m.objs[x], m'.objs[x];
    match o
    case Upval(h) => o'.Upval? && HomeVal(m'.objs, o'.home) == HomeVal(m.objs, h)
      && (o' == o || (h.Open? && o'.home.Closed?))
    case Thread(gt, stack, _) => o'.Thread? && o'.gt == gt && stack <= o'.stack && (x != cur ==> o'.stack == stack)
    case _ => o' == o
  }

  ghost predicate Remains(m: Marking, m': Marking, cur: Id, weak: bool, x: Id)
    requires x in m.objs && x in m'.objs
  {
    if m.objs[x].Table? then TableRemains(m.objs[x], m'.objs[x], weak, WeakValues(m.objs, m.names, x), m.objs, m')
    else ObjRemains(m, m', cur, x)
  }

  // ---------------------------------------------------------------- clearing

  lemma {:induction false} ClearTablesOnly(m: Marking, hs: seq<Id>)
    ensures OnlyStrings(m, ClearTables(m, hs))
    ensures forall id :: id in m.objs && id !in hs ==> ClearTables(m, hs).objs[id] == m.objs[id]
    decreases |hs|
  {
    hide OnlyStrings, ClearTable;
    if hs == [] {
      ClearNothing(m);
    } else {
      var m1 := ClearTable(m, hs[0]);
      ClearTableOnly(m, hs[0]);
      SameKeys(m, m1);
      ClearTablesOnly(m1, hs[1..]);
      OnlyStringsTwice(m, m1, ClearTables(m, hs));
      assert hs == [hs[0]] + hs[1..];
    }
  }

  /** What becomes of a table does not depend on the others that are cleared before it. */
  lemma SameClearing(m: Marking, m': Marking, t: Obj, wv: bool)
    requires OnlyStrings(m, m') && t.Table?
    ensures ClearedTable(m', t, wv) == ClearedTable(m, t, wv)
  {
    forall v, isKey ensures Cleared(m', v, isKey) == Cleared(m, v, isKey) { SameCleared(m, m', v, isKey); }
    hide Cleared, OnlyStrings;
  }

  lemma TableCleared(m: Marking, h: Id)
    requires h in m.objs && m.objs[h].Table? && h in m.marks
    ensures var m' := ClearTable(m, h);
            h in m'.objs && m'.objs[h] == ClearedTable(m, m.objs[h], m.marks[h].weakVal)
  {
    MarkStringsOnly(m, Visits(m, m.objs[h], m.marks[h].weakVal));
  }

  lemma {:induction false} TablesCleared(m: Marking, hs: seq<Id>, h: Id)
    requires NoDup(hs) && h in hs && h in m.objs && m.objs[h].Table? && h in m.marks
    ensures var m' := ClearTables(m, hs);
            h in m'.objs && m'.objs[h] == ClearedTable(m, m.objs[h], m.marks[h].weakVal)
    decreases |hs|
  {
    hide OnlyStrings, ClearTable, Visits, ClearedTable, NoDup;
    var m1, m' := ClearTable(m, hs[0]), ClearTables(m, hs);
    assert hs == [hs[0]] + hs[1..];
    RestNoDup(hs);
    ClearTableOnly(m, hs[0]);
    ClearTablesOnly(m1, hs[1..]);
    SameKeys(m, m1);
    SameKeys(m1, m');
    if h == hs[0] {
      TableCleared(m, h);
    } else {
      VisitsStay(m, m1, h);
      SameClearing(m, m1, m.objs[h], m.marks[h].weakVal);
      SameWeakBit(m, m1, h);
      TablesCleared(m1, hs[1..], h);
    }
  }

  lemma RestNoDup(hs: seq<Id>)
    requires NoDup(hs) && hs != []
    ensures NoDup(hs[1..]) && hs[0] !in hs[1..]
  {
  }

  lemma SameWeakBit(m: Marking, m': Marking, h: Id)
    requires OnlyStrings(m, m') && h in m.marks
    ensures h in m'.marks && m'.marks[h].weakVal == m.marks[h].weakVal
  {
    assert m'.marks[h] == m.marks[h] || StringMarked(m, m', h);
  }

  /** The marks before and after weak tables are cleared and the white flips. */
  ghost predicate Turned(m: Marking, m': Marking) {
    && OnlyStrings(m, m') && OneWhite(m') && m'.marks.Keys == m'.objs.Keys
    && forall id :: id in m.objs && m.marks[id].fixed && id in m.marks ==> m.objs[id].Str? || !IsWhite(m, id)
  }

  /** `iscleared` finds out exactly what stays. */
  lemma ClearedIsGone(m: Marking, m': Marking, v: Val, isKey: bool)
    requires Turned(m, m') && (v.Ref? ==> v.id in m.objs)
    ensures Cleared(m, v, isKey) <==> !Stays(m.objs, Flip(m'), v, !isKey)
  {
    if v.Ref? {
      assert m'.marks[v.id] == m.marks[v.id] || StringMarked(m, m', v.id);
      assert m'.objs[v.id] == m.objs[v.id] || (m.objs[v.id].Table? && m'.objs[v.id].Table?);
      FlipAlive(m', v.id);
    }
  }

  lemma NodeCleared(m: Marking, m': Marking, nodes: seq<Node>, i: nat)
    requires Turned(m, m') && i < |nodes|
    requires nodes[i].val != Nil ==> forall x :: Ref(x) in [KeyVal(nodes[i].key), nodes[i].val] ==> x in m.objs
    ensures NodeRemains(nodes[i], ClearNode(m, nodes[i]), true, m.objs, Flip(m'))
  {
    var n := nodes[i];
    if n.val != Nil {
      hide Turned, Stays, Cleared;
      ClearedIsGone(m, m', KeyVal(n.key), true);
      ClearedIsGone(m, m', n.val, false);
      NilStays(m.objs, Flip(m'), n);
    }
  }

  lemma NilStays(objs: Heap, m: Marking, n: Node)
    ensures !Stays(objs, m, KeyVal(n.key), false) ==> KeyVal(n.key).Ref?
  {
  }

  lemma SlotCleared(m: Marking, m': Marking, arr: seq<Val>, i: nat)
    requires Turned(m, m') && i < |arr|
    requires forall x :: Ref(x) in arr ==> x in m.objs
    ensures SlotRemains(arr[i], ClearVal(m, arr[i]), true, m.objs, Flip(m'))
  {
    assert arr[i] in arr;
    hide Turned, Stays, Cleared;
    ClearedIsGone(m, m', arr[i], false);
  }

  lemma ClearedRemains(m: Marking, m': Marking, h: Id, wv: bool)
    requires Turned(m, m') && h in m.objs && m.objs[h].Table? && AllExist(m)
    ensures TableRemains(m.objs[h], ClearedTable(m, m.objs[h], wv), true, wv, m.objs, Flip(m'))
  {
    var t, t' := m.objs[h], ClearedTable(m, m.objs[h], wv);
    hide Turned, AllExist, NodeRemains, SlotRemains, ClearNode, ClearVal, Stays;
    forall i | 0 <= i < |t.arr| ensures SlotRemains(t.arr[i], t'.arr[i], wv, m.objs, Flip(m')) {
      if wv {
        forall x | Ref(x) in t.arr ensures x in m.objs { SlotExists(m, h, x); }
        SlotCleared(m, m', t.arr, i);
      } else {
        SlotSame(t.arr[i], m.objs, Flip(m'));
      }
    }
    forall i | 0 <= i < |t.nodes| ensures NodeRemains(t.nodes[i], t'.nodes[i], true, m.objs, Flip(m')) {
      if t.nodes[i].val != Nil { EntryExists(m, h, i); }
      NodeCleared(m, m', t.nodes, i);
    }
  }

  lemma SlotSame(v: Val, objs: Heap, m: Marking)
    ensures SlotRemains(v, v, false, objs, m)
  {
  }

  lemma SlotExists(m: Marking, h: Id, x: Id)
    requires AllExist(m) && h in m.objs && m.objs[h].Table? && Ref(x) in m.objs[h].arr
    ensures x in m.objs
  {
    assert Refers(m.objs, h, x);
  }

  lemma EntryExists(m: Marking, h: Id, i: nat)
    requires AllExist(m) && h in m.objs && m.objs[h].Table? && i < |m.objs[h].nodes| && m.objs[h].nodes[i].val != Nil
    ensures forall x :: Ref(x) in [KeyVal(m.objs[h].nodes[i].key), m.objs[h].nodes[i].val] ==> x in m.objs
  {
    EntryHeld(m.objs[h].nodes, i);
    forall x | Ref(x) in [KeyVal(m.objs[h].nodes[i].key), m.objs[h].nodes[i].val]
      ensures x in m.objs
    {
      assert Refers(m.objs, h, x);
    }
  }

  // ---------------------------------------------------------------- the atomic step

  lemma TurnedAtomic(g: G)
    requires Inv(g) && g.phase == Propagating
    ensures Turned(Preserved(g), Unflipped(g)) && Preserved(g).objs.Keys == g.m.objs.Keys && AllExist(Preserved(g))
  {
    var m := Preserved(g);
    PreservedIs(g);
    UnflippedIs(g);
    assert Ref(g.main) in RootVals(g);
    RootsPreserved(g, g.main);
    MarkPhase(g);
    hide Inv, MarkInv, Preserved, Unflipped, AllExist, ClosedAt, StructBut, AliveClosed, RootsAlive, Advanced;
    ReshapedKeys(g.m, m);
    SameKeys(m, Unflipped(g));
    forall id | id in m.objs && id in m.marks && m.marks[id].fixed ensures m.objs[id].Str? || !IsWhite(m, id) {
      FixedIsString(g, m, id);
    }
    hide OnlyStrings, Reshaped;
  }

  /** The bit that says whether values are weak is right for every table that is cleared. */
  lemma WeakBitIs(m: Marking, h: Id)
    requires MarkInv(m, {}, [], 3) && m.gray == [] && h in m.weak
    ensures h in m.objs && m.objs[h].Table? && h in m.marks && m.marks[h].weakVal == WeakValues(m.objs, m.names, h)
    ensures IsWeak(m.objs, m.names, h) && IsGray(m, h)
  {
    WeakBits(m, h);
    assert m.marks[h].weakKey == WeakKeys(m.objs, m.names, h) && m.marks[h].weakVal == WeakValues(m.objs, m.names, h);
  }

  ghost predicate SameTexts(objs: Heap, objs': Heap) { forall id :: IsText(objs', id) == IsText(objs, id) }

  lemma TextsStay(objs: Heap, objs1: Heap, m: Marking, v: Val, isValue: bool)
    requires v.Ref? ==> IsText(objs1, v.id) == IsText(objs, v.id)
    ensures Stays(objs1, m, v, isValue) == Stays(objs, m, v, isValue)
  {
  }

  lemma NodeTexts(n: Node, n': Node, weak: bool, objs: Heap, objs1: Heap, m: Marking)
    requires NodeRemains(n, n', weak, objs1, m)
    requires forall id :: Ref(id) in [KeyVal(n.key), n.val] && n.val != Nil ==> IsText(objs1, id) == IsText(objs, id)
    ensures NodeRemains(n, n', weak, objs, m)
  {
    if n.val != Nil {
      assert forall id :: KeyVal(n.key) == Ref(id) || n.val == Ref(id) ==> Ref(id) in [KeyVal(n.key), n.val];
      TextsStay(objs, objs1, m, KeyVal(n.key), false);
      TextsStay(objs, objs1, m, n.val, true);
    }
    hide Stays;
  }

  lemma SlotTexts(v: Val, v': Val, weakVal: bool, objs: Heap, objs1: Heap, m: Marking)
    requires SlotRemains(v, v', weakVal, objs1, m) && (v.Ref? ==> IsText(objs1, v.id) == IsText(objs, v.id))
    ensures SlotRemains(v, v', weakVal, objs, m)
  {
    TextsStay(objs, objs1, m, v, true);
  }

  lemma {:induction false} TidiedThenTable(o: Obj, o1: Obj, o2: Obj, weak: bool, weakVal: bool, objs: Heap, objs1: Heap,
                                           m: Marking)
    requires o.Table? && TidiedAt(o, o1) && TableRemains(o1, o2, weak, weakVal, objs1, m) && SameTexts(objs, objs1)
    ensures TableRemains(o, o2, weak, weakVal, objs, m)
  {
    hide Stays, IsText;
    forall i | 0 <= i < |o.nodes| ensures NodeRemains(o.nodes[i], o2.nodes[i], weak, objs, m) {
      NodeTexts(o1.nodes[i], o2.nodes[i], weak, objs, objs1, m);
    }
    forall i | 0 <= i < |o.arr| ensures SlotRemains(o.arr[i], o2.arr[i], weak && weakVal, objs, m) {
      SlotTexts(o1.arr[i], o2.arr[i], weak && weakVal, objs, objs1, m);
    }
  }

  lemma TidiedTexts(objs: Heap, objs1: Heap)
    requires Tidied(objs, objs1)
    ensures SameTexts(objs, objs1)
  {
    forall id ensures IsText(objs1, id) == IsText(objs, id) {
      if id in objs1 { TidiedOne(objs, objs1, id); }
    }
  }

  lemma SameTable(o: Obj, weakVal: bool, objs: Heap, m: Marking)
    requires o.Table?
    ensures TableRemains(o, o, false, weakVal, objs, m)
  {
  }

  lemma ListedRemains(g: G, h: Id)
    requires Inv(g) && g.phase == Propagating && h in Preserved(g).weak
    ensures var g' := Atomic(g);
            && h in g.m.objs && h in g'.m.objs && g.m.objs[h].Table? && IsWeak(g.m.objs, g.m.names, h) && Alive(g'.m, h)
            && TableRemains(g.m.objs[h], g'.m.objs[h], true, WeakValues(g.m.objs, g.m.names, h), g.m.objs, g'.m)
  {
    var m, m' := Preserved(g), Unflipped(g);
    PreservedIs(g);
    TurnedAtomic(g);
    AtomicIs(g);
    WeakBitIs(m, h);
    ListsOfInv(m, {}, 3);
    WeakNoDup(m);
    assert m' == ClearTables(m, m.weak);
    AdvancedTidied(g.m, m);
    AdvancedNames(g.m, m);
    hide Inv, MarkInv, Preserved, Unflipped, Advanced, Reshaped, TableRemains, Turned, AllExist, ClearTables, Tidied,
      ListsOk;
    TablesCleared(m, m.weak, h);
    ClearedRemains(m, m', h, m.marks[h].weakVal);
    TidyWeak(g.m.objs, m.objs, g.m.names, h);
    TidiedOne(g.m.objs, m.objs, h);
    TidiedTexts(g.m.objs, m.objs);
    TidiedThenTable(g.m.objs[h], m.objs[h], m'.objs[h], true, WeakValues(g.m.objs, g.m.names, h), g.m.objs, m.objs,
      Flip(m'));
    GrayIsAlive(g, h);
  }

  lemma TidiedOne(objs: Heap, objs': Heap, h: Id)
    requires Tidied(objs, objs') && h in objs'
    ensures h in objs && TidiedAt(objs[h], objs'[h]) && (objs'[h].Table? ==> objs[h].Table?)
  {
  }

  lemma GrayIsAlive(g: G, h: Id)
    requires Inv(g) && g.phase == Propagating && h in Preserved(g).objs && !IsWhite(Preserved(g), h)
    ensures Alive(Atomic(g).m, h) && h in Atomic(g).m.objs
  {
    UnflippedIs(g);
    PreservedIs(g);
    AtomicIs(g);
    hide Inv, MarkInv, Preserved, Unflipped, Advanced, Reshaped, AllExist, ClosedAt, OneWhite, OnlyStrings, Alive;
    ReshapedKeys(g.m, Preserved(g));
    ReshapedKeys(g.m, Unflipped(g));
    StillMarked(Preserved(g), Unflipped(g), h);
    UnflippedKeys(g);
    FlipAlive(Unflipped(g), h);
  }

  lemma UnflippedKeys(g: G)
    requires KindsOk(Unflipped(g))
    ensures Unflipped(g).marks.Keys == Unflipped(g).objs.Keys
  {
  }

  lemma OtherRemains(g: G, x: Id)
    requires Inv(g) && g.phase == Propagating && x in g.m.objs && x !in Preserved(g).weak
    ensures x in Atomic(g).m.objs && TidiedAt(g.m.objs[x], Atomic(g).m.objs[x])
  {
    var m := Preserved(g);
    PreservedIs(g);
    AtomicIs(g);
    AdvancedTidied(g.m, m);
    hide Inv, MarkInv, Preserved, Advanced, Reshaped, OnlyStrings;
    ClearTablesOnly(m, m.weak);
    SameKeys(m, Unflipped(g));
  }

  /** The values that upvalues have are as they were. */
  lemma TidiedValues(objs: Heap, objs': Heap, h: Home)
    requires forall x :: x in objs ==> x in objs' && (objs[x].Thread? || objs'[x].Thread? ==> objs'[x] == objs[x])
    requires forall x :: x in objs' ==> x in objs
    ensures HomeVal(objs', h) == HomeVal(objs, h)
  {
  }

  lemma AtomicHomes(g: G, h: Home)
    requires Inv(g) && g.phase == Propagating
    ensures HomeVal(Atomic(g).m.objs, h) == HomeVal(g.m.objs, h)
  {
    AtomicKeeps(g);
    hide Inv, Atomic, Preserved;
    forall x | x in g.m.objs
      ensures x in Atomic(g).m.objs
      ensures g.m.objs[x].Thread? || Atomic(g).m.objs[x].Thread? ==> Atomic(g).m.objs[x] == g.m.objs[x]
    {
      if x in Preserved(g).weak { ListedTables(g, x); } else { OtherRemains(g, x); }
    }
    TidiedValues(g.m.objs, Atomic(g).m.objs, h);
  }

  lemma ListedTables(g: G, x: Id)
    requires Inv(g) && g.phase == Propagating && x in Preserved(g).weak
    ensures x in g.m.objs && x in Atomic(g).m.objs && g.m.objs[x].Table? && Atomic(g).m.objs[x].Table?
  {
    hide Inv, Atomic, Preserved;
    ListedRemains(g, x);
  }

  /** The tables that are cleared at the end of the mark phase. */
  predicate Clearing(g: G, x: Id) { x in Preserved(g).weak }

  /** The atomic step clears the entries of the tables on the list of weak tables, and leaves everything else. */
  lemma AtomicRemains(g: G, x: Id)
    requires Inv(g) && g.phase == Propagating && x in g.m.objs
    ensures x in Atomic(g).m.objs && Remains(g.m, Atomic(g).m, g.cur, Clearing(g, x), x)
    ensures Clearing(g, x) ==> IsWeak(g.m.objs, g.m.names, x) && Alive(Atomic(g).m, x)
  {
    hide Inv, Atomic, Preserved, TableRemains, IsWeak, Alive;
    if x in Preserved(g).weak {
      ListedRemains(g, x);
    } else {
      OtherRemains(g, x);
      if g.m.objs[x].Table? {
        TidiedIsTable(g.m.objs[x], Atomic(g).m.objs[x], WeakValues(g.m.objs, g.m.names, x), g.m.objs, Atomic(g).m);
      } else if g.m.objs[x].Upval? {
        AtomicHomes(g, g.m.objs[x].home);
      }
    }
  }

  lemma TidiedIsTable(o: Obj, o': Obj, weakVal: bool, objs: Heap, m: Marking)
    requires o.Table? && TidiedAt(o, o')
    ensures TableRemains(o, o', false, weakVal, objs, m)
  {
    SameTable(o', weakVal, objs, m);
    TidiedThenTable(o, o', o', false, weakVal, objs, objs, m);
  }

  /** If no black table is weak, these are all the weak tables that are alive. A table becomes weak while it is black
      if its metatable changes after it has been traversed. */
  lemma ClearingIs(g: G, x: Id)
    requires Inv(g) && g.phase == Propagating && BlackStrong(Preserved(g)) && x in g.m.objs
    ensures Clearing(g, x) <==> IsWeak(g.m.objs, g.m.names, x) && Alive(Atomic(g).m, x)
  {
    if Clearing(g, x) {
      hide Inv, Atomic, Preserved, Remains;
      AtomicRemains(g, x);
    } else if IsWeak(g.m.objs, g.m.names, x) && Alive(Atomic(g).m, x) {
      NotBlack(g, x);
    }
  }

  lemma NotBlack(g: G, x: Id)
    requires Inv(g) && g.phase == Propagating && BlackStrong(Preserved(g)) && x in g.m.objs
    requires IsWeak(g.m.objs, g.m.names, x) && Alive(Atomic(g).m, x)
    ensures x in Preserved(g).weak
  {
    var m, m' := Preserved(g), Unflipped(g);
    PreservedIs(g);
    TurnedAtomic(g);
    AtomicIs(g);
    AdvancedTidied(g.m, m);
    AdvancedNames(g.m, m);
    hide Inv, MarkInv, Preserved, Unflipped, Advanced, Reshaped, AllExist, Tidied, BlackStrong;
    TidyWeak(g.m.objs, m.objs, g.m.names, x);
    AliveIsMarked(m, m', x);
    WeakIsGray(m, x);
    GrayTableListed(m, x);
  }

  lemma AliveIsMarked(m: Marking, m': Marking, x: Id)
    requires Turned(m, m') && x in m.objs && m.objs[x].Table? && Alive(Flip(m'), x)
    ensures !IsWhite(m, x)
  {
    FlipAlive(m', x);
    assert m'.marks[x] == m.marks[x] || StringMarked(m, m', x);
  }

  lemma WeakIsGray(m: Marking, x: Id)
    requires BlackStrong(m) && x in m.objs && IsWeak(m.objs, m.names, x) && !IsWhite(m, x)
             && m.marks.Keys == m.objs.Keys
    ensures m.objs[x].Table? && IsGray(m, x)
  {
  }

  lemma AllWithin(m: Marking)
    requires BlackStrong(m) && m.marks.Keys == m.objs.Keys
    ensures Inside(m, m.objs.Keys)
  {
    hide WeakKeys, WeakValues;
  }

  lemma BlackStays(g: G)
    requires Inv(g) && g.phase == Propagating && BlackStrong(g.m)
    ensures BlackStrong(Preserved(g))
  {
    MarkPhase(g);
    hide Inv, StructBut, MarkInv, AllExist, BlackStrong, AliveClosed, RootsAlive, OneWhite, KindsOk, Inside, Finish;
    AllWithin(g.m);
    forall x | Ref(x) in RootVals(g) ensures x in g.m.objs.Keys { RootsPreserved(g, x); }
    MovedInFinish(g);
    SeparateColours(Finish(g), g.udata);
    FinishKeys(g);
    PreservedWithin(g, g.m.objs.Keys);
    assert BlackStrong(Preserved(g)) by { InsideStrong(Preserved(g), g.m.objs.Keys); }
  }

  lemma InsideStrong(m: Marking, S: set<Id>)
    requires Inside(m, S)
    ensures BlackStrong(m)
  {
  }

  lemma FinishKeys(g: G)
    requires Inv(g) && g.phase == Propagating
    ensures Finish(g).objs.Keys == g.m.objs.Keys
  {
    MarkPhase(g);
    hide Inv, Finish, MarkInv;
    FinishInv(g, Ids(g.tmudata));
  }

  /** So, if no black table is weak, from every weak table that is alive the atomic step removes exactly the entries
      whose key or value is not, or whose value is a userdata that has been finalized; it changes nothing else. */
  lemma AtomicContents(g: G, x: Id)
    requires Inv(g) && g.phase == Propagating && BlackStrong(g.m) && x in g.m.objs
    ensures var g' := Atomic(g);
            && x in g'.m.objs
            && Remains(g.m, g'.m, g.cur, IsWeak(g.m.objs, g.m.names, x) && Alive(g'.m, x), x)
  {
    hide Inv, BlackStrong, Atomic, Preserved, Clearing, Remains, IsWeak, Alive;
    BlackStays(g);
    AtomicRemains(g, x);
    ClearingIs(g, x);
  }

  // ---------------------------------------------------------------- the sweep, and finalizers

  /** Objects that are left are as they were, and so are the bits of finalized userdata. */
  ghost predicate Settles(m: Marking, m': Marking, cur: Id) {
    m'.names == m.names && forall x :: x in m'.objs ==> x in m.objs && SettlesAt(m, m', cur, x)
  }

  ghost predicate SettlesAt(m: Marking, m': Marking, cur: Id, x: Id)
    requires x in m.objs && x in m'.objs
  {
    ObjRemains(m, m', cur, x) && x in m.marks && x in m'.marks && m'.marks[x].finalized == m.marks[x].finalized
  }

  lemma SettlesSelf(m: Marking, cur: Id)
    requires m.marks.Keys == m.objs.Keys
    ensures Settles(m, m, cur)
  {
  }

  lemma SettlesTwice(m0: Marking, m1: Marking, m2: Marking, cur: Id)
    requires Settles(m0, m1, cur) && Settles(m1, m2, cur)
    ensures Settles(m0, m2, cur)
  {
    hide HomeVal;
    forall x | x in m2.objs ensures x in m0.objs && SettlesAt(m0, m2, cur, x) {
      assert SettlesAt(m1, m2, cur, x) && SettlesAt(m0, m1, cur, x);
    }
  }

  lemma PurgedSettles(m: Marking, m': Marking, cur: Id)
    requires Purged(m, m')
    ensures Settles(m, m', cur)
  {
    forall x | x in m'.objs ensures x in m.objs && SettlesAt(m, m', cur, x) {
      assert KeptAt(m, m', x) && PurgedAt(m, m', x);
      if m.objs[x].Upval? { assert FieldsAt(m.objs, x) == [HomeVal(m.objs, m.objs[x].home)]; }
      hide HomeVal;
    }
  }

  lemma PushSettles(m: Marking, th: Id, vs: seq<Val>)
    requires HomesOk(m) && m.marks.Keys == m.objs.Keys
    ensures Settles(m, Push(m, th, vs), th)
  {
    var m' := Push(m, th, vs);
    forall x | x in m'.objs ensures x in m.objs && SettlesAt(m, m', th, x) { assert HomeOk(m, x); }
  }

  lemma WhitenedSettles(m: Marking, u: Id, c: Colour, cur: Id)
    requires m.marks.Keys == m.objs.Keys
    ensures Settles(m, SetColour(m, u, c), cur)
  {
  }

  lemma GctmSettles(g: G)
    requires Inv(g) && g.tmudata != []
    ensures Settles(g.m, Gctm(g).m, g.cur)
  {
    hide Inv, Gctm, Push, SetColour, Settles, HomesOk, MetaField;
    var u := g.tmudata[0];
    var m1 := SetColour(g.m, u, White(g.m.cw));
    StringTable(g);
    assert HomesOk(g.m) by { HomesOfInv(g); }
    GctmMarking(g);
    WhitenedSettles(g.m, u, White(g.m.cw), g.cur);
    WhitenedHomes(g.m, u, White(g.m.cw));
    if Gctm(g).m != m1 {
      var vs: seq<Val> :| Gctm(g).m == Push(m1, g.cur, vs);
      PushSettles(m1, g.cur, vs);
      SettlesTwice(g.m, m1, Gctm(g).m, g.cur);
    }
  }

  lemma HomesOfInv(g: G)
    requires Inv(g)
    ensures HomesOk(g.m)
  {
    StructIs(g, {});
  }

  lemma GctmMarking(g: G)
    requires g.tmudata != []
    ensures var m1 := SetColour(g.m, g.tmudata[0], White(g.m.cw));
            Gctm(g).m == m1 || exists vs: seq<Val> :: Gctm(g).m == Push(m1, g.cur, vs)
  {
    hide SetColour, Push, MetaField;
  }

  lemma WhitenedHomes(m: Marking, u: Id, c: Colour)
    requires HomesOk(m)
    ensures HomesOk(SetColour(m, u, c)) && SetColour(m, u, c).marks.Keys == m.marks.Keys
            && SetColour(m, u, c).objs == m.objs
  {
    forall x ensures HomeOk(SetColour(m, u, c), x) { assert HomeOk(m, x); }
  }

  /** The rest of a cycle after the atomic step. */
  lemma {:induction false} CycleSettles(g: G, n: nat, m: Marking)
    requires Inv(g) && (g.phase == SweepString || g.phase == Sweep || g.phase == Finalize || g.phase == Pause)
    requires Settles(m, g.m, g.cur)
    ensures Settles(m, CycleOut(g, n).m, g.cur)
    decreases n
  {
    hide Inv, Settles, SingleStep, Gctm, RootVals, Purged;
    if n > 0 && g.phase != Pause {
      SingleStepKeeps(g);
      StepSettles(g);
      SettlesTwice(m, g.m, SingleStep(g).m, g.cur);
      CycleSettles(SingleStep(g), n - 1, m);
    }
  }

  lemma StepSettles(g: G)
    requires Inv(g) && (g.phase == SweepString || g.phase == Sweep || g.phase == Finalize)
    ensures var g' := SingleStep(g);
            && Settles(g.m, g'.m, g.cur) && g'.cur == g.cur
            && (g'.phase == SweepString || g'.phase == Sweep || g'.phase == Finalize || g'.phase == Pause)
  {
    hide Inv, Settles, SweepStep, SweepStringStep, Purged;
    if g.phase == Finalize {
      if g.tmudata != [] {
        hide Gctm;
        GctmSettles(g);
        GctmSame(g);
      } else {
        StringTable(g);
        SettlesSelf(g.m, g.cur);
      }
    } else {
      SweepingPurges(g);
      PurgedSettles(g.m, SingleStep(g).m, g.cur);
      assert RootVals(SingleStep(g))[1] == RootVals(g)[1];
    }
  }

  lemma GctmSame(g: G)
    requires g.tmudata != []
    ensures Gctm(g).cur == g.cur && Gctm(g).phase == g.phase
  {
  }

  // ---------------------------------------------------------------- composing

  lemma TidiedThen(m: Marking, m1: Marking, m2: Marking, cur: Id, weak: bool, x: Id)
    requires Tidied(m.objs, m1.objs) && m1.names == m.names && x in m1.objs && x in m2.objs
             && Remains(m1, m2, cur, weak, x)
    ensures x in m.objs && Remains(m, m2, cur, weak, x)
  {
    TidiedOne(m.objs, m1.objs, x);
    TidyWeak(m.objs, m1.objs, m.names, x);
    hide TableRemains, WeakKeys, WeakValues;
    if m.objs[x].Table? {
      TidiedTexts(m.objs, m1.objs);
      TidiedThenTable(m.objs[x], m1.objs[x], m2.objs[x], weak, WeakValues(m.objs, m.names, x), m.objs, m1.objs, m2);
    } else if m.objs[x].Upval? && m.objs[x].home.Open? {
      var th := m.objs[x].home.th;
      if th in m.objs { assert TidiedAt(m.objs[th], m1.objs[th]); }
    }
  }

  /** What stays does not change any more. */
  ghost predicate SameStays(objs: Heap, m: Marking, m': Marking) {
    forall v, isValue :: Stays(objs, m', v, isValue) == Stays(objs, m, v, isValue)
  }

  lemma SettledStays(objs: Heap, m: Marking, m': Marking, cur: Id)
    requires Settles(m, m', cur) && (forall x :: x in m'.objs <==> Alive(m, x))
             && forall x :: x in m'.objs ==> Alive(m', x)
    ensures SameStays(objs, m, m')
  {
    forall v, isValue ensures Stays(objs, m', v, isValue) == Stays(objs, m, v, isValue) {
      if v.Ref? && v.id in m'.objs { assert SettlesAt(m, m', cur, v.id); }
    }
  }

  lemma ThenSettled(m: Marking, m1: Marking, m2: Marking, cur: Id, weak: bool, x: Id)
    requires Settles(m1, m2, cur) && SameStays(m.objs, m1, m2) && x in m.objs && x in m1.objs && x in m2.objs
             && Remains(m, m1, cur, weak, x)
    ensures Remains(m, m2, cur, weak, x)
  {
    assert SettlesAt(m1, m2, cur, x);
    hide HomeVal, WeakValues, Stays, Settles;
    if m.objs[x].Table? {
      var o, o1 := m.objs[x], m1.objs[x];
      var wv := weak && WeakValues(m.objs, m.names, x);
      forall i | 0 <= i < |o.nodes| ensures NodeRemains(o.nodes[i], o1.nodes[i], weak, m.objs, m2) {
        assert NodeRemains(o.nodes[i], o1.nodes[i], weak, m.objs, m1);
      }
      forall i | 0 <= i < |o.arr| ensures SlotRemains(o.arr[i], o1.arr[i], wv, m.objs, m2) {
        assert SlotRemains(o.arr[i], o1.arr[i], wv, m.objs, m1);
      }
    }
  }

  lemma SettledThen(m: Marking, m1: Marking, m2: Marking, cur: Id, weak: bool, x: Id)
    requires Settles(m, m1, cur) && x in m1.objs && x in m2.objs && Remains(m1, m2, cur, weak, x) && AllExist(m1)
    requires x in m.objs && m.objs[x].Table? ==> WeakValues(m1.objs, m1.names, x) == WeakValues(m.objs, m.names, x)
    ensures x in m.objs && Remains(m, m2, cur, weak, x)
  {
    assert SettlesAt(m, m1, cur, x);
    if m.objs[x].Table? {
      hide HomeVal, WeakValues, TableRemains, AllExist, Settles;
      SettledTable(m, m1, m2, cur, weak, x, WeakValues(m.objs, m.names, x));
    } else {
      hide HomeVal, WeakValues, TableRemains, AllExist;
    }
  }

  lemma SettledTable(m: Marking, m1: Marking, m2: Marking, cur: Id, weak: bool, x: Id, wv: bool)
    requires Settles(m, m1, cur) && x in m1.objs && m1.objs[x].Table? && x in m2.objs && AllExist(m1)
    requires TableRemains(m1.objs[x], m2.objs[x], weak, wv, m1.objs, m2)
    ensures TableRemains(m1.objs[x], m2.objs[x], weak, wv, m.objs, m2)
  {
    var o, o' := m1.objs[x], m2.objs[x];
    hide NodeRemains, SlotRemains, Settles, IsText, AllExist;
    forall i | 0 <= i < |o.nodes| ensures NodeRemains(o.nodes[i], o'.nodes[i], weak, m.objs, m2) {
      if o.nodes[i].val != Nil { EntryExists(m1, x, i); }
      forall id | Ref(id) in [KeyVal(o.nodes[i].key), o.nodes[i].val] && o.nodes[i].val != Nil
        ensures IsText(m1.objs, id) == IsText(m.objs, id)
      {
        SettledText(m, m1, cur, id);
      }
      NodeTexts(o.nodes[i], o'.nodes[i], weak, m.objs, m1.objs, m2);
    }
    forall i | 0 <= i < |o.arr| ensures SlotRemains(o.arr[i], o'.arr[i], weak && wv, m.objs, m2) {
      if o.arr[i].Ref? {
        SlotExists(m1, x, o.arr[i].id);
        SettledText(m, m1, cur, o.arr[i].id);
      }
      SlotTexts(o.arr[i], o'.arr[i], weak && wv, m.objs, m1.objs, m2);
    }
  }

  lemma SettledText(m: Marking, m1: Marking, cur: Id, id: Id)
    requires Settles(m, m1, cur) && id in m1.objs
    ensures IsText(m1.objs, id) == IsText(m.objs, id)
  {
    assert SettlesAt(m, m1, cur, id);
  }

  // ---------------------------------------------------------------- a full collection

  lemma {:induction false} CycleRemains(g: G, n: nat, T: set<Id>, x: Id)
    requires Midway(g, T) && n >= Left(g) && x in CycleOut(g, n).m.objs
    ensures x in g.m.objs && Remains(g.m, CycleOut(g, n).m, g.cur, IsWeak(g.m.objs, g.m.names, x), x)
    decreases n
  {
    hide Midway, Inv, Left, Propagate, Atomic, Purged, Remains, IsWeak;
    assert Inv(g) && g.phase == Propagating by { MidwayIs(g, T); }
    LeftPositive(g);
    StepLeft(g);
    SingleStepKeeps(g);
    if g.m.gray != [] {
      var g1 := g.(m := Propagate(g.m));
      assert SingleStep(g) == g1;
      PropagateMidway(g, T);
      CycleRemains(g1, n - 1, T, x);
      PropagatedThen(g, CycleOut(g, n).m, x);
    } else {
      assert SingleStep(g) == Atomic(g);
      AtomicCycle(g, n - 1, T, x);
    }
  }

  lemma PropagateTidied(m: Marking)
    requires m.gray != []
    ensures Tidied(m.objs, Propagate(m).objs) && Propagate(m).names == m.names
  {
    PropagateAdvanced(m);
    AdvancedTidied(m, Propagate(m));
    AdvancedNames(m, Propagate(m));
  }

  lemma PropagatedThen(g: G, m': Marking, x: Id)
    requires g.m.gray != [] && x in Propagate(g.m).objs && x in m'.objs
    requires var m1 := Propagate(g.m); Remains(m1, m', g.cur, IsWeak(m1.objs, m1.names, x), x)
    ensures x in g.m.objs && Remains(g.m, m', g.cur, IsWeak(g.m.objs, g.m.names, x), x)
  {
    hide Propagate, Remains, IsWeak, Tidied;
    PropagateTidied(g.m);
    TidyIsWeak(g.m, Propagate(g.m), x);
    TidiedThen(g.m, Propagate(g.m), m', g.cur, IsWeak(g.m.objs, g.m.names, x), x);
  }

  lemma TidyIsWeak(m: Marking, m': Marking, x: Id)
    requires Tidied(m.objs, m'.objs) && m'.names == m.names
    ensures IsWeak(m'.objs, m'.names, x) == IsWeak(m.objs, m.names, x)
  {
    TidyWeak(m.objs, m'.objs, m.names, x);
  }

  lemma MidwayStrong(g: G, T: set<Id>)
    requires Midway(g, T)
    ensures Inv(g) && g.phase == Propagating && BlackStrong(g.m)
  {
  }

  lemma AtomicCycle(g: G, n: nat, T: set<Id>, x: Id)
    requires Midway(g, T) && n >= Left(Atomic(g)) && Inv(Atomic(g)) && x in CycleOut(Atomic(g), n).m.objs
    ensures x in g.m.objs && Remains(g.m, CycleOut(Atomic(g), n).m, g.cur, IsWeak(g.m.objs, g.m.names, x), x)
  {
    var g1, g2 := Atomic(g), CycleOut(Atomic(g), n);
    MidwayStrong(g, T);
    hide Midway, Inv, Left, Atomic, Purged, Remains, IsWeak, Settles, Alive, CycleOut, BlackStrong, SameStays;
    AtomicMoves(g);
    CycleSwept(g1, n, g1.m);
    StringTable(g1);
    SettlesSelf(g1.m, g1.cur);
    CycleSettles(g1, n, g1.m);
    CycleOutEnds(g1, n);
    forall y | y in g2.m.objs ensures Alive(g2.m, y) { CleanIsAlive(g2, y); }
    SettledStays(g.m.objs, g1.m, g2.m, g1.cur);
    AtomicFrame(g);
    assert x in g.m.objs;
    AtomicContents(g, x);
    ThenSettled(g.m, g1.m, g2.m, g.cur, IsWeak(g.m.objs, g.m.names, x), x);
  }

  lemma CleanIsAlive(g: G, x: Id)
    requires Inv(g) && AtRest(g) && x in g.m.objs
    ensures Alive(g.m, x)
  {
    AtRestColour(g, x);
    hide Inv;
  }

  lemma AtomicFrame(g: G)
    requires Inv(g) && g.phase == Propagating
    ensures Atomic(g).cur == g.cur && Atomic(g).m.objs.Keys == g.m.objs.Keys
  {
    AtomicKeeps(g);
  }

  /** What a full collection leaves is as it was; from the weak tables it has removed exactly the entries whose key or
      value is gone or whose value is a userdata that has been finalized. */
  lemma FullGcContents(g: G, x: Id)
    requires Inv(g) && x in FullGc(g).m.objs
    ensures x in g.m.objs && Remains(g.m, FullGc(g).m, g.cur, IsWeak(g.m.objs, g.m.names, x), x)
    ensures forall y :: y in FullGc(g).m.objs ==> Alive(FullGc(g).m, y)
  {
    var T, g0, g1 := Sparing(g), Restarted(g), Rested(g);
    var g2 := MarkRoot(g1);
    hide Inv, Sparing, Rested, Restarted, IsSpared, Midway, MarkRoot, Left, CycleOut, Remains, IsWeak, Purged, Settles,
      RootVals;
    SparingIs(g);
    RestartedKeeps(g);
    RestedKeeps(g);
    RestedKept(g, T);
    MarkRootMidway(g1, T);
    MarkRootKeeps(g1);
    MarkRootSame(g1);
    FullGcIs(g);
    FullGcExact(g, x);
    forall y | y in FullGc(g).m.objs ensures Alive(FullGc(g).m, y) {
      FullGcExact(g, y);
      CleanIsAlive(FullGc(g), y);
    }
    hide FullGc;
    LeftNat(g2);
    CycleRemains(g2, Bound(g2), T, x);
    PurgedSettles(g0.m, g1.m, g.cur);
    CursAre(g);
    RestRemains(g, FullGc(g).m, x);
  }

  lemma CursAre(g: G)
    requires Inv(g)
    ensures Rested(g).cur == g.cur && MarkRoot(Rested(g)).cur == g.cur
  {
    hide Inv, Rested, MarkAll;
    RestedKeeps(g);
    assert RootVals(Rested(g))[1] == RootVals(g)[1];
  }

  /** The contents of an object when marking begins are those that it had when the collection was called. */
  lemma RestRemains(g: G, m': Marking, x: Id)
    requires Inv(g) && x in m'.objs && x in MarkRoot(Rested(g)).m.objs
    requires var m2 := MarkRoot(Rested(g)).m; Remains(m2, m', g.cur, IsWeak(m2.objs, m2.names, x), x)
    ensures x in g.m.objs && Remains(g.m, m', g.cur, IsWeak(g.m.objs, g.m.names, x), x)
  {
    var m0, m1, m2 := Restarted(g).m, Rested(g).m, MarkRoot(Rested(g)).m;
    hide Inv, Rested, Restarted, MarkRoot, Remains, Purged, Settles, IsWeak, RootVals;
    RestartedKeeps(g);
    RestedKeeps(g);
    MarkRootSame(Rested(g));
    PurgedSettles(m0, m1, g.cur);
    SettledHas(m0, m1, g.cur, x);
    StillWeak(g, x);
    SameHeap(m1, m2, m', g.cur, IsWeak(m2.objs, m2.names, x), x);
    RestedExist(g);
    SettledThen(m0, m1, m', g.cur, IsWeak(g.m.objs, g.m.names, x), x);
    SameHeap(g.m, m0, m', g.cur, IsWeak(g.m.objs, g.m.names, x), x);
  }

  lemma RestedExist(g: G)
    requires Inv(g)
    ensures AllExist(Rested(g).m)
  {
    hide Rested, Inv, Purged, Restarted, RootVals;
    RestedKeeps(g);
    AliveParts(Rested(g));
    AllCleanExist(Rested(g));
  }

  lemma AllCleanExist(g: G)
    requires Inv(g) && g.phase == Finalize && AliveClosed(g.m)
    ensures AllExist(g.m)
  {
    hide Inv;
    forall id, x | Refers(g.m.objs, id, x) ensures x in g.m.objs {
      CleanIsAlive(g, id);
      hide Refers;
    }
  }

  lemma AliveParts(g: G)
    requires Inv(g)
    ensures AliveClosed(g.m)
  {
  }

  lemma SettledHas(m: Marking, m': Marking, cur: Id, x: Id)
    requires Settles(m, m', cur) && x in m'.objs
    ensures x in m.objs
  {
  }

  lemma SameHeap(m: Marking, m1: Marking, m2: Marking, cur: Id, weak: bool, x: Id)
    requires m1.objs == m.objs && m1.names == m.names && x in m1.objs && x in m2.objs && Remains(m1, m2, cur, weak, x)
    ensures Remains(m, m2, cur, weak, x)
  {
  }

  lemma StillWeak(g: G, x: Id)
    requires Inv(g) && x in Rested(g).m.objs
    ensures var m0, m1 := Restarted(g).m, Rested(g).m;
            IsWeak(m1.objs, m1.names, x) == IsWeak(m0.objs, m0.names, x)
            && (x in m0.objs && m0.objs[x].Table? ==>
                  WeakValues(m1.objs, m1.names, x) == WeakValues(m0.objs, m0.names, x))
  {
    var m0, m1 := Restarted(g).m, Rested(g).m;
    RestartedKeeps(g);
    RestedKeeps(g);
    assert AliveClosed(m0) && m1.names == m0.names;
    assert KeptAt(m0, m1, x);
    RestedIsAlive(g, x);
    hide Inv, Rested, Restarted, Purged, AliveClosed, Alive, RootVals;
    if m0.objs[x].Table? { PurgedTable(m0, m1, x); } else { NotWeak(m0, m1, x); }
  }

  lemma NotWeak(m: Marking, m': Marking, x: Id)
    requires x in m.objs && x in m'.objs && !m.objs[x].Table? && ObjKept(m.objs[x], m'.objs[x])
    ensures !IsWeak(m.objs, m.names, x) && !IsWeak(m'.objs, m'.names, x)
  {
  }

  lemma RestedIsAlive(g: G, x: Id)
    requires Inv(g) && x in Rested(g).m.objs
    ensures Alive(Restarted(g).m, x)
  {
    hide Inv, Rested, Restarted, Purged;
    RestartedKeeps(g);
    RestedKeeps(g);
    SweptExactly(Restarted(g).m, Rested(g), x);
  }

  // ---------------------------------------------------------------- any step of the collector

  /** What one step of the collector leaves. */
  lemma StepRemains(g: G, x: Id)
    requires Inv(g) && x in SingleStep(g).m.objs
    ensures x in g.m.objs
    ensures Remains(g.m, SingleStep(g).m, g.cur, g.phase == Propagating && g.m.gray == [] && Clearing(g, x), x)
  {
    hide Inv, Remains, MarkRoot, Propagate, Atomic, Clearing, Settles, SweepStringStep, SweepStep, Gctm;
    match g.phase
    case Pause => MarkRootSame(g); UnchangedRemains(g.m, SingleStep(g).m, g.cur, x);
    case Propagating =>
      if g.m.gray != [] {
        PropagateTidied(g.m);
        PropagatedRemains(g, x);
      } else {
        AtomicFrame(g);
        AtomicRemains(g, x);
      }
    case _ => StepSettles(g); SettledRemains(g.m, SingleStep(g).m, g.cur, x);
  }

  lemma UnchangedRemains(m: Marking, m': Marking, cur: Id, x: Id)
    requires m'.objs == m.objs && x in m.objs
    ensures Remains(m, m', cur, false, x)
  {
  }

  lemma SettledRemains(m: Marking, m': Marking, cur: Id, x: Id)
    requires Settles(m, m', cur) && x in m'.objs
    ensures x in m.objs && Remains(m, m', cur, false, x)
  {
    assert SettlesAt(m, m', cur, x);
    hide HomeVal, Settles;
    if m.objs[x].Table? { SameTable(m.objs[x], WeakValues(m.objs, m.names, x), m.objs, m'); }
  }

  lemma PropagatedRemains(g: G, x: Id)
    requires g.m.gray != [] && Tidied(g.m.objs, Propagate(g.m).objs) && Propagate(g.m).names == g.m.names
             && x in Propagate(g.m).objs
    ensures x in g.m.objs && Remains(g.m, Propagate(g.m), g.cur, false, x)
  {
    hide Propagate, Tidied, Remains;
    UnchangedRemains(Propagate(g.m), Propagate(g.m), g.cur, x);
    TidiedThen(g.m, Propagate(g.m), Propagate(g.m), g.cur, false, x);
  }
}
