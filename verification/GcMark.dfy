/** What marking keeps (lua/lgc.c:69-122, 166-295): no black object refers to a white one, and every gray
    object that is still to be traversed is on exactly one gray list. */
module GcMark {
  import opened GcHeap

  // ---------------------------------------------------------------- tables

  lemma {:induction false} WeakIsLess(nodes: seq<Node>, wk: bool, wv: bool, v: Val)
    requires v in NodeVals(nodes, wk, wv)
    ensures v in NodeVals(nodes, false, false)
    decreases |nodes|
  {
    if v !in EntryVals(nodes[|nodes| - 1], wk, wv) { WeakIsLess(nodes[..|nodes| - 1], wk, wv, v); }
  }

  lemma {:induction false} NodeValsClean(nodes: seq<Node>, wk: bool, wv: bool)
    ensures NodeVals(CleanNodes(nodes), wk, wv) == NodeVals(nodes, wk, wv)
    decreases |nodes|
  {
    if nodes != [] {
      assert CleanNodes(nodes)[..|nodes| - 1] == CleanNodes(nodes[..|nodes| - 1]);
      NodeValsClean(nodes[..|nodes| - 1], wk, wv);
    }
  }

  lemma {:induction false} LookupClean(nodes: seq<Node>, key: Val)
    ensures Lookup(CleanNodes(nodes), key) == Lookup(nodes, key)
    decreases |nodes|
  {
    if nodes != [] {
      assert CleanNodes(nodes)[1..] == CleanNodes(nodes[1..]);
      LookupClean(nodes[1..], key);
    }
  }

  lemma {:induction false} EntryHeld(nodes: seq<Node>, i: nat)
    requires i < |nodes| && nodes[i].val != Nil
    ensures KeyVal(nodes[i].key) in NodeVals(nodes, false, false) && nodes[i].val in NodeVals(nodes, false, false)
    decreases |nodes|
  {
    if i < |nodes| - 1 { EntryHeld(nodes[..|nodes| - 1], i); }
  }

  /** A traversed table keeps no collectable key of an empty entry. */
  lemma CleanKeys(nodes: seq<Node>, x: Id)
    requires Ref(x) in KeyVals(CleanNodes(nodes))
    ensures Ref(x) in NodeVals(nodes, false, false)
  {
    var i :| 0 <= i < |nodes| && KeyVals(CleanNodes(nodes))[i] == Ref(x);
    EntryHeld(nodes, i);
  }

  /** What is held strongly is held. */
  lemma StrongIsLess(objs: Heap, names: Names, o: Id, x: Id)
    requires StronglyRefers(objs, names, o, x)
    ensures Refers(objs, o, x)
  {
    if objs[o].Table? && Ref(x) in NodeVals(objs[o].nodes, WeakKeys(objs, names, o), WeakValues(objs, names, o)) {
      WeakIsLess(objs[o].nodes, WeakKeys(objs, names, o), WeakValues(objs, names, o), Ref(x));
    }
  }

  /** `objs'` is `objs` without the keys of empty entries of some tables. */
  ghost predicate Tidied(objs: Heap, objs': Heap) {
    objs'.Keys == objs.Keys && forall id :: id in objs ==> TidiedAt(objs[id], objs'[id])
  }

  ghost predicate TidiedAt(o: Obj, o': Obj) { o' == o || (o.Table? && o' == o.(nodes := CleanNodes(o.nodes))) }

  lemma TidiedTwice(objs0: Heap, objs1: Heap, objs2: Heap)
    requires Tidied(objs0, objs1) && Tidied(objs1, objs2)
    ensures Tidied(objs0, objs2)
  {
    forall id | id in objs0 ensures TidiedAt(objs0[id], objs2[id]) {
      assert TidiedAt(objs0[id], objs1[id]) && TidiedAt(objs1[id], objs2[id]);
      if objs0[id].Table? { assert CleanNodes(CleanNodes(objs0[id].nodes)) == CleanNodes(objs0[id].nodes); }
    }
  }

  lemma TidyMeta(objs: Heap, objs': Heap, mt: Val, name: Id)
    requires Tidied(objs, objs')
    ensures MetaField(objs', mt, name) == MetaField(objs, mt, name)
  {
    if mt.Ref? && mt.id in objs && objs[mt.id].Table? {
      assert TidiedAt(objs[mt.id], objs'[mt.id]);
      LookupClean(objs[mt.id].nodes, Ref(name));
    }
  }

  lemma TidyWeak(objs: Heap, objs': Heap, names: Names, id: Id)
    requires Tidied(objs, objs')
    ensures WeakKeys(objs', names, id) == WeakKeys(objs, names, id)
    ensures WeakValues(objs', names, id) == WeakValues(objs, names, id)
  {
    if id in objs && objs[id].Table? {
      assert TidiedAt(objs[id], objs'[id]);
      TidyMeta(objs, objs', objs[id].mt, names.mode);
      var mode := MetaField(objs, objs[id].mt, names.mode);
      if mode.Ref? && mode.id in objs { assert TidiedAt(objs[mode.id], objs'[mode.id]); }
    }
  }

  lemma TidyFields(objs: Heap, objs': Heap, id: Id, wk: bool, wv: bool)
    requires Tidied(objs, objs') && id in objs
    ensures Fields(objs', objs'[id], wk, wv) == Fields(objs, objs[id], wk, wv)
  {
    assert TidiedAt(objs[id], objs'[id]);
    match objs[id]
    case Table(_, _, nodes) => NodeValsClean(nodes, wk, wv);
    case Upval(Open(th, _)) => if th in objs { assert TidiedAt(objs[th], objs'[th]); }
    case _ =>
  }

  lemma TidyRefers(objs: Heap, objs': Heap, names: Names, id: Id)
    requires Tidied(objs, objs')
    ensures StrongFields(objs', names, id) == StrongFields(objs, names, id)
    ensures FieldsAt(objs', id) == FieldsAt(objs, id)
    ensures forall x :: Holds(objs', id, x) ==> Holds(objs, id, x)
  {
    if id in objs {
      TidyWeak(objs, objs', names, id);
      TidyFields(objs, objs', id, WeakKeys(objs, names, id), WeakValues(objs, names, id));
      TidyFields(objs, objs', id, false, false);
      assert TidiedAt(objs[id], objs'[id]);
      if objs'[id] != objs[id] { CleanHolds(objs, objs', id); }
    }
  }

  /** A traversed table holds only what it refers to. */
  lemma CleanHolds(objs: Heap, objs': Heap, id: Id)
    requires Tidied(objs, objs') && id in objs && objs[id].Table? && objs'[id].nodes == CleanNodes(objs[id].nodes)
    ensures forall x :: Holds(objs', id, x) ==> Refers(objs, id, x)
  {
    assert TidiedAt(objs[id], objs'[id]);
    TidyFields(objs, objs', id, false, false);
    forall x | Holds(objs', id, x) ensures Refers(objs, id, x) {
      if Ref(x) in KeyVals(objs'[id].nodes) { CleanKeys(objs[id].nodes, x); }
    }
  }

  // ---------------------------------------------------------------- what marking changes

  /** Marking touches marks of white objects and the first gray list. */
  ghost predicate Marked(m: Marking, m': Marking) {
    && m' == m.(marks := m'.marks, gray := m'.gray)
    && m'.marks.Keys == m.marks.Keys
    && forall id :: id in m.marks ==> MarkedAt(m, m', id)
  }

  ghost predicate MarkedAt(m: Marking, m': Marking, id: Id)
    requires id in m.marks && id in m'.marks
  {
    || m'.marks[id] == m.marks[id]
    || (IsWhite(m, id) && id in m.objs && m'.marks[id] == m.marks[id].(colour := MarkedColour(m.objs[id])))
  }

  lemma MarkedThen(m: Marking, id: Id, m': Marking)
    requires id in m.objs && IsWhite(m, id) && Marked(MarkOne(m, id), m')
    ensures Marked(m, m') && !IsWhite(m', id)
  {
    var m1 := MarkOne(m, id);
    assert m1.objs == m.objs && m1.marks == m.marks[id := m.marks[id].(colour := MarkedColour(m.objs[id]))];
    assert m1 == m.(marks := m1.marks, gray := m1.gray);
    assert MarkedAt(m1, m', id);
    hide MarkOne, MarkedColour;
    forall j | j in m.marks ensures MarkedAt(m, m', j) { assert MarkedAt(m1, m', j); }
  }

  lemma {:induction false} MarkAllMarked(m: Marking, vs: seq<Val>)
    ensures Marked(m, MarkAll(m, vs))
    ensures |Whites(MarkAll(m, vs))| + |MarkAll(m, vs).gray| <= |Whites(m)| + |m.gray|
    ensures forall id :: Ref(id) in vs && id in m.objs ==> !IsWhite(MarkAll(m, vs), id)
    decreases |Whites(m)|, |vs|
  {
    if vs != [] {
      if Markable(m, vs[0]) {
        var m1 := MarkOne(m, vs[0].id);
        MarkAllMarked(m1, Inner(m.objs, m.objs[vs[0].id]) + vs[1..]);
        assert |Whites(m)| == |Whites(m) - {vs[0].id}| + 1;
        MarkedThen(m, vs[0].id, MarkAll(m, vs));
      } else {
        MarkAllMarked(m, vs[1..]);
      }
      assert vs == [vs[0]] + vs[1..];
    }
  }

  // ---------------------------------------------------------------- the invariant

  function Count(m: Marking, id: Id): nat {
    multiset(m.gray)[id] + multiset(m.grayagain)[id] + multiset(m.weak)[id]
  }

  /** Gray objects that are to be traversed are on one list, once, and nothing else is on a list. */
  ghost predicate ListsOk(m: Marking) {
    && (forall id :: Count(m, id) == if id in m.objs && IsGray(m, id) && Traversed(m.objs[id]) then 1 else 0)
    && (forall id :: id in m.weak ==> id in m.objs && m.objs[id].Table?)
  }

  /** Strings, threads and open upvalues are never black; userdata and closed upvalues are never gray. */
  predicate KindOk(o: Obj, c: Colour) {
    match o
    case Str(_) => !c.Black?
    case Thread(_, _, _) => !c.Black?
    case Upval(Open(_, _)) => !c.Black?
    case Upval(Closed(_)) => !c.Gray?
    case Udata(_, _) => !c.Gray?
    case _ => true
  }

  ghost predicate KindsOk(m: Marking) {
    m.marks.Keys == m.objs.Keys && forall id :: id in m.objs ==> KindOk(m.objs[id], m.marks[id].colour)
  }

  /** Objects whose references have been marked. Black objects always are. In the atomic phase so are, one
      stage after the other, gray upvalues, weak tables and what is to be traversed again. */
  ghost predicate Settled(m: Marking, id: Id, stage: nat) {
    || IsBlack(m, id)
    || (stage >= 1 && id in m.objs && m.objs[id].Upval? && IsGray(m, id))
    || (stage >= 2 && id in m.weak)
    || (stage >= 3 && id in m.grayagain)
  }

  ghost predicate Due(m: Marking, id: Id, x: Id) {
    if IsBlack(m, id) then Holds(m.objs, id, x) else StronglyRefers(m.objs, m.names, id, x)
  }

  /** What settled objects refer to is not white, or still to be marked now. `q` are userdata that have waited for
      their finalizers since an earlier cycle: they may have stayed black while what they refer to became white. */
  ghost predicate SettledOk(m: Marking, q: set<Id>, debt: seq<Val>, stage: nat) {
    forall id, x {:trigger Due(m, id, x)} ::
      id in m.objs && id !in q && Settled(m, id, stage) && Due(m, id, x) && IsWhite(m, x) ==> Ref(x) in debt
  }

  /** The bits that `cleartable` looks at say how the table was traversed. At the end only threads are to be
      traversed again. */
  ghost predicate WeakOk(m: Marking, stage: nat) {
    && (stage >= 2 ==> forall id :: id in m.weak && id in m.marks ==>
         && m.marks[id].weakKey == WeakKeys(m.objs, m.names, id)
         && m.marks[id].weakVal == WeakValues(m.objs, m.names, id)
         && (m.marks[id].weakKey || m.marks[id].weakVal))
    && (stage >= 3 ==> forall id :: id in m.grayagain ==> id in m.objs && m.objs[id].Thread?)
  }

  ghost predicate MarkInv(m: Marking, q: set<Id>, debt: seq<Val>, stage: nat) {
    KindsOk(m) && ListsOk(m) && WeakOk(m, stage) && SettledOk(m, q, debt, stage)
  }

  lemma MarkOneLists(m: Marking, id: Id)
    requires ListsOk(m) && id in m.objs && IsWhite(m, id)
    ensures ListsOk(MarkOne(m, id))
  {
    var m1 := MarkOne(m, id);
    assert Count(m, id) == 0;
    forall j ensures Count(m1, j) == if j in m1.objs && IsGray(m1, j) && Traversed(m1.objs[j]) then 1 else 0 {
      assert Count(m1, j) == Count(m, j) + if j == id && Traversed(m.objs[id]) then 1 else 0;
    }
  }

  lemma MarkOneSettled(m: Marking, q: set<Id>, id: Id, vs: seq<Val>, stage: nat, j: Id, x: Id)
    requires ListsOk(m) && SettledOk(m, q, [Ref(id)] + vs, stage) && id in m.objs && IsWhite(m, id)
    requires var m1 := MarkOne(m, id);
             j in m.objs && j !in q && Settled(m1, j, stage) && Due(m1, j, x) && IsWhite(m1, x)
    ensures Ref(x) in Inner(m.objs, m.objs[id]) + vs
  {
    assert Count(m, id) == 0;
    if j == id {
      assert id !in m.grayagain && id !in m.weak;
    } else {
      assert Settled(m, j, stage) && Due(m, j, x);
    }
  }

  lemma MarkOneKinds(m: Marking, id: Id, stage: nat)
    requires KindsOk(m) && WeakOk(m, stage) && id in m.objs && IsWhite(m, id) && id !in m.weak
    ensures KindsOk(MarkOne(m, id)) && WeakOk(MarkOne(m, id), stage)
  {
    hide WeakKeys, WeakValues;
    var m1 := MarkOne(m, id);
    forall j | j in m1.marks && j != id ensures m1.marks[j] == m.marks[j] { }
  }

  lemma MarkOneInv(m: Marking, q: set<Id>, id: Id, vs: seq<Val>, stage: nat)
    requires MarkInv(m, q, [Ref(id)] + vs, stage) && id in m.objs && IsWhite(m, id)
    ensures MarkInv(MarkOne(m, id), q, Inner(m.objs, m.objs[id]) + vs, stage)
  {
    var m1 := MarkOne(m, id);
    assert Count(m, id) == 0;
    assert id !in m.weak;
    hide ListsOk, KindsOk, WeakOk, Count, Inner;
    MarkOneLists(m, id);
    MarkOneKinds(m, id, stage);
    forall j, x | j in m1.objs && j !in q && Settled(m1, j, stage) && Due(m1, j, x) && IsWhite(m1, x)
      ensures Ref(x) in Inner(m.objs, m.objs[id]) + vs
    {
      MarkOneSettled(m, q, id, vs, stage, j, x);
    }
  }

  lemma PaidInv(m: Marking, q: set<Id>, v: Val, vs: seq<Val>, stage: nat)
    requires MarkInv(m, q, [v] + vs, stage) && !Markable(m, v)
    ensures MarkInv(m, q, vs, stage)
  {
    forall j, x | j in m.objs && j !in q && Settled(m, j, stage) && Due(m, j, x) && IsWhite(m, x) ensures Ref(x) in vs {
      assert Ref(x) in [v] + vs;
    }
  }

  /** Marking what is due restores the invariant. */
  lemma {:induction false} MarkAllInv(m: Marking, q: set<Id>, vs: seq<Val>, rest: seq<Val>, stage: nat)
    requires MarkInv(m, q, vs + rest, stage)
    ensures MarkInv(MarkAll(m, vs), q, rest, stage)
    decreases |Whites(m)|, |vs|
  {
    hide MarkInv;
    if vs == [] {
      assert vs + rest == rest;
    } else {
      assert vs + rest == [vs[0]] + (vs[1..] + rest);
      if Markable(m, vs[0]) {
        var inner := Inner(m.objs, m.objs[vs[0].id]);
        MarkOneInv(m, q, vs[0].id, vs[1..] + rest, stage);
        assert inner + (vs[1..] + rest) == (inner + vs[1..]) + rest;
        MarkAllInv(MarkOne(m, vs[0].id), q, inner + vs[1..], rest, stage);
      } else {
        PaidInv(m, q, vs[0], vs[1..] + rest, stage);
        MarkAllInv(m, q, vs[1..], rest, stage);
      }
    }
  }

  // ---------------------------------------------------------------- traversing

  lemma PlacedLists(m: Marking, way: Way)
    requires m.gray != [] && ListsOk(m)
    requires way.KeepWeak? ==> m.gray[0] in m.objs && m.objs[m.gray[0]].Table?
    ensures ListsOk(Placed(m.(gray := m.gray[1..]), m.gray[0], way))
  {
    hide Count, Traversed;
    var o := m.gray[0];
    var m1 := Placed(m.(gray := m.gray[1..]), o, way);
    OnList(m, o);
    forall j ensures Count(m1, j) == if j in m1.objs && IsGray(m1, j) && Traversed(m1.objs[j]) then 1 else 0 {
      PlacedCount(m, way, j);
    }
  }

  lemma OnList(m: Marking, o: Id)
    requires ListsOk(m) && o in m.gray
    ensures o in m.objs && IsGray(m, o) && Traversed(m.objs[o])
  {
    assert Count(m, o) > 0;
  }

  lemma PlacedCount(m: Marking, way: Way, j: Id)
    requires m.gray != []
    ensures Count(Placed(m.(gray := m.gray[1..]), m.gray[0], way), j) == Count(m, j) - if j == m.gray[0]
            && way == Darken then 1 else 0
  {
    assert m.gray == [m.gray[0]] + m.gray[1..];
  }

  lemma TidiedLists(m: Marking, m': Marking)
    requires ListsOk(m) && Tidied(m.objs, m'.objs) && m' == m.(objs := m'.objs)
    ensures ListsOk(m')
  {
    forall j ensures Count(m', j) == if j in m'.objs && IsGray(m', j) && Traversed(m'.objs[j]) then 1 else 0 {
      assert Count(m', j) == Count(m, j);
      if j in m.objs { assert TidiedAt(m.objs[j], m'.objs[j]); }
    }
    forall j | j in m'.weak ensures m'.objs[j].Table? { assert TidiedAt(m.objs[j], m'.objs[j]); }
  }

  lemma OpenedTidied(m: Marking, o: Id)
    ensures Tidied(m.objs, Opened(m, o).objs)
    ensures Opened(m, o) == Placed(m, o, WayOf(m, o)).(objs := Opened(m, o).objs)
    ensures WayOf(m, o) == Darken && o in m.objs && m.objs[o].Table? ==>
              Opened(m, o).objs[o].nodes == CleanNodes(m.objs[o].nodes)
  {
    hide WeakKeys, WeakValues, CleanNodes;
    var way := WayOf(m, o);
    assert Tidied(m.objs, Cleaned(m, o).objs) && Cleaned(m, o) == m.(objs := Cleaned(m, o).objs);
    hide Cleaned, Tidied;
    PlacedObjs(m, o, way, Cleaned(m, o).objs);
  }

  /** Where an object is put does not depend on what objects contain. */
  lemma PlacedObjs(m: Marking, o: Id, way: Way, objs: Heap)
    ensures Placed(m.(objs := objs), o, way) == Placed(m, o, way).(objs := objs)
    ensures Placed(m, o, way).objs == m.objs
  {
  }

  lemma OpenedLists(m: Marking)
    requires m.gray != [] && ListsOk(m)
    ensures ListsOk(Opened(m.(gray := m.gray[1..]), m.gray[0]))
  {
    var o, m0 := m.gray[0], m.(gray := m.gray[1..]);
    PlacedLists(m, WayOf(m0, o));
    OpenedTidied(m0, o);
    TidiedLists(Placed(m0, o, WayOf(m0, o)), Opened(m0, o));
  }

  lemma PlacedMarks(m: Marking, o: Id, way: Way)
    requires IsGray(m, o)
    ensures forall x :: IsWhite(Placed(m, o, way), x) ==> IsWhite(m, x)
    ensures forall j ::
              j != o ==>
                (IsBlack(Placed(m, o, way), j) <==> IsBlack(m, j)) && (IsGray(Placed(m, o, way), j) <==> IsGray(m, j))
    ensures IsBlack(Placed(m, o, way), o) <==> way == Darken
    ensures forall j ::
              j != o ==>
                (j in Placed(m, o, way).weak <==> j in m.weak)
                && (j in Placed(m, o, way).grayagain <==> j in m.grayagain)
  {
  }

  lemma OpenedSettled(m: Marking, q: set<Id>, m1: Marking, way: Way, stage: nat, j: Id, x: Id)
    requires m.gray != [] && ListsOk(m) && SettledOk(m, q, [], stage) && Tidied(m.objs, m1.objs)
    requires m1 == Placed(m.(gray := m.gray[1..]), m.gray[0], way).(objs := m1.objs)
    requires j in m1.objs && j !in q && Settled(m1, j, stage) && Due(m1, j, x) && IsWhite(m1, x)
    requires way == WayOf(m, m.gray[0])
    requires way == Darken && m.gray[0] in m.objs && m.objs[m.gray[0]].Table? ==>
               m1.objs[m.gray[0]].nodes == CleanNodes(m.objs[m.gray[0]].nodes)
    ensures Ref(x) in StrongFields(m.objs, m.names, m.gray[0])
  {

    var o := m.gray[0];
    assert Count(m, o) == 1;
    PlacedMarks(m.(gray := m.gray[1..]), o, way);
    TidyRefers(m.objs, m1.objs, m.names, j);
    if j == o {
      if way == Darken && m.objs[o].Table? { CleanHolds(m.objs, m1.objs, o); }
    } else {
      assert Settled(m, j, stage) && Due(m, j, x) && IsWhite(m, x);
    }
  }

  lemma OpenedKinds(m: Marking, o: Id)
    requires KindsOk(m) && IsGray(m, o) && o in m.objs && Traversed(m.objs[o])
    ensures KindsOk(Opened(m, o))
  {
    hide Fields, WeakKeys, WeakValues;
    OpenedTidied(m, o);
    forall j | j in m.objs ensures KindOk(Opened(m, o).objs[j], Opened(m, o).marks[j].colour) {
      assert TidiedAt(m.objs[j], Opened(m, o).objs[j]);
    }
  }

  lemma OpenedWeak(m: Marking, o: Id, stage: nat)
    requires WeakOk(m, stage) && o !in m.weak && o in m.marks
    ensures WeakOk(Opened(m, o), stage)
  {
    var m1 := Opened(m, o);
    OpenedTidied(m, o);
    hide Opened, Fields, WeakBy;
    forall j | j in m1.weak && j in m1.marks && stage >= 2
      ensures m1.marks[j].weakKey == WeakKeys(m1.objs, m.names, j)
              && m1.marks[j].weakVal == WeakValues(m1.objs, m.names, j)
    {
      TidyWeak(m.objs, m1.objs, m.names, j);
    }
  }

  lemma HeadGray(m: Marking)
    requires m.gray != [] && ListsOk(m)
    ensures var o := m.gray[0]; o in m.objs && IsGray(m, o) && Traversed(m.objs[o]) && o !in m.weak && o !in m.grayagain
  {
    assert Count(m, m.gray[0]) == 1;
  }

  lemma KindsWithoutHead(m: Marking, stage: nat)
    requires KindsOk(m) && WeakOk(m, stage) && m.gray != []
    ensures KindsOk(m.(gray := m.gray[1..])) && WeakOk(m.(gray := m.gray[1..]), stage)
  {
  }

  lemma OpenedInv(m: Marking, q: set<Id>, stage: nat)
    requires m.gray != [] && MarkInv(m, q, [], stage)
    ensures MarkInv(Opened(m.(gray := m.gray[1..]), m.gray[0]), q, StrongFields(m.objs, m.names, m.gray[0]), stage)
  {
    hide KindsOk, ListsOk, WeakOk, Due, Settled, StrongFields, Opened;
    var o, m0 := m.gray[0], m.(gray := m.gray[1..]);
    var m1 := Opened(m0, o);
    OpenedTidied(m0, o);
    OpenedLists(m);
    assert o in m.objs && IsGray(m, o) && Traversed(m.objs[o]) && o !in m.weak by { HeadGray(m); }
    assert KindsOk(m0) && WeakOk(m0, stage) by { KindsWithoutHead(m, stage); }
    OpenedKinds(m0, o);
    OpenedWeak(m0, o, stage);
    forall j, x | j in m1.objs && j !in q && Settled(m1, j, stage) && Due(m1, j, x) && IsWhite(m1, x)
      ensures Ref(x) in StrongFields(m.objs, m.names, o)
    {
      OpenedSettled(m, q, m1, WayOf(m0, o), stage, j, x);
    }
  }

  /** Traversing one gray object keeps the invariant. */
  lemma PropagateInv(m: Marking, q: set<Id>, stage: nat)
    requires m.gray != [] && MarkInv(m, q, [], stage)
    ensures MarkInv(Propagate(m), q, [], stage)
  {
    OpenedInv(m, q, stage);
    var vs := StrongFields(m.objs, m.names, m.gray[0]);
    assert vs + [] == vs;
    MarkAllInv(Opened(m.(gray := m.gray[1..]), m.gray[0]), q, vs, [], stage);
  }

  lemma FewerWhites(m: Marking, o: Id)
    ensures Whites(Opened(m, o)) == Whites(m) || Whites(Opened(m, o)) == Whites(m) - {o}
    ensures Opened(m, o).gray == m.gray
  {
    OpenedTidied(m, o);
    hide Opened, WayOf;
    if WayOf(m, o) == Darken && o in m.marks {
      assert Whites(Opened(m, o)) == Whites(m) - {o};
    } else {
      assert Whites(Opened(m, o)) == Whites(m);
    }
  }

  lemma PropagateShrinks(m: Marking)
    requires m.gray != []
    ensures |Whites(Propagate(m))| + |Propagate(m).gray| < |Whites(m)| + |m.gray|
  {
    var o, m0 := m.gray[0], m.(gray := m.gray[1..]);
    FewerWhites(m0, o);
    MarkAllMarked(Opened(m0, o), StrongFields(m.objs, m.names, o));
    assert Whites(m0) == Whites(m);
    if Whites(Opened(m0, o)) == Whites(m) - {o} { assert |Whites(m) - {o}| <= |Whites(m)|; }
  }
}
