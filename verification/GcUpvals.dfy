/** Open upvalues (lua/lfunc.c:53-112): a slot of a stack has at most one, all closures that capture the slot
    share it, and closing keeps every value that can be seen through an upvalue. */
module GcUpvals {
  import opened GcHeap
  import opened GcMark
  import opened GcCollector
  import opened GcState
  import opened GcClose
  import opened GcMutator
  import opened GcAllocate
  import opened GcStrings

  function LevelOf(m: Marking, uv: Id): int { if uv in m.objs && IsOpen(m.objs[uv]) then m.objs[uv].home.level else -1 }

  /** The search of `luaF_findupval` in the list of open upvalues. */
  function FindLevel(m: Marking, l: seq<Id>, level: nat): Val {
    if l == [] || LevelOf(m, l[0]) < level then Nil
    else if LevelOf(m, l[0]) == level then Ref(l[0])
    else FindLevel(m, l[1..], level)
  }

  /** Where a new upvalue is chained. */
  function Insert(m: Marking, l: seq<Id>, level: nat, id: Id): seq<Id> {
    if l == [] || LevelOf(m, l[0]) < level then [id] + l else [l[0]] + Insert(m, l[1..], level, id)
  }

  function NewUpval(g: G, level: nat, id: Id): G {
    var m := AddObj(g.m, id, Upval(Open(g.cur, level)));
    g.(m := SetOpen(m, g.cur, Insert(g.m, OpenList(g.m, g.cur), level, id)), uvhead := [id] + g.uvhead)
  }

  function Captured(g: G, level: nat, id: Id): Val {
    var r := FindLevel(g.m, OpenList(g.m, g.cur), level);
    if r.Ref? then r else Ref(id)
  }

  /** `luaF_findupval` for the running thread; `id` is used if the slot has no upvalue yet. */
  function FindUpval(g: G, level: nat, id: Id): G {
    var r := FindLevel(g.m, OpenList(g.m, g.cur), level);
    if r.Ref? then Revive(g, r.id) else NewUpval(g, level, id)
  }

  // ---------------------------------------------------------------- the list of a thread

  /** All entries are open upvalues, in strictly descending order. */
  ghost predicate Levels(m: Marking, l: seq<Id>) {
    && (forall i :: 0 <= i < |l| ==> AtOrAbove(m, l[i], 0))
    && (forall i, j :: 0 <= i < j < |l| ==> LevelOf(m, l[i]) > LevelOf(m, l[j]))
  }

  lemma ListLevels(m: Marking, th: Id)
    requires ThreadsOk(m) && th in m.objs && m.objs[th].Thread?
    ensures Levels(m, OpenList(m, th))
  {
    var l := OpenList(m, th);
    assert OpenListOk(m, th);
    forall i | 0 <= i < |l| ensures AtOrAbove(m, l[i], 0) {
      assert multiset(l)[l[i]] > 0;
      assert OpenOn(m, l[i], th);
    }
  }

  lemma {:induction false} FindLevelIs(m: Marking, l: seq<Id>, level: nat)
    requires Levels(m, l)
    ensures var r := FindLevel(m, l, level);
            && (r.Ref? ==> r.id in l && LevelOf(m, r.id) == level)
            && (r == Nil ==> forall u :: u in l ==> LevelOf(m, u) != level)
            && (r.Ref? || r == Nil)
    decreases |l|
  {
    if l != [] {
      assert l == [l[0]] + l[1..];
      assert Levels(m, l[1..]);
      FindLevelIs(m, l[1..], level);
      forall u | u in l && u != l[0] ensures LevelOf(m, u) < LevelOf(m, l[0]) {
        var i :| 0 <= i < |l| && l[i] == u;
      }
    }
  }

  lemma {:induction false} InsertCount(m: Marking, l: seq<Id>, level: nat, id: Id, x: Id)
    ensures multiset(Insert(m, l, level, id))[x] == multiset(l)[x] + if x == id then 1 else 0
    decreases |l|
  {
    if l != [] {
      assert l == [l[0]] + l[1..];
      InsertCount(m, l[1..], level, id, x);
    }
  }

  lemma ConsLevels(m: Marking, h: Id, t: seq<Id>)
    requires Levels(m, t) && AtOrAbove(m, h, 0) && forall u :: u in t ==> LevelOf(m, h) > LevelOf(m, u)
    ensures Levels(m, [h] + t)
  {
  }

  lemma HeadLevels(m: Marking, l: seq<Id>)
    requires Levels(m, l) && l != []
    ensures Levels(m, l[1..]) && AtOrAbove(m, l[0], 0) && forall u :: u in l[1..] ==> LevelOf(m, l[0]) > LevelOf(m, u)
  {
    forall u | u in l[1..] ensures LevelOf(m, l[0]) > LevelOf(m, u) {
      var i :| 0 <= i < |l[1..]| && l[1..][i] == u;
      assert l[i + 1] == u;
    }
  }

  lemma InInsert(m: Marking, l: seq<Id>, level: nat, id: Id, u: Id)
    requires u in Insert(m, l, level, id)
    ensures u in l || u == id
  {
    InsertCount(m, l, level, id, u);
    assert multiset(Insert(m, l, level, id))[u] > 0;
  }

  lemma SameLevels(m: Marking, m': Marking, l: seq<Id>)
    requires Levels(m, l) && forall u :: u in l ==> LevelOf(m', u) == LevelOf(m, u) && AtOrAbove(m', u, 0)
    ensures Levels(m', l)
  {
  }

  /** The new upvalue takes its place in the order. */
  lemma {:induction false} InsertLevels(m: Marking, m': Marking, l: seq<Id>, level: nat, id: Id)
    requires Levels(m, l)
             && (forall u ::
                   u in l ==> LevelOf(m, u) != level && LevelOf(m', u) == LevelOf(m, u) && AtOrAbove(m', u, 0))
    requires LevelOf(m', id) == level && AtOrAbove(m', id, 0)
    ensures Levels(m', Insert(m, l, level, id))
    decreases |l|
  {
    hide Levels, LevelOf, AtOrAbove;
    if l == [] {
      SameLevels(m, m', l);
      ConsLevels(m', id, l);
    } else {
      HeadLevels(m, l);
      assert l == [l[0]] + l[1..];
      if LevelOf(m, l[0]) < level {
        SameLevels(m, m', l);
        ConsLevels(m', id, l);
      } else {
        InsertLevels(m, m', l[1..], level, id);
        forall u | u in Insert(m, l[1..], level, id)
          ensures LevelOf(m', l[0]) > LevelOf(m', u)
        {
          InInsert(m, l[1..], level, id, u);
        }
        ConsLevels(m', l[0], Insert(m, l[1..], level, id));
      }
    }
  }

  lemma LevelsDescend(m: Marking, l: seq<Id>)
    requires Levels(m, l)
    ensures Descending(m, l)
  {
    forall i, j | 0 <= i < j < |l| && AtOrAbove(m, l[i], 0) && AtOrAbove(m, l[j], 0)
      ensures m.objs[l[i]].home.level > m.objs[l[j]].home.level
    {
      assert LevelOf(m, l[i]) > LevelOf(m, l[j]);
    }
  }

  // ---------------------------------------------------------------- a new upvalue

  /** The heap after `NewUpval`. */
  function WithUpval(m: Marking, th: Id, level: nat, id: Id): Marking {
    SetOpen(AddObj(m, id, Upval(Open(th, level))), th, Insert(m, OpenList(m, th), level, id))
  }

  ghost predicate NewUpvalOk(m: Marking, th: Id, level: nat, id: Id) {
    && id !in m.objs && th in m.objs && m.objs[th].Thread? && level < |m.objs[th].stack|
    && FindLevel(m, OpenList(m, th), level) == Nil
  }

  lemma WithUpvalIs(m: Marking, th: Id, level: nat, id: Id)
    requires NewUpvalOk(m, th, level, id)
    ensures var m' := WithUpval(m, th, level, id);
            && m' == m.(objs := m'.objs, marks := m.marks[id := NewMark(m)])
            && m'.objs
                 == m.objs[id := Upval(Open(th, level))][th :=
                 m.objs[th].(open := Insert(m, OpenList(m, th), level, id))]
            && (forall x :: x in m.objs && x != th ==> m'.objs[x] == m.objs[x])
            && m'.objs.Keys == m.objs.Keys + {id}
  {
  }

  lemma WithUpvalHere(m: Marking, th: Id, level: nat, id: Id)
    requires NewUpvalOk(m, th, level, id) && ThreadsOk(m)
    ensures Descending(WithUpval(m, th, level, id), Insert(m, OpenList(m, th), level, id))
  {
    var m', l := WithUpval(m, th, level, id), OpenList(m, th);
    WithUpvalIs(m, th, level, id);
    assert OpenListOk(m, th);
    ListLevels(m, th);
    hide WithUpval, Insert;
    forall u | u in l ensures LevelOf(m', u) == LevelOf(m, u) && AtOrAbove(m', u, 0) {
      assert multiset(l)[u] > 0;
      assert OpenOn(m, u, th);
    }
    FindLevelIs(m, l, level);
    assert LevelOf(m', id) == level && AtOrAbove(m', id, 0);
    hide LevelOf, AtOrAbove, Levels, OpenListOk, OpenOn, ThreadsOk;
    InsertLevels(m, m', l, level, id);
    LevelsDescend(m', Insert(m, l, level, id));
  }

  lemma WithUpvalOn(m: Marking, th: Id, level: nat, id: Id)
    requires NewUpvalOk(m, th, level, id) && HomesOk(m)
    ensures forall u, t ::
              t in m.objs && m.objs[t].Thread? ==>
                OpenOn(WithUpval(m, th, level, id), u, t) == (OpenOn(m, u, t) || (u == id && t == th))
  {
    WithUpvalIs(m, th, level, id);
    hide WithUpval, Insert, FindLevel;
  }

  lemma WithUpvalElsewhere(m: Marking, th: Id, level: nat, id: Id, t: Id)
    requires NewUpvalOk(m, th, level, id) && OpenListOk(m, t) && HomesOk(m) && t in m.objs && m.objs[t].Thread?
             && t != th
    ensures OpenListOk(WithUpval(m, th, level, id), t)
  {
    var m', l := WithUpval(m, th, level, id), OpenList(m, t);
    WithUpvalIs(m, th, level, id);
    WithUpvalOn(m, th, level, id);
    hide WithUpval, Insert, FindLevel, Descending;
    assert !OpenOn(m, id, t);
    NotListed(m, id, t);
    assert OpenList(m', t) == l;
    SameDescending(m, m', l, id);
  }

  lemma WithUpvalThread(m: Marking, th: Id, level: nat, id: Id, t: Id)
    requires NewUpvalOk(m, th, level, id) && ThreadsOk(m) && HomesOk(m) && t in m.objs && m.objs[t].Thread?
    ensures OpenListOk(WithUpval(m, th, level, id), t)
  {
    assert OpenListOk(m, t);
    if t == th {
      var m' := WithUpval(m, th, level, id);
      WithUpvalHere(m, th, level, id);
      WithUpvalIs(m, th, level, id);
      WithUpvalOn(m, th, level, id);
      assert OpenList(m', th) == Insert(m, OpenList(m, th), level, id) && !OpenOn(m, id, th);
      hide WithUpval, Insert, FindLevel, Descending, OpenOn, OpenList;
      forall u
        ensures multiset(OpenList(m', t))[u] == if OpenOn(m', u, t) then 1 else 0
      {
        InsertCount(m, OpenList(m, th), level, id, u);
      }
    } else {
      WithUpvalElsewhere(m, th, level, id, t);
    }
  }

  lemma WithUpvalThreads(m: Marking, th: Id, level: nat, id: Id)
    requires NewUpvalOk(m, th, level, id) && ThreadsOk(m) && HomesOk(m)
    ensures ThreadsOk(WithUpval(m, th, level, id)) && HomesOk(WithUpval(m, th, level, id))
  {
    var m' := WithUpval(m, th, level, id);
    WithUpvalIs(m, th, level, id);
    hide WithUpval, Insert, FindLevel;
    forall t | t in m'.objs && m'.objs[t].Thread? ensures OpenListOk(m', t) { WithUpvalThread(m, th, level, id, t); }
    forall u ensures HomeOk(m', u) { assert HomeOk(m, u); }
  }

  lemma WithUpvalKind(m: Marking, th: Id, level: nat, id: Id, x: Id)
    requires NewUpvalOk(m, th, level, id)
    ensures var m' := WithUpval(m, th, level, id);
            IsRoot(m', x) == IsRoot(m, x) && IsUdata(m', x) == IsUdata(m, x)
              && IsOpenUpval(m', x) == (IsOpenUpval(m, x) || x == id) && IsStr(m', x) == IsStr(m, x)
  {
    WithUpvalIs(m, th, level, id);
  }

  lemma NewUpvalOwners(g: G, level: nat, id: Id)
    requires NewUpvalOk(g.m, g.cur, level, id) && RootsOk(g, {}) && UdataOk(g, {}) && OpenOk(g)
    ensures RootsOk(NewUpval(g, level, id), {}) && UdataOk(NewUpval(g, level, id), {}) && OpenOk(NewUpval(g, level, id))
  {
    var g' := NewUpval(g, level, id);
    assert g'.m == WithUpval(g.m, g.cur, level, id) && g'.rootgc == g.rootgc && g'.udata == g.udata
           && g'.tmudata == g.tmudata && g'.uvhead == [id] + g.uvhead;
    hide NewUpval, WithUpval, RootKind, IsOpen, NewUpvalOk;
    forall x ensures multiset(g'.rootgc)[x] == if x in g'.m.objs && RootKind(g'.m.objs[x]) && x !in {} then 1 else 0 {
      WithUpvalKind(g.m, g.cur, level, id, x);
      assert multiset(g.rootgc)[x] == if IsRoot(g.m, x) && x !in {} then 1 else 0;
    }
    forall x
      ensures multiset(g'.udata)[x] + multiset(g'.tmudata)[x] == if x in g'.m.objs && g'.m.objs[x].Udata?
              && x !in {} then 1 else 0
    {
      WithUpvalKind(g.m, g.cur, level, id, x);
      assert multiset(g.udata)[x] + multiset(g.tmudata)[x] == if IsUdata(g.m, x) && x !in {} then 1 else 0;
    }
    NewIsFresh(g.m, g.cur, level, id);
    forall x ensures multiset(g'.uvhead)[x] == if x in g'.m.objs && IsOpen(g'.m.objs[x]) then 1 else 0 {
      WithUpvalKind(g.m, g.cur, level, id, x);
      assert multiset(g.uvhead)[x] == if IsOpenUpval(g.m, x) then 1 else 0;
    }
  }

  lemma NewIsFresh(m: Marking, th: Id, level: nat, id: Id)
    requires NewUpvalOk(m, th, level, id)
    ensures !IsOpenUpval(m, id)
  {
  }

  lemma NewUpvalStrings(g: G, level: nat, id: Id)
    requires NewUpvalOk(g.m, g.cur, level, id) && StringsOk(g) && Interned(g.m)
    ensures var g' := NewUpval(g, level, id); StringsOk(g') && Interned(g'.m) && StringIds(g'.m) == StringIds(g.m)
  {
    var g' := NewUpval(g, level, id);
    assert g'.m == WithUpval(g.m, g.cur, level, id) && g'.strt == g.strt && g'.hash == g.hash;
    WithUpvalIs(g.m, g.cur, level, id);
    hide NewUpval, WithUpval, Insert, FindLevel;
    forall s ensures IsStr(g'.m, s) == IsStr(g.m, s) && (IsStr(g.m, s) ==> g'.m.objs[s] == g.m.objs[s]) { }
    forall b, s | 0 <= b < |g'.strt| ensures multiset(g'.strt[b])[s] == if InStringList(g', s, b) then 1 else 0 {
      assert InStringList(g', s, b) == InStringList(g, s, b);
    }
  }

  lemma NewUpvalFixed(g: G, level: nat, id: Id)
    requires NewUpvalOk(g.m, g.cur, level, id) && FixedOk(g) && g.m.marks.Keys == g.m.objs.Keys
    ensures FixedOk(NewUpval(g, level, id))
  {
    WithUpvalIs(g.m, g.cur, level, id);
    var g' := NewUpval(g, level, id);
    assert g'.m == WithUpval(g.m, g.cur, level, id) && g'.rootgc == g.rootgc && g'.main == g.main && g'.cur == g.cur;
    hide NewUpval, WithUpval, Insert, FindLevel;
  }

  lemma NewUpvalStruct(g: G, level: nat, id: Id)
    requires Struct(g) && NewUpvalOk(g.m, g.cur, level, id) && g.m.marks.Keys == g.m.objs.Keys
    ensures Struct(NewUpval(g, level, id))
  {
    var g' := NewUpval(g, level, id);
    StructIs(g, {});
    assert g'.m == WithUpval(g.m, g.cur, level, id) && g'.nuse == g.nuse;
    hide StructBut, RootsOk, UdataOk, StringsOk, OpenOk, ThreadsOk, HomesOk, Interned, FixedOk, NewUpval, WithUpval,
      NewUpvalOk, StringIds;
    NewUpvalOwners(g, level, id);
    NewUpvalStrings(g, level, id);
    NewUpvalFixed(g, level, id);
    WithUpvalThreads(g.m, g.cur, level, id);
    StructMade(g', {});
  }

  lemma WithUpvalFields(m: Marking, th: Id, level: nat, id: Id, x: Id)
    requires NewUpvalOk(m, th, level, id) && HomesOk(m)
    ensures var m' := WithUpval(m, th, level, id);
            && (x != id ==>
                  FieldsAt(m'.objs, x) == FieldsAt(m.objs, x)
                  && forall y :: Holds(m'.objs, x, y) == Holds(m.objs, x, y))
            && FieldsAt(m'.objs, id) == [m.objs[th].stack[level]]
  {
    WithUpvalIs(m, th, level, id);
    assert HomeOk(m, x);
    hide WithUpval, Insert, FindLevel;
  }

  lemma WithUpvalAlive(m: Marking, th: Id, level: nat, id: Id)
    requires NewUpvalOk(m, th, level, id) && m.marks.Keys == m.objs.Keys
    ensures Alive(WithUpval(m, th, level, id), id)
    ensures forall x :: x != id ==> Alive(WithUpval(m, th, level, id), x) == Alive(m, x)
  {
    WithUpvalIs(m, th, level, id);
    hide WithUpval, Insert, FindLevel;
  }

  lemma SlotAlive(m: Marking, th: Id, level: nat)
    requires AliveClosed(m) && Alive(m, th) && m.objs[th].Thread? && level < |m.objs[th].stack|
    ensures ValAlive(m, m.objs[th].stack[level])
  {
    var v := m.objs[th].stack[level];
    if v.Ref? { assert Refers(m.objs, th, v.id); }
  }

  lemma NewUpvalClosed(m: Marking, th: Id, level: nat, id: Id)
    requires NewUpvalOk(m, th, level, id) && HomesOk(m) && AliveClosed(m) && m.marks.Keys == m.objs.Keys && Alive(m, th)
    ensures AliveClosed(WithUpval(m, th, level, id))
  {
    var m' := WithUpval(m, th, level, id);
    SlotAlive(m, th, level);
    WithUpvalAlive(m, th, level, id);
    hide WithUpval, FieldsAt;
    forall j, x | Alive(m', j) && Refers(m'.objs, j, x) ensures Alive(m', x) {
      WithUpvalFields(m, th, level, id, j);
      if j != id { assert Refers(m.objs, j, x); }
      AliveExists(m, x);
    }
  }

  lemma NewUpvalKinds(m: Marking, th: Id, level: nat, id: Id)
    requires NewUpvalOk(m, th, level, id) && KindsOk(m)
    ensures KindsOk(WithUpval(m, th, level, id))
  {
    WithUpvalIs(m, th, level, id);
    assert KindOk(m.objs[th], m.marks[th].colour);
  }

  lemma NewUpvalBase(g: G, level: nat, id: Id)
    requires BaseInv(g) && NewUpvalOk(g.m, g.cur, level, id)
    ensures BaseInv(NewUpval(g, level, id))
  {
    var g' := NewUpval(g, level, id);
    assert g'.m == WithUpval(g.m, g.cur, level, id) && RootVals(g') == RootVals(g) && g'.tmudata == g.tmudata;
    assert Ref(g.cur) in RootVals(g) && Alive(g.m, g.cur);
    BaseParts(g);
    WithUpvalAlive(g.m, g.cur, level, id);
    NewUpvalRoots(g, g', level, id);
    hide Struct, AliveClosed, NewUpval, WithUpval, RootsAlive, NewUpvalOk, HomesOk, ThreadsOk;
    NewUpvalStruct(g, level, id);
    NewUpvalClosed(g.m, g.cur, level, id);
    NewUpvalKinds(g.m, g.cur, level, id);
  }

  lemma NewUpvalRoots(g: G, g': G, level: nat, id: Id)
    requires RootsAlive(g) && NewUpvalOk(g.m, g.cur, level, id) && g.m.marks.Keys == g.m.objs.Keys
    requires g'.m == WithUpval(g.m, g.cur, level, id) && RootVals(g') == RootVals(g) && g'.tmudata == g.tmudata
    ensures RootsAlive(g')
  {
    WithUpvalAlive(g.m, g.cur, level, id);
    hide WithUpval, NewUpval;
    forall x | Alive(g.m, x) ensures Alive(g'.m, x) { AliveExists(g.m, x); }
  }

  lemma NewUpvalMark(m: Marking, q: set<Id>, th: Id, level: nat, id: Id)
    requires NewUpvalOk(m, th, level, id) && HomesOk(m) && MarkInv(m, q, [], 0) && BlackExist(m) && OneWhite(m)
    ensures var m' := WithUpval(m, th, level, id);
            MarkInv(m', q, [], 0) && BlackExist(m') && OneWhite(m')
            && forall x :: x != id ==> IsWhite(m', x) == IsWhite(m, x)
  {
    var m' := WithUpval(m, th, level, id);
    NewUpvalKinds(m, th, level, id);
    WithUpvalIs(m, th, level, id);
    hide WithUpval, Insert, FindLevel;
    NewUpvalLists(m, th, level, id);
    assert WeakOk(m', 0) && OneWhite(m');
    hide ListsOk, NewUpvalOk;
    forall j, x | j in m'.objs && IsBlack(m', j) && Holds(m'.objs, j, x)
      ensures x in m.objs && (j !in q ==> !IsWhite(m, x))
    {
      NewUpvalHolds(m, q, th, level, id, j, x);
    }
    hide Count, Traversed, Holds, KindsOk, WeakOk;
  }

  lemma NewUpvalLists(m: Marking, th: Id, level: nat, id: Id)
    requires NewUpvalOk(m, th, level, id) && ListsOk(m)
    ensures ListsOk(WithUpval(m, th, level, id))
  {
    var m' := WithUpval(m, th, level, id);
    WithUpvalIs(m, th, level, id);
    hide WithUpval, Insert, FindLevel;
    forall j ensures Count(m', j) == if j in m'.objs && IsGray(m', j) && Traversed(m'.objs[j]) then 1 else 0 {
      assert Count(m', j) == Count(m, j);
    }
  }

  lemma NewUpvalHolds(m: Marking, q: set<Id>, th: Id, level: nat, id: Id, j: Id, x: Id)
    requires NewUpvalOk(m, th, level, id) && HomesOk(m) && MarkInv(m, q, [], 0) && BlackExist(m)
    requires var m' := WithUpval(m, th, level, id); j in m'.objs && IsBlack(m', j) && Holds(m'.objs, j, x)
    ensures x in m.objs && (j !in q ==> !IsWhite(m, x))
  {
    WithUpvalIs(m, th, level, id);
    WithUpvalFields(m, th, level, id, j);
    hide WithUpval, Insert, FindLevel;
    assert Holds(m.objs, j, x);
    hide Holds, ListsOk, KindOk, HomesOk, NewUpvalOk;
    assert Settled(m, j, 0) && Due(m, j, x);
  }

  lemma NewUpvalSwept(g: G, level: nat, id: Id)
    requires SweptOk(g) && NewUpvalOk(g.m, g.cur, level, id)
    ensures SweptOk(NewUpval(g, level, id))
  {
    var g' := NewUpval(g, level, id);
    WithUpvalIs(g.m, g.cur, level, id);
    assert g'.m == WithUpval(g.m, g.cur, level, id) && g'.strt == g.strt && g'.hash == g.hash
           && g'.sweepstr == g.sweepstr && g'.phase == g.phase && g'.tmudata == g.tmudata;
    forall x ensures Passed(g', x) == Passed(g, x) { PassedFrame(g, g', x); }
    hide Passed, WithUpval, NewUpval, Insert, FindLevel;
    forall j | j in g'.m.objs && SweptId(g', j) ensures Clean(g'.m, j) {
      if j != id { assert SweptId(g, j); }
    }
  }

  lemma NewUpvalKeeps(g: G, level: nat, id: Id)
    requires Inv(g) && NewUpvalOk(g.m, g.cur, level, id)
    ensures Inv(NewUpval(g, level, id))
  {
    var g' := NewUpval(g, level, id);
    assert g'.phase == g.phase && g'.m == WithUpval(g.m, g.cur, level, id) && g'.main == g.main
           && g'.registry == g.registry && g'.tmudata == g.tmudata;
    assert RootList(g') == RootList(g) && g'.swept == g.swept && g'.sweepstr == g.sweepstr && g'.strt == g.strt;
    if g.phase == Propagating {
      MarkBaseIs(g);
      BaseParts(g);
      FreshIsNot(g, id);
      hide Inv, BaseInv, MarkInv, BlackExist, OneWhite, NewUpval, WithUpval, NewUpvalOk;
      NewUpvalBase(g, level, id);
      NewUpvalMark(g.m, Ids(g.tmudata), g.cur, level, id);
      MarkBaseIs(g');
    } else {
      IdleIs(g);
      hide Inv, BaseInv, SweptOk, NewUpval, WithUpval, NewUpvalOk, RootList;
      NewUpvalBase(g, level, id);
      NewUpvalSwept(g, level, id);
      IdleIs(g');
    }
  }

  lemma FreshIsNot(g: G, id: Id)
    requires BaseInv(g)
    ensures id !in g.m.objs ==> id != g.main && (g.registry.Ref? ==> g.registry.id != id)
  {
    BaseParts(g);
  }

  // ---------------------------------------------------------------- sharing

  /** The upvalue is open on this slot, alive, and the only one there. */
  ghost predicate Shares(m: Marking, th: Id, level: nat, uv: Id) {
    && OpenOn(m, uv, th) && m.objs[uv].home.level == level && Alive(m, uv)
    && forall u :: OpenOn(m, u, th) && m.objs[u].home.level == level ==> u == uv
  }

  lemma OnePerSlot(m: Marking, th: Id, uv: Id)
    requires ThreadsOk(m) && th in m.objs && m.objs[th].Thread? && OpenOn(m, uv, th) && Alive(m, uv)
    ensures Shares(m, th, m.objs[uv].home.level, uv)
  {
    var l := OpenList(m, th);
    assert OpenListOk(m, th);
    ListLevels(m, th);
    forall u | OpenOn(m, u, th) && m.objs[u].home.level == m.objs[uv].home.level ensures u == uv {
      assert multiset(l)[u] == 1 && multiset(l)[uv] == 1;
      var i :| 0 <= i < |l| && l[i] == u;
      var j :| 0 <= j < |l| && l[j] == uv;
      assert LevelOf(m, l[i]) == LevelOf(m, l[j]);
    }
  }

  lemma FoundUpval(g: G, level: nat)
    requires BaseInv(g) && FindLevel(g.m, OpenList(g.m, g.cur), level).Ref?
    ensures var uv := FindLevel(g.m, OpenList(g.m, g.cur), level).id;
            && OpenOn(g.m, uv, g.cur) && g.m.objs[uv].home.level == level && uv in g.m.objs
            && forall x :: Refers(g.m.objs, uv, x) ==> Alive(g.m, x)
  {
    var l := OpenList(g.m, g.cur);
    StructIs(g, {});
    BaseParts(g);
    ListLevels(g.m, g.cur);
    FindLevelIs(g.m, l, level);
    var uv := FindLevel(g.m, l, level).id;
    assert OpenListOk(g.m, g.cur) && multiset(l)[uv] > 0;
    assert HomeOk(g.m, uv) && Ref(g.cur) in RootVals(g);
    SlotAlive(g.m, g.cur, level);
  }

  /** All captures of a slot get one upvalue, which is alive even if the collector had given it up. */
  lemma FindUpvalKeeps(g: G, level: nat, id: Id)
    requires Inv(g) && id !in g.m.objs && level < |g.m.objs[g.cur].stack|
    ensures var g', r := FindUpval(g, level, id), Captured(g, level, id);
            Inv(g') && g'.cur == g.cur && r.Ref? && Shares(g'.m, g.cur, level, r.id)
  {
    var g', r := FindUpval(g, level, id), Captured(g, level, id);
    assert BaseInv(g) by { hide Struct, KindsOk, AliveClosed, RootsAlive, PhaseOk; }
    BaseParts(g);
    if FindLevel(g.m, OpenList(g.m, g.cur), level).Ref? {
      FoundUpval(g, level);
      ReviveObjs(g, r.id);
      hide Inv, Revive, FindLevel;
      ReviveKeeps(g, r.id);
    } else {
      ListLevels(g.m, g.cur);
      FindLevelIs(g.m, OpenList(g.m, g.cur), level);
      WithUpvalIs(g.m, g.cur, level, id);
      WithUpvalAlive(g.m, g.cur, level, id);
      hide Inv, FindLevel, Insert;
      NewUpvalKeeps(g, level, id);
    }
    SharesOf(g', r.id);
  }

  lemma SharesOf(g: G, uv: Id)
    requires Inv(g) && OpenOn(g.m, uv, g.cur) && Alive(g.m, uv)
    ensures Shares(g.m, g.cur, g.m.objs[uv].home.level, uv)
  {
    StructIs(g, {});
    OnePerSlot(g.m, g.cur, uv);
  }
}
