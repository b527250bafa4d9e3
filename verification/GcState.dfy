/** The invariant of the whole collector state. */
module GcState {
  import opened GcHeap
  import opened GcMark
  import opened GcCollector

  // ---------------------------------------------------------------- who owns which object

  predicate IsOpen(o: Obj) { o.Upval? && o.home.Open? }

  /** Objects in the list that begins at `rootgc`, up to the main thread. */
  predicate RootKind(o: Obj) { Traversed(o) || (o.Upval? && o.home.Closed?) }

  predicate InStringList(g: G, id: Id, b: nat)
    requires |g.strt| > 0
  {
    id in g.m.objs && g.m.objs[id].Str? && Bucket(g, g.m.objs[id].text, |g.strt|) == b
  }

  predicate OpenOn(m: Marking, id: Id, th: Id) { id in m.objs && IsOpen(m.objs[id]) && m.objs[id].home.th == th }

  /** Each is in the list once, except one that is being freed. */
  ghost predicate RootsOk(g: G, gone: set<Id>) {
    forall id :: multiset(g.rootgc)[id] == if id in g.m.objs && RootKind(g.m.objs[id]) && id !in gone then 1 else 0
  }

  ghost predicate UdataOk(g: G, gone: set<Id>) {
    forall id ::
      multiset(g.udata)[id] + multiset(g.tmudata)[id] == if id in g.m.objs && g.m.objs[id].Udata? && id !in gone then 1
      else 0
  }

  /** Each string is in the list that its hash selects, once, and nothing else is. */
  ghost predicate StringsOk(g: G) {
    && |g.strt| > 0
    && forall b, id {:trigger InStringList(g, id, b)} :: 0 <= b < |g.strt| ==>
         multiset(g.strt[b])[id] == if InStringList(g, id, b) then 1 else 0
  }

  /** Strings of equal content are one object. */
  ghost predicate Interned(m: Marking) {
    forall s, t ::
      s in m.objs && t in m.objs && m.objs[s].Str? && m.objs[t].Str? && m.objs[s].text == m.objs[t].text ==> s == t
  }

  function StringIds(m: Marking): set<Id> { set id | id in m.objs && m.objs[id].Str? }

  ghost predicate OpenOk(g: G) {
    forall id :: multiset(g.uvhead)[id] == if id in g.m.objs && IsOpen(g.m.objs[id]) then 1 else 0
  }

  ghost predicate Descending(m: Marking, l: seq<Id>) {
    forall i, j ::
      0 <= i < j < |l| && AtOrAbove(m, l[i], 0) && AtOrAbove(m, l[j], 0) ==>
        m.objs[l[i]].home.level > m.objs[l[j]].home.level
  }

  ghost predicate OpenListOk(m: Marking, th: Id) {
    && (forall id :: multiset(OpenList(m, th))[id] == if OpenOn(m, id, th) then 1 else 0)
    && Descending(m, OpenList(m, th))
  }

  /** A thread's list holds the open upvalues of its stack, in descending order of their slots. */
  ghost predicate ThreadsOk(m: Marking) {
    forall th :: th in m.objs && m.objs[th].Thread? ==> OpenListOk(m, th)
  }

  predicate HomeOk(m: Marking, id: Id) {
    id in m.objs && IsOpen(m.objs[id]) ==>
      var h := m.objs[id].home; h.th in m.objs && m.objs[h.th].Thread? && h.level < |m.objs[h.th].stack|
  }

  ghost predicate HomesOk(m: Marking) { forall id :: HomeOk(m, id) }

  ghost predicate FixedOk(g: G) {
    && g.rootgc != [] && g.rootgc[|g.rootgc| - 1] == g.main
    && g.main in g.m.objs && g.m.objs[g.main].Thread? && g.main in g.m.marks && g.m.marks[g.main].fixed
    && g.cur in g.m.objs && g.m.objs[g.cur].Thread?
    && (forall id :: id in g.m.objs && id in g.m.marks && g.m.marks[id].fixed ==> id == g.main || g.m.objs[id].Str?)
  }

  ghost predicate Struct(g: G) { StructBut(g, {}) }

  ghost predicate StructBut(g: G, gone: set<Id>) {
    && RootsOk(g, gone) && UdataOk(g, gone) && StringsOk(g) && Interned(g.m) && g.nuse == |StringIds(g.m)|
    && OpenOk(g) && ThreadsOk(g.m) && HomesOk(g.m) && FixedOk(g)
  }

  lemma StructIs(g: G, gone: set<Id>)
    requires StructBut(g, gone)
    ensures RootsOk(g, gone) && UdataOk(g, gone) && StringsOk(g) && Interned(g.m) && g.nuse == |StringIds(g.m)|
    ensures OpenOk(g) && ThreadsOk(g.m) && HomesOk(g.m) && FixedOk(g)
  {
  }

  lemma StructMade(g: G, gone: set<Id>)
    requires RootsOk(g, gone) && UdataOk(g, gone) && StringsOk(g) && Interned(g.m) && g.nuse == |StringIds(g.m)|
    requires OpenOk(g) && ThreadsOk(g.m) && HomesOk(g.m) && FixedOk(g)
    ensures StructBut(g, gone)
  {
  }

  // ---------------------------------------------------------------- what is alive

  predicate Alive(m: Marking, id: Id) { id in m.objs && !IsDead(m, id) }

  function RootVals(g: G): seq<Val> { [Ref(g.main), Ref(g.cur), g.registry] + g.mts }

  /** Nothing alive refers to a dead object, not even weakly. */
  ghost predicate AliveClosed(m: Marking) {
    forall id, x {:trigger Refers(m.objs, id, x)} :: Alive(m, id) && Refers(m.objs, id, x) ==> Alive(m, x)
  }

  ghost predicate RootsAlive(g: G) {
    && (forall x :: Ref(x) in RootVals(g) ==> Alive(g.m, x))
    && (forall u :: u in g.tmudata ==> Alive(g.m, u))
  }

  // ---------------------------------------------------------------- the phases

  predicate Clean(m: Marking, id: Id) { id in m.marks && m.marks[id].colour == White(m.cw) }

  /** The sweep has passed the element of the root list. */
  predicate Passed(g: G, id: Id) {
    g.phase == Finalize || g.phase == Pause
      || (g.phase == Sweep && g.swept <= |RootList(g)| && id in RootList(g)[..g.swept])
  }

  /** The sweep of this cycle is over for the object. */
  predicate SweptId(g: G, id: Id)
    requires id in g.m.objs
  {
    match g.m.objs[id]
    case Str(text) => g.phase != SweepString || (|g.strt| > 0 && Bucket(g, text, |g.strt|) < g.sweepstr)
    case Upval(Open(th, _)) => Passed(g, th)
    case _ => Passed(g, id) && id !in g.tmudata
  }

  ghost predicate SweptOk(g: G) { forall id :: id in g.m.objs && SweptId(g, id) ==> Clean(g.m, id) }

  /** No object has the other white. */
  ghost predicate OneWhite(m: Marking) {
    forall id :: id in m.marks && m.marks[id].colour.White? ==> m.marks[id].colour == White(m.cw)
  }

  /** What black objects hold exists, even keys of empty entries. */
  ghost predicate BlackExist(m: Marking) {
    forall id, x {:trigger Holds(m.objs, id, x)} ::
      id in m.objs && IsBlack(m, id) && Holds(m.objs, id, x) ==> x in m.objs
  }

  ghost predicate PhaseOk(g: G) {
    match g.phase
    case Propagating =>
      && MarkInv(g.m, Ids(g.tmudata), [], 0) && OneWhite(g.m) && BlackExist(g.m)
      && !IsWhite(g.m, g.main) && (g.registry.Ref? ==> !IsWhite(g.m, g.registry.id))
    case Pause => SweptOk(g) && g.tmudata == [] && g.swept <= |RootList(g)|
    case SweepString => SweptOk(g) && g.sweepstr < |g.strt| && g.swept == 0
    case Sweep => SweptOk(g) && g.swept <= |RootList(g)|
    case Finalize => SweptOk(g) && g.swept <= |RootList(g)|
  }

  ghost predicate Inv(g: G) {
    Struct(g) && KindsOk(g.m) && AliveClosed(g.m) && RootsAlive(g) && PhaseOk(g)
  }

  // ---------------------------------------------------------------- changes that keep the structure

  /** The object has changed at most in what it holds. */
  predicate SameShape(o: Obj, o': Obj) {
    match o
    case Str(_) => o' == o
    case Udata(_, _) => o'.Udata?
    case Upval(Open(_, _)) => o' == o
    case Upval(Closed(_)) => o'.Upval? && o'.home.Closed?
    case Closure(_, _, _) => o'.Closure?
    case Table(_, _, _) => o'.Table?
    case Thread(_, _, open) => o'.Thread? && o'.open == open
    case Proto(_, _, _, _, _) => o'.Proto?
  }

  ghost predicate Reshaped(m: Marking, m': Marking) {
    && m'.objs.Keys == m.objs.Keys && m'.marks.Keys == m.marks.Keys
    && (forall id :: id in m.objs ==> SameShape(m.objs[id], m'.objs[id]))
    && (forall id :: id in m.marks ==> m'.marks[id].fixed == m.marks[id].fixed)
  }

  lemma ReshapedThreads(m: Marking, m': Marking)
    requires Reshaped(m, m') && ThreadsOk(m)
    ensures ThreadsOk(m')
  {
    forall th | th in m'.objs && m'.objs[th].Thread? ensures OpenListOk(m', th) {
      assert SameShape(m.objs[th], m'.objs[th]);
      assert OpenListOk(m, th) && OpenList(m', th) == OpenList(m, th);
      forall id ensures OpenOn(m', id, th) == OpenOn(m, id, th) && AtOrAbove(m', id, 0) == AtOrAbove(m, id, 0) {
        if id in m.objs { assert SameShape(m.objs[id], m'.objs[id]); }
      }
      forall i, j | 0 <= i < j < |OpenList(m, th)| && AtOrAbove(m', OpenList(m, th)[i], 0)
        && AtOrAbove(m', OpenList(m, th)[j], 0)
        ensures m'.objs[OpenList(m, th)[i]].home.level > m'.objs[OpenList(m, th)[j]].home.level
      {
        assert SameShape(m.objs[OpenList(m, th)[i]], m'.objs[OpenList(m, th)[i]]);
        assert SameShape(m.objs[OpenList(m, th)[j]], m'.objs[OpenList(m, th)[j]]);
      }
    }
  }

  lemma ReshapedStrings(g: G, g': G)
    requires Reshaped(g.m, g'.m) && g'.strt == g.strt && g'.hash == g.hash && StringsOk(g) && Interned(g.m)
    ensures StringsOk(g') && Interned(g'.m) && StringIds(g'.m) == StringIds(g.m)
  {
    forall id | id in g.m.objs
      ensures g'.m.objs[id].Str? == g.m.objs[id].Str? && (g.m.objs[id].Str? ==> g'.m.objs[id] == g.m.objs[id])
    {
      assert SameShape(g.m.objs[id], g'.m.objs[id]);
    }
    forall b, id | 0 <= b < |g'.strt| ensures multiset(g'.strt[b])[id] == if InStringList(g', id, b) then 1 else 0 {
      assert InStringList(g', id, b) == InStringList(g, id, b);
    }
  }

  /** The same userdata, on either list. */
  ghost predicate SameUdata(g: G, g': G) {
    forall id :: multiset(g'.udata)[id] + multiset(g'.tmudata)[id] == multiset(g.udata)[id] + multiset(g.tmudata)[id]
  }

  lemma ReshapedLists(g: G, g': G, gone: set<Id>)
    requires Reshaped(g.m, g'.m) && RootsOk(g, gone) && UdataOk(g, gone) && OpenOk(g)
    requires g'.rootgc == g.rootgc && g'.uvhead == g.uvhead && SameUdata(g, g')
    ensures RootsOk(g', gone) && UdataOk(g', gone) && OpenOk(g')
  {
    forall id | id in g.m.objs ensures SameKind(g.m.objs[id], g'.m.objs[id]) {
      assert SameShape(g.m.objs[id], g'.m.objs[id]);
      ShapeKind(g.m.objs[id], g'.m.objs[id]);
    }
    hide SameShape, RootKind, IsOpen;
  }

  predicate SameKind(o: Obj, o': Obj) {
    RootKind(o') == RootKind(o) && IsOpen(o') == IsOpen(o) && o'.Udata? == o.Udata?
  }

  lemma ShapeKind(o: Obj, o': Obj)
    requires SameShape(o, o')
    ensures SameKind(o, o')
  {
  }

  lemma ReshapedFixed(g: G, g': G)
    requires Reshaped(g.m, g'.m) && FixedOk(g) && g'.rootgc == g.rootgc && g'.main == g.main
    requires g'.cur in g.m.objs && g.m.objs[g'.cur].Thread?
    ensures FixedOk(g')
  {
    forall id | id in g.m.objs ensures SameShape(g.m.objs[id], g'.m.objs[id]) { }
  }

  /** Contents and colours may change without moving objects between lists. */
  lemma ReshapedStruct(g: G, g': G, gone: set<Id>)
    requires StructBut(g, gone) && Reshaped(g.m, g'.m) && HomesOk(g'.m)
    requires g'.rootgc == g.rootgc && SameUdata(g, g') && g'.strt == g.strt && g'.hash == g.hash
    requires g'.nuse == g.nuse && g'.uvhead == g.uvhead && g'.main == g.main
    requires g'.cur in g.m.objs && g.m.objs[g'.cur].Thread?
    ensures StructBut(g', gone)
  {
    hide RootsOk, UdataOk, OpenOk, StringsOk, Interned, ThreadsOk, HomesOk, FixedOk, Reshaped, SameUdata;
    ReshapedThreads(g.m, g'.m);
    ReshapedStrings(g, g');
    ReshapedLists(g, g', gone);
    ReshapedFixed(g, g');
  }
}
