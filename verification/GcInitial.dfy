/** The state in which a program begins (lua/lstate.c:66-80, 141-180): runs exist, so the results about them
    are about something. */
module GcInitial {
  import opened GcHeap
  import opened GcMark
  import opened GcCollector
  import opened GcState
  import opened GcStrings
  import opened GcUpvals
  import opened GcRuns
  import opened GcSurvivors
  import opened GcEffects
  import opened GcContents
  import opened GcExact

  const MAIN: Id := 0
  const GLOBALS: Id := 1
  const REGISTRY: Id := 2
  const MODE: Id := 3
  const GC: Id := 4

  const NUM_TAGS := 9

  function Fixed(fixed: bool): Mark { Mark(White(false), fixed, false, false, false) }

  function InitialHeap(): Heap {
    map[MAIN := Thread(Ref(GLOBALS), [], []), GLOBALS := Table(Nil, [], []), REGISTRY := Table(Nil, [], []),
        MODE := Str("__mode"), GC := Str("__gc")]
  }

  function InitialMarks(): map<Id, Mark> {
    map[MAIN := Fixed(true), GLOBALS := Fixed(false), REGISTRY := Fixed(false), MODE := Fixed(true), GC := Fixed(true)]
  }

  /** The state before the strings are chained. */
  function Bare(hash: string -> nat): G {
    G(Marking(InitialHeap(), InitialMarks(), false, [], [], [], Names(MODE, GC)), Pause,
      [REGISTRY, GLOBALS, MAIN], [], 0, [], 0, 2, hash, [], [], MAIN, MAIN, Ref(REGISTRY), seq(NUM_TAGS, _ => Nil))
  }

  /** A main thread, the tables of globals and of the registry, and the two names that the collector looks up. */
  function Initial(hash: string -> nat): G {
    Bare(hash).(strt := RehashAll(Bare(hash), [[MODE, GC]], seq(MINSTRTABSIZE, _ => [])))
  }

  lemma InitialStrings(hash: string -> nat)
    ensures StringsOk(Initial(hash)) && Interned(Initial(hash).m) && |StringIds(Initial(hash).m)| == 2
  {
    var g := Initial(hash);
    forall b, id | 0 <= b < |g.strt| ensures multiset(g.strt[b])[id] == if InStringList(g, id, b) then 1 else 0 {
      RehashAllCount(Bare(hash), [[MODE, GC]], seq(MINSTRTABSIZE, _ => []), b, id);
      assert Total([[MODE, GC]], id) == multiset([MODE, GC])[id] + Total([], id);
    }
    assert StringIds(g.m) == {MODE, GC};
    assert "__mode"[2] != "__gc"[2];
  }

  lemma InitialLists(hash: string -> nat)
    ensures RootsOk(Initial(hash), {}) && UdataOk(Initial(hash), {}) && OpenOk(Initial(hash)) && FixedOk(Initial(hash))
  {
    var g := Initial(hash);
    hide RehashAll, InStringList;
    forall id
      ensures multiset(g.rootgc)[id] == if id in g.m.objs && RootKind(g.m.objs[id]) && id !in {} then 1 else 0
    {
    }
  }

  lemma InitialThreads(hash: string -> nat)
    ensures ThreadsOk(Initial(hash).m) && HomesOk(Initial(hash).m) && KindsOk(Initial(hash).m)
  {
    var m := Initial(hash).m;
    forall th | th in m.objs && m.objs[th].Thread? ensures OpenListOk(m, th) { }
  }

  lemma InitialAlive(hash: string -> nat)
    ensures AliveClosed(Initial(hash).m) && RootsAlive(Initial(hash))
  {
    var m := Initial(hash).m;
    forall id, x | Alive(m, id) && Refers(m.objs, id, x) ensures Alive(m, x) { assert x == GLOBALS; }
  }

  lemma InitialInv(hash: string -> nat)
    ensures Inv(Initial(hash))
  {
    var g := Initial(hash);
    InitialStrings(hash);
    InitialLists(hash);
    InitialThreads(hash);
    InitialAlive(hash);
    forall id | id in g.m.objs ensures Clean(g.m, id) { }
    assert g.phase == Pause && g.nuse == 2 && g.tmudata == [] && g.swept == 0;
    hide Inv, PhaseOk, Initial, StringsOk, Interned, RootsOk, UdataOk, OpenOk, FixedOk, ThreadsOk, HomesOk, KindsOk,
      AliveClosed, RootsAlive, StringIds, Clean;
    StructMade(g, {});
    PausedInv(g);
  }

  lemma PausedInv(g: G)
    requires Struct(g) && KindsOk(g.m) && AliveClosed(g.m) && RootsAlive(g) && g.phase == Pause && g.tmudata == []
             && g.swept == 0
    requires forall id :: id in g.m.objs ==> Clean(g.m, id)
    ensures Inv(g)
  {
  }

  /** Whatever a program does from its beginning, what it can reach stays. */
  lemma ProgramsAreSafe(hash: string -> nat, run: seq<Action>, a: Action, x: Id)
    requires IsRun(Initial(hash), run) && Enabled(After(Initial(hash), run), a)
             && Accessible(After(Initial(hash), run), x)
    ensures var g := After(Initial(hash), run); x in g.m.objs && |g.strt| > 0 && x in Apply(g, a).m.objs
  {
    InitialInv(hash);
    hide Inv, Initial, Enabled;
    NeverFreed(Initial(hash), run, a, x);
  }

  /** Whatever a program has done, its next step does to the heap what the step is there for, and no more. */
  lemma ProgramsDo(hash: string -> nat, run: seq<Action>, a: Action)
    requires IsRun(Initial(hash), run) && Enabled(After(Initial(hash), run), a)
    ensures var g := After(Initial(hash), run);
            |g.strt| > 0 && g.cur in g.m.objs && g.m.objs[g.cur].Thread? && Effect(g, a, Apply(g, a))
  {
    InitialInv(hash);
    hide Inv, Initial, Enabled, Effect;
    RunKeeps(Initial(hash), run);
    StepsDo(After(Initial(hash), run), a);
  }

  /** In every mark phase of every program no black object refers to a white one, save a userdata that has waited
      for its finalizer since the cycle before; every gray object that is to be traversed is on one gray list,
      once, and threads and open upvalues are never black. */
  lemma ColoursOfPrograms(hash: string -> nat, run: seq<Action>)
    requires IsRun(Initial(hash), run) && After(Initial(hash), run).phase == Propagating
    ensures var g := After(Initial(hash), run);
            && (forall o, x ::
                  IsBlack(g.m, o) && o in g.m.objs && o !in g.tmudata && Refers(g.m.objs, o, x) ==> !IsWhite(g.m, x))
            && (forall o :: Count(g.m, o) == if o in g.m.objs && IsGray(g.m, o) && Traversed(g.m.objs[o]) then 1 else 0)
            && (forall o :: o in g.m.objs && (g.m.objs[o].Thread? || IsOpen(g.m.objs[o])) ==> !IsBlack(g.m, o))
  {
    InitialInv(hash);
    hide Inv, Initial, Enabled;
    ColoursInMarkPhase(Initial(hash), run);
  }

  /** Whatever a program has done from its beginning, a full collection then leaves exactly what `Kept` says, and
      nothing that is left refers to an object that is not. */
  lemma FullGcOfPrograms(hash: string -> nat, run: seq<Action>, x: Id)
    requires IsRun(Initial(hash), run)
    ensures var g := After(Initial(hash), run);
            && (x in FullGc(g).m.objs <==> Kept(g, Sparing(g), x))
            && (forall y :: x in FullGc(g).m.objs && Refers(FullGc(g).m.objs, x, y) ==> y in FullGc(g).m.objs)
  {
    InitialInv(hash);
    hide Inv, Initial, Enabled, FullGc, Kept, Sparing, Refers;
    RunKeeps(Initial(hash), run);
    FullGcExact(After(Initial(hash), run), x);
  }

  /** Whatever a program has done from its beginning, a full collection then leaves the contents of the objects as they
      were, but for the entries of weak tables that refer to what is gone or finalized. */
  lemma ContentsOfPrograms(hash: string -> nat, run: seq<Action>, x: Id)
    requires IsRun(Initial(hash), run) && x in FullGc(After(Initial(hash), run)).m.objs
    ensures var g := After(Initial(hash), run);
            x in g.m.objs && Remains(g.m, FullGc(g).m, g.cur, IsWeak(g.m.objs, g.m.names, x), x)
  {
    InitialInv(hash);
    hide Inv, Initial, Enabled, FullGc, Remains, IsWeak;
    RunKeeps(Initial(hash), run);
    FullGcContents(After(Initial(hash), run), x);
  }

  /** The names that the collector looks up in metatables. */
  lemma InitialNames(hash: string -> nat)
    ensures var m := Initial(hash).m;
            && m.names.mode in m.objs && m.objs[m.names.mode] == Str("__mode") && m.marks[m.names.mode].fixed
            && m.names.gc in m.objs && m.objs[m.names.gc] == Str("__gc") && m.marks[m.names.gc].fixed
  {
  }

  /** Strings of equal content are one object; each string is once in the list that its hash selects, in no other
      list, and counted. */
  ghost predicate EachStringOnce(g: G) {
    && (forall s, t :: IsStr(g.m, s) && IsStr(g.m, t) && g.m.objs[s].text == g.m.objs[t].text ==> s == t)
    && |g.strt| > 0
    && (forall b, s :: 0 <= b < |g.strt| && IsStr(g.m, s) ==>
          multiset(g.strt[b])[s] == if b == g.hash(g.m.objs[s].text) % |g.strt| then 1 else 0)
    && (forall b, s :: 0 <= b < |g.strt| && s in g.strt[b] ==> IsStr(g.m, s))
    && g.nuse == |set s | s in g.m.objs && IsStr(g.m, s)|
  }

  lemma StringsExact(g: G)
    requires StringsOk(g) && Interned(g.m) && g.nuse == |StringIds(g.m)|
    ensures EachStringOnce(g)
  {
    forall b, s | 0 <= b < |g.strt| && IsStr(g.m, s)
      ensures multiset(g.strt[b])[s] == if b == g.hash(g.m.objs[s].text) % |g.strt| then 1 else 0
    {
      assert InStringList(g, s, b) <==> b == g.hash(g.m.objs[s].text) % |g.strt|;
    }
    forall b, s | 0 <= b < |g.strt| && s in g.strt[b] ensures IsStr(g.m, s) {
      assert multiset(g.strt[b])[s] > 0;
      assert InStringList(g, s, b);
    }
    assert StringIds(g.m) == set s | s in g.m.objs && IsStr(g.m, s);
  }

  /** The list of a thread holds exactly the open upvalues of its stack, each once, in strictly descending order of
      their slots. */
  ghost predicate ListExact(m: Marking, th: Id)
    requires th in m.objs && m.objs[th].Thread?
  {
    && (forall id :: multiset(m.objs[th].open)[id] == if OpenOn(m, id, th) then 1 else 0)
    && forall i, j :: 0 <= i < j < |m.objs[th].open| ==> LevelOf(m, m.objs[th].open[i]) > LevelOf(m, m.objs[th].open[j])
  }

  /** So it is for every thread; the list at `uvhead` holds exactly the open upvalues of all threads, and there is
      one upvalue for each slot. */
  ghost predicate EachSlotOnce(g: G) {
    && (forall th :: th in g.m.objs && g.m.objs[th].Thread? ==> ListExact(g.m, th))
    && (forall id :: multiset(g.uvhead)[id] == if id in g.m.objs && IsOpen(g.m.objs[id]) then 1 else 0)
    && (forall u, v, th ::
          OpenOn(g.m, u, th) && OpenOn(g.m, v, th) && g.m.objs[u].home.level == g.m.objs[v].home.level ==> u == v)
  }

  lemma ListIsExact(m: Marking, th: Id)
    requires th in m.objs && m.objs[th].Thread? && OpenListOk(m, th)
    ensures ListExact(m, th)
  {
    var l := m.objs[th].open;
    assert OpenList(m, th) == l;
    forall i | 0 <= i < |l| ensures OpenOn(m, l[i], th) { assert multiset(l)[l[i]] > 0; }
    forall i, j | 0 <= i < j < |l| ensures LevelOf(m, l[i]) > LevelOf(m, l[j]) {
      assert AtOrAbove(m, l[i], 0) && AtOrAbove(m, l[j], 0);
    }
  }

  lemma OnePerSlot(m: Marking, th: Id, u: Id, v: Id)
    requires th in m.objs && m.objs[th].Thread? && ListExact(m, th) && OpenOn(m, u, th) && OpenOn(m, v, th)
    requires m.objs[u].home.level == m.objs[v].home.level
    ensures u == v
  {
    var l := m.objs[th].open;
    assert multiset(l)[u] == 1 && multiset(l)[v] == 1;
    var i :| 0 <= i < |l| && l[i] == u;
    var j :| 0 <= j < |l| && l[j] == v;
    assert LevelOf(m, l[i]) == LevelOf(m, l[j]);
    assert !(i < j) && !(j < i);
  }

  lemma SlotsExact(g: G)
    requires ThreadsOk(g.m) && HomesOk(g.m) && OpenOk(g)
    ensures EachSlotOnce(g)
  {
    hide OpenListOk, ListExact;
    forall th | th in g.m.objs && g.m.objs[th].Thread? ensures ListExact(g.m, th) { ListIsExact(g.m, th); }
    forall u, v, th | OpenOn(g.m, u, th) && OpenOn(g.m, v, th) && g.m.objs[u].home.level == g.m.objs[v].home.level
      ensures u == v
    {
      assert HomeOk(g.m, u);
      OnePerSlot(g.m, th, u, v);
    }
  }

  lemma ListsExact(g: G)
    requires Inv(g)
    ensures EachStringOnce(g) && EachSlotOnce(g)
  {
    StructIs(g, {});
    hide Inv, StructBut, StringsOk, Interned, ThreadsOk, HomesOk, OpenOk, RootsOk, UdataOk, FixedOk;
    StringsExact(g);
    SlotsExact(g);
  }

  /** Whatever a program has done from its beginning, each string and each open upvalue is there once. */
  lemma ListsOfPrograms(hash: string -> nat, run: seq<Action>)
    requires IsRun(Initial(hash), run)
    ensures EachStringOnce(After(Initial(hash), run)) && EachSlotOnce(After(Initial(hash), run))
  {
    InitialInv(hash);
    hide Inv, Initial, Enabled, EachStringOnce, EachSlotOnce;
    RunKeeps(Initial(hash), run);
    ListsExact(After(Initial(hash), run));
  }
}
