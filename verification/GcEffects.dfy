/** What the steps of the program leave in the heap: the object, the slot or the root that a step names has its new
    contents, and everything else is as it was (lua/lvm.c:118-150, 545-560, 718-735; lua/lgc.c:662-710;
    lua/lfunc.c:53-112; lua/lstring.c:75-92). Barriers, marks and the lists of the collector play no part here; what a
    step of the collector leaves is the subject of `GcContents`. */
module GcEffects {
  import opened GcHeap
  import opened GcMark
  import opened GcCollector
  import opened GcState
  import opened GcStrings
  import opened GcAllocate
  import opened GcMutator
  import opened GcUpvals
  import opened GcClose
  import opened GcCloseAll
  import opened GcRuns

  // ---------------------------------------------------------------- what each step promises

  /** The roots, and the userdata that wait for their finalizers, are as they were. */
  predicate SameRoots(g: G, g': G) {
    g'.main == g.main && g'.cur == g.cur && g'.registry == g.registry && g'.mts == g.mts && g'.tmudata == g.tmudata
  }

  /** The thread with another stack. */
  function Restacked(objs: Heap, th: Id, stack: seq<Val>): Heap
    requires th in objs && objs[th].Thread?
  {
    objs[th := objs[th].(stack := stack)]
  }

  /** The value that a closure gets for an upvalue: the open upvalue of the slot, the one that is handed on, or a
      closed one that is new and empty. */
  ghost predicate IsCapture(objs: Heap, objs': Heap, th: Id, c: Capture, v: Val) {
    v.Ref? && v.id in objs' &&
    match c
    case Local(level, _) => objs'[v.id] == Upval(Open(th, level))
    case Outer(uv) => v.id == uv
    case Empty(spare) => v.id == spare && spare !in objs && objs'[spare] == Upval(Closed(Nil))
  }

  function SpareOf(c: Capture): set<Id> { if c.Outer? then {} else {c.spare} }

  function Spares(caps: seq<Capture>): set<Id> { if caps == [] then {} else SpareOf(caps[0]) + Spares(caps[1..]) }

  /** Capturing adds upvalues, and changes nothing else but the list of the running thread. */
  ghost predicate CapturesOnly(objs: Heap, objs': Heap, th: Id, extra: set<Id>) {
    && (forall x :: x in objs && x != th ==> x in objs' && objs'[x] == objs[x])
    && (forall x :: x in objs' && x !in objs ==> x in extra && objs'[x].Upval?)
    && th in objs && objs[th].Thread? && th in objs' && objs'[th].Thread?
    && objs'[th] == objs[th].(open := objs'[th].open)
  }

  /** The upvalues of the slots from `level` up are closed over the values of their slots, or gone if they were dead,
      and the list keeps the others. */
  ghost predicate ClosesOnly(m: Marking, objs': Heap, th: Id, level: nat) {
    && th in m.objs && m.objs[th].Thread? && th in objs' && objs'[th].Thread?
    && objs'[th] == m.objs[th].(open := objs'[th].open)
    && objs'.Keys <= m.objs.Keys
    && (forall x :: x in m.objs && x != th ==> ClosedAt(m, objs', th, level, x))
    && (forall x :: x in objs'[th].open <==> x in m.objs[th].open && LevelOf(m, x) < level)
  }

  ghost predicate ClosedAt(m: Marking, objs': Heap, th: Id, level: nat, x: Id)
    requires x in m.objs
  {
    if OpenOn(m, x, th) && m.objs[x].home.level >= level then
      if x in objs' then objs'[x] == Upval(Closed(HomeVal(m.objs, m.objs[x].home))) else IsDead(m, x)
    else x in objs' && objs'[x] == m.objs[x]
  }

  /** The heap after an assignment to the value of an upvalue, which may be a slot of a stack. */
  function Assigned(objs: Heap, uv: Id, v: Val): Heap {
    if uv !in objs || !objs[uv].Upval? then objs
    else
      match objs[uv].home
      case Closed(_) => objs[uv := Upval(Closed(v))]
      case Open(th, level) =>
        if th in objs && objs[th].Thread? && level < |objs[th].stack|
        then Restacked(objs, th, objs[th].stack[level := v])
        else objs
  }

  ghost predicate NoneHas(objs: Heap, text: string) { forall x :: x in objs ==> objs[x] != Str(text) }

  ghost predicate Effect(g: G, a: Action, g': G)
    requires a.Create? || a.LoadString? || a.MakeClosure? || a.SetStack? ==>
               g.cur in g.m.objs && g.m.objs[g.cur].Thread?
  {
    var objs, objs' := g.m.objs, g'.m.objs;
    match a
    case SetStack(stack) => SameRoots(g, g') && objs' == Restacked(objs, g.cur, stack)
    case Create(id, obj) => SameRoots(g, g')
      && objs' == Restacked(objs, g.cur, objs[g.cur].stack + [Ref(id)])[id := obj]
    case LoadString(id, text) =>
      && SameRoots(g, g')
      && exists s ::
           && (if s in objs then objs[s] == Str(text) else s == id && NoneHas(objs, text))
           && objs' == Restacked(objs, g.cur, objs[g.cur].stack + [Ref(s)])[s := Str(text)]
    case MakeClosure(id, env, p, caps) =>
      && SameRoots(g, g')
      && exists ups: seq<Val>, objs1: Heap ::
           && |ups| == |caps| && (forall i :: 0 <= i < |caps| ==> IsCapture(objs, objs1, g.cur, caps[i], ups[i]))
           && CapturesOnly(objs, objs1, g.cur, Spares(caps)) && id !in objs1
           && objs' == Restacked(objs1, g.cur, objs[g.cur].stack + [Ref(id)])[id := Closure(env, p, ups)]
    case SetTable(t, obj, v) => SameRoots(g, g') && objs' == objs[t := obj]
    case SetField(o, obj, v) => SameRoots(g, g') && objs' == objs[o := obj]
    case SetUpval(uv, v) => SameRoots(g, g') && objs' == Assigned(objs, uv, v)
    case CloseTo(level) => SameRoots(g, g') && ClosesOnly(g.m, objs', g.cur, level)
    case Resume(th) => g' == g.(cur := th)
    case SetBasicMt(i, v) => if i < |g.mts| then g' == g.(mts := g.mts[i := v]) else g' == g
    case SetGlobals(th, v) =>
      SameRoots(g, g') && objs' == if th in objs && objs[th].Thread? then objs[th := objs[th].(gt := v)] else objs
    case Restart => SameRoots(g, g') && objs' == objs
    case MarkAgain => SameRoots(g, g') && objs' == objs
    case Collect => true
  }

  // ---------------------------------------------------------------- the parts

  lemma BarrierObjs(g: G, o: Id, v: Val)
    ensures Barrier(g, o, v).m.objs == g.m.objs && SameRoots(g, Barrier(g, o, v))
  {
    MarkAllMarked(g.m, [v]);
  }

  lemma PushObjs(g: G, v: Val)
    requires g.cur in g.m.objs && g.m.objs[g.cur].Thread?
    ensures var g' := g.(m := Push(g.m, g.cur, [v]));
            SameRoots(g, g') && g'.m.objs == Restacked(g.m.objs, g.cur, g.m.objs[g.cur].stack + [v])
  {
  }

  lemma AllocateObjs(g: G, id: Id, obj: Obj)
    ensures Allocate(g, id, obj).m.objs == g.m.objs[id := obj] && SameRoots(g, Allocate(g, id, obj))
  {
  }

  lemma InternObjects(g: G, id: Id, text: string)
    requires Inv(g) && id !in g.m.objs && |g.strt| > 0
    ensures var g', r := Intern(g, id, text), Interning(g, id, text);
            && SameRoots(g, g') && r.Ref?
            && (if r.id in g.m.objs then g.m.objs[r.id] == Str(text) && g'.m.objs == g.m.objs
                else r.id == id && g'.m.objs == g.m.objs[id := Str(text)] && NoneHas(g.m.objs, text))
  {
    hide Inv, StringWith, NewString, Revive, StringsOk, Interned, NoneHas, SameRoots;
    StringTable(g);
    LookupIs(g, text);
    var r := StringWith(g, text);
    if r == Nil {
      NewStringObjs(g, id, text);
      NoneFound(g.m, text);
    } else {
      ReviveSame(g, r.id);
      FoundText(g.m, r.id, text);
    }
  }

  lemma NoneFound(m: Marking, text: string)
    requires forall id :: IsStr(m, id) ==> m.objs[id].text != text
    ensures NoneHas(m.objs, text)
  {
    forall x | x in m.objs ensures m.objs[x] != Str(text) { assert IsStr(m, x) ==> m.objs[x].text != text; }
  }

  lemma FoundText(m: Marking, id: Id, text: string)
    requires IsStr(m, id) && m.objs[id].text == text
    ensures id in m.objs && m.objs[id] == Str(text)
  {
  }

  lemma NewStringObjs(g: G, id: Id, text: string)
    requires |g.strt| > 0
    ensures NewString(g, id, text).m.objs == g.m.objs[id := Str(text)] && SameRoots(g, NewString(g, id, text))
  {
  }

  // ---------------------------------------------------------------- closures

  lemma ReviveSame(g: G, id: Id)
    ensures Revive(g, id).m.objs == g.m.objs && SameRoots(g, Revive(g, id))
  {
  }

  lemma NewUpvalSame(g: G, level: nat, id: Id)
    requires NewUpvalOk(g.m, g.cur, level, id)
    ensures var g' := NewUpval(g, level, id);
            && SameRoots(g, g') && CapturesOnly(g.m.objs, g'.m.objs, g.cur, {id})
            && id in g'.m.objs && g'.m.objs[id] == Upval(Open(g.cur, level))
  {
    hide FindLevel, Insert;
    WithUpvalIs(g.m, g.cur, level, id);
  }

  lemma FindUpvalObjs(g: G, level: nat, id: Id)
    requires Inv(g) && id !in g.m.objs && level < |StackOf(g.m, g.cur)|
    ensures var g', v := FindUpval(g, level, id), Captured(g, level, id);
            && SameRoots(g, g') && CapturesOnly(g.m.objs, g'.m.objs, g.cur, {id})
            && v.Ref? && v.id in g'.m.objs && g'.m.objs[v.id] == Upval(Open(g.cur, level))
  {
    hide Inv, BaseInv, HomesOk, ThreadsOk, FixedOk, FindLevel, CapturesOnly, NewUpval, Revive, SameRoots, Refers, Alive;
    BaseOf(g);
    BaseParts(g);
    CurHasStack(g, level);
    var r := FindLevel(g.m, OpenList(g.m, g.cur), level);
    if r.Ref? {
      FoundUpval(g, level);
      ReviveSame(g, r.id);
      CapturesSelf(g.m.objs, g.cur, id);
    } else {
      ListLevels(g.m, g.cur);
      FindLevelIs(g.m, OpenList(g.m, g.cur), level);
      NewUpvalSame(g, level, id);
    }
  }

  lemma CapturesSelf(objs: Heap, th: Id, id: Id)
    requires th in objs && objs[th].Thread?
    ensures CapturesOnly(objs, objs, th, {id})
  {
  }

  lemma CapturesTwice(objs0: Heap, objs1: Heap, objs2: Heap, th: Id, extra1: set<Id>, extra2: set<Id>)
    requires CapturesOnly(objs0, objs1, th, extra1) && CapturesOnly(objs1, objs2, th, extra2)
    ensures CapturesOnly(objs0, objs2, th, extra1 + extra2)
  {
  }

  lemma CapturesNone(objs: Heap, th: Id)
    requires th in objs && objs[th].Thread?
    ensures CapturesOnly(objs, objs, th, {})
  {
  }

  /** What has been captured stays so while more is captured. */
  lemma StillCapture(objs0: Heap, objs1: Heap, objs2: Heap, th: Id, c: Capture, v: Val, extra: set<Id>)
    requires IsCapture(objs0, objs1, th, c, v) && CapturesOnly(objs1, objs2, th, extra) && (c.Outer? || v.id != th)
    ensures IsCapture(objs0, objs2, th, c, v)
  {
  }

  lemma CurIs(g: G)
    requires Inv(g)
    ensures g.cur in g.m.objs && g.m.objs[g.cur].Thread?
  {
    CurIsThread(g);
  }

  lemma AliveIn(g: G, x: Id)
    requires Alive(g.m, x)
    ensures x in g.m.objs
  {
  }

  lemma {:induction false} CaptureObjs(g: G, caps: seq<Capture>)
    requires Inv(g) && CapsFresh(g, caps) && forall c :: c in caps && c.Outer? ==> Alive(g.m, c.uv)
    ensures var (g1, ups) := CaptureAll(g, caps);
            && SameRoots(g, g1) && Inv(g1) && |ups| == |caps| && CapturesOnly(g.m.objs, g1.m.objs, g.cur, Spares(caps))
            && forall i :: 0 <= i < |caps| ==> IsCapture(g.m.objs, g1.m.objs, g.cur, caps[i], ups[i])
    decreases |caps|
  {
    hide Inv, FindUpval, EmptyUpval, Captured, Alive, CapturesOnly, IsCapture, Spares, SpareOf, CaptureAll, CapsFresh,
      Next;
    CurIs(g);
    if caps == [] {
      CapturesNone(g.m.objs, g.cur);
      assert Spares(caps) == {} by { NoSpares(); }
      CaptureNone(g);
    } else {
      var c := caps[0];
      var g0, v := Next(g, c).0, Next(g, c).1;
      NextCapture(g, caps);
      forall c' | c' in caps[1..] && c'.Outer? ensures Alive(g0.m, c'.uv) { assert c' in caps; }
      CaptureObjs(g0, caps[1..]);
      var g1, ups := CaptureAll(g, caps).0, CaptureAll(g, caps).1;
      CaptureUnfolds(g, caps);
      CapturesTwice(g.m.objs, g0.m.objs, g1.m.objs, g.cur, SpareOf(c), Spares(caps[1..]));
      assert Spares(caps) == SpareOf(c) + Spares(caps[1..]) by { MoreSpares(caps); }
      forall i | 0 <= i < |caps| ensures IsCapture(g.m.objs, g1.m.objs, g.cur, caps[i], ups[i]) {
        if i == 0 {
          StillCapture(g.m.objs, g0.m.objs, g1.m.objs, g.cur, c, v, Spares(caps[1..]));
        } else {
          EarlierCapture(g.m.objs, g0.m.objs, g1.m.objs, g.cur, caps[i], ups[i], SpareOf(c));
        }
      }
    }
  }

  lemma CaptureNone(g: G)
    ensures CaptureAll(g, []) == (g, [])
  {
  }

  lemma NoSpares()
    ensures Spares([]) == {}
  {
  }

  lemma MoreSpares(caps: seq<Capture>)
    requires caps != []
    ensures Spares(caps) == SpareOf(caps[0]) + Spares(caps[1..])
  {
  }

  /** What was new after a part of the captures was new before. */
  lemma EarlierCapture(objs0: Heap, objs1: Heap, objs2: Heap, th: Id, c: Capture, v: Val, extra: set<Id>)
    requires IsCapture(objs1, objs2, th, c, v) && CapturesOnly(objs0, objs1, th, extra)
    ensures IsCapture(objs0, objs2, th, c, v)
  {
  }

  /** One capture. */
  function Next(g: G, c: Capture): (G, Val) {
    match c
    case Local(level, spare) => (FindUpval(g, level, spare), Captured(g, level, spare))
    case Outer(uv) => (g, Ref(uv))
    case Empty(spare) => (EmptyUpval(g, spare), Ref(spare))
  }

  lemma CaptureUnfolds(g: G, caps: seq<Capture>)
    requires caps != []
    ensures var (g0, v) := Next(g, caps[0]);
            var (g1, vs) := CaptureAll(g0, caps[1..]);
            CaptureAll(g, caps) == (g1, [v] + vs)
  {
    hide FindUpval, EmptyUpval, Captured;
  }

  lemma LocalCapture(g: G, level: nat, spare: Id)
    requires Inv(g) && spare !in g.m.objs && level < |StackOf(g.m, g.cur)|
    ensures Captures(g, Local(level, spare))
  {
    hide Inv, FindUpval, Captured, Alive, CapturesOnly, Shares;
    CurIs(g);
    CurHasStack(g, level);
    FindUpvalKeeps(g, level, spare);
    FindUpvalObjs(g, level, spare);
    ThreadStays(g.m.objs, FindUpval(g, level, spare).m.objs, g.cur, {spare});
    forall x | Alive(g.m, x) ensures Alive(FindUpval(g, level, spare).m, x) { FindUpvalAlive(g, level, spare, x); }
  }

  lemma OuterCapture(g: G, uv: Id)
    requires Inv(g) && Alive(g.m, uv)
    ensures Captures(g, Outer(uv))
  {
    CurIs(g);
    AliveIn(g, uv);
    hide Inv, Alive;
    CapturesNone(g.m.objs, g.cur);
  }

  lemma EmptyCapture(g: G, spare: Id)
    requires Inv(g) && spare !in g.m.objs
    ensures Captures(g, Empty(spare))
  {
    hide Inv, Alive, Allocate;
    CurIs(g);
    EmptyUpvalKeeps(g, spare);
    AllocateObjs(g, spare, Upval(Closed(Nil)));
  }

  /** What one capture does. */
  ghost predicate Captures(g: G, c: Capture) {
    var (g0, v) := Next(g, c);
    && Inv(g0) && SameRoots(g, g0) && (forall x :: Alive(g.m, x) ==> Alive(g0.m, x))
    && CapturesOnly(g.m.objs, g0.m.objs, g.cur, SpareOf(c))
    && IsCapture(g.m.objs, g0.m.objs, g.cur, c, v) && (c.Outer? || v.id != g.cur)
  }

  lemma FreshIs(g: G, caps: seq<Capture>)
    requires caps != [] && CapsFresh(g, caps)
    ensures CapsFresh(Next(g, caps[0]).0, caps[1..])
    ensures match caps[0]
            case Local(level, spare) => spare !in g.m.objs && level < |StackOf(g.m, g.cur)|
            case Outer(_) => true
            case Empty(spare) => spare !in g.m.objs
  {
    hide FindUpval, EmptyUpval, Captured, StackOf;
  }

  lemma NextCapture(g: G, caps: seq<Capture>)
    requires Inv(g) && caps != [] && CapsFresh(g, caps) && (caps[0].Outer? ==> Alive(g.m, caps[0].uv))
    ensures Captures(g, caps[0]) && CapsFresh(Next(g, caps[0]).0, caps[1..])
  {
    hide Inv, Captures, CapsFresh, Alive, Next;
    FreshIs(g, caps);
    match caps[0]
    case Local(level, spare) => LocalCapture(g, level, spare);
    case Outer(uv) => OuterCapture(g, uv);
    case Empty(spare) => EmptyCapture(g, spare);
  }

  lemma ThreadStays(objs: Heap, objs': Heap, th: Id, extra: set<Id>)
    requires CapturesOnly(objs, objs', th, extra)
    ensures th in objs && objs[th].Thread? && th in objs' && objs'[th].Thread? && objs'[th].stack == objs[th].stack
  {
  }

  // ---------------------------------------------------------------- closing

  lemma LinkObjs(g: G, uv: Id, v: Val)
    ensures LinkUpval(g, uv, v).m.objs == g.m.objs && SameRoots(g, LinkUpval(g, uv, v))
  {
    BarrierObjs(Link(g, uv).(m := SetColour(g.m, uv, Black)), uv, v);
    hide Barrier;
  }

  /** The first upvalue of the list is taken out of it, and closed or freed. */
  lemma CloseFirstObjs(g: G, th: Id)
    requires ThreadsOk(g.m) && HomesOk(g.m) && OpenList(g.m, th) != []
    ensures var uv, g' := OpenList(g.m, th)[0], CloseFirst(g, th);
            var objs := g.m.objs[th := g.m.objs[th].(open := OpenList(g.m, th)[1..])];
            && SameRoots(g, g') && OpenOn(g.m, uv, th) && uv != th
            && g'.m.objs == if IsDead(g.m, uv) then objs - {uv}
                 else objs[uv := Upval(Closed(HomeVal(g.m.objs, g.m.objs[uv].home)))]
  {
    FirstIsOpen(g.m, th);
    var uv := OpenList(g.m, th)[0];
    var g1 := g.(m := SetOpen(g.m, th, OpenList(g.m, th)[1..]), uvhead := Without(g.uvhead, uv));
    var v := UpvalVal(g.m, uv);
    LinkObjs(g1.(m := SetObj(g1.m, uv, Upval(Closed(v)))), uv, v);
    assert IsDead(g1.m, uv) == IsDead(g.m, uv);
    hide LinkUpval, Without, IsDead;
  }

  lemma NothingCloses(m: Marking, th: Id, level: nat)
    requires ThreadsOk(m) && th in m.objs && m.objs[th].Thread?
    requires OpenList(m, th) == [] || !AtOrAbove(m, OpenList(m, th)[0], level)
    ensures ClosesOnly(m, m.objs, th, level)
  {
    AllBelow(m, th, level);
    assert OpenListOk(m, th);
    forall x | x in m.objs[th].open ensures LevelOf(m, x) < level { assert multiset(OpenList(m, th))[x] > 0; }
  }

  /** After the first, the others. */
  lemma ThenCloses(m: Marking, m1: Marking, objs': Heap, th: Id, level: nat, uv: Id)
    requires ThreadsOk(m) && HomesOk(m) && OpenList(m, th) != [] && uv == OpenList(m, th)[0] && AtOrAbove(m, uv, level)
    requires OpenOn(m, uv, th) && uv != th && th in m.objs && m.objs[th].Thread?
    requires var objs := m.objs[th := m.objs[th].(open := OpenList(m, th)[1..])];
             m1.objs == if IsDead(m, uv) then objs - {uv}
               else objs[uv := Upval(Closed(HomeVal(m.objs, m.objs[uv].home)))]
    requires ClosesOnly(m1, objs', th, level) && forall x :: IsDead(m1, x) ==> IsDead(m, x)
    ensures ClosesOnly(m, objs', th, level)
  {
    hide ThreadsOk, HomesOk, IsDead;
    forall x | x in m.objs && x != th ensures ClosedAt(m, objs', th, level, x) {
      if x != uv {
        assert ClosedAt(m1, objs', th, level, x) && HomeVal(m1.objs, Open(th, 0)) == HomeVal(m.objs, Open(th, 0));
      }
      if x == uv && !IsDead(m, uv) { assert ClosedAt(m1, objs', th, level, x); }
    }
    var l := OpenList(m, th);
    assert l == [uv] + l[1..];
    forall x ensures x in objs'[th].open <==> x in m.objs[th].open && LevelOf(m, x) < level {
      if x == uv { UvOnce(m, th); }
    }
  }

  lemma UvOnce(m: Marking, th: Id)
    requires ThreadsOk(m) && HomesOk(m) && OpenList(m, th) != []
    ensures OpenList(m, th)[0] !in OpenList(m, th)[1..]
  {
    FirstIsOpen(m, th);
    var l := OpenList(m, th);
    assert l == [l[0]] + l[1..];
  }

  lemma {:induction false} CloseObjs(g: G, th: Id, level: nat, n: nat)
    requires Inv(g) && n >= |OpenList(g.m, th)| && th in g.m.objs && g.m.objs[th].Thread?
    ensures var g' := Close(g, th, level, n); SameRoots(g, g') && ClosesOnly(g.m, g'.m.objs, th, level)
    decreases n
  {
    var l := OpenList(g.m, th);
    hide Inv, CloseFirst, BaseInv, KindsOk, HomesOk, ThreadsOk, ClosesOnly, FixedOk, SameValues;
    ListsOf(g);
    if n == 0 || l == [] || !AtOrAbove(g.m, l[0], level) {
      NothingCloses(g.m, th, level);
    } else {
      var g1 := CloseFirst(g, th);
      CloseFirstOpen(g, th);
      StillDead(g, th);
      CloseFirstKeeps(g, th);
      CloseFirstObjs(g, th);
      CloseObjs(g1, th, level, n - 1);
      hide OpenOn, AtOrAbove, HomeVal, IsDead;
      ThenCloses(g.m, g1.m, Close(g1, th, level, n - 1).m.objs, th, level, l[0]);
    }
  }

  lemma ListsOf(g: G)
    requires Inv(g)
    ensures ThreadsOk(g.m) && HomesOk(g.m)
  {
    BaseOf(g);
    BaseParts(g);
  }

  lemma StillDead(g: G, th: Id)
    requires Inv(g) && OpenList(g.m, th) != []
    ensures forall x :: IsDead(CloseFirst(g, th).m, x) ==> IsDead(g.m, x)
  {
    CloseFirstValues(g, th);
  }

  // ---------------------------------------------------------------- the steps

  lemma CreateDoes(g: G, id: Id, obj: Obj)
    requires Inv(g) && Enabled(g, Create(id, obj)) && |g.strt| > 0
    ensures g.cur in g.m.objs && g.m.objs[g.cur].Thread? && Effect(g, Create(id, obj), Apply(g, Create(id, obj)))
  {
    CurIs(g);
    AllocateObjs(g, id, obj);
    assert id != g.cur;
    hide Inv, Allocate;
    PushObjs(Allocate(g, id, obj), Ref(id));
    Swapped(g.m.objs, g.cur, id, g.m.objs[g.cur].(stack := g.m.objs[g.cur].stack + [Ref(id)]), obj);
  }

  lemma Swapped(objs: Heap, a: Id, b: Id, x: Obj, y: Obj)
    requires a != b
    ensures objs[a := x][b := y] == objs[b := y][a := x]
  {
  }

  lemma LoadDoes(g: G, id: Id, text: string)
    requires Inv(g) && id !in g.m.objs && |g.strt| > 0
    ensures g.cur in g.m.objs && g.m.objs[g.cur].Thread?
            && Effect(g, LoadString(id, text), Apply(g, LoadString(id, text)))
  {
    hide Inv, Intern, Interning, Effect, Push;
    CurIs(g);
    InternObjects(g, id, text);
    var g1, s := Intern(g, id, text), Interning(g, id, text).id;
    assert s != g.cur && g.cur in g1.m.objs && g1.m.objs[g.cur] == g.m.objs[g.cur];
    assert g1.m.objs == g.m.objs[s := Str(text)];
    PushObjs(g1, Ref(s));
    Swapped(g.m.objs, g.cur, s, g.m.objs[g.cur].(stack := g.m.objs[g.cur].stack + [Ref(s)]), Str(text));
    LoadEffect(g, id, text, s, Apply(g, LoadString(id, text)));
  }

  lemma LoadEffect(g: G, id: Id, text: string, s: Id, g': G)
    requires g.cur in g.m.objs && g.m.objs[g.cur].Thread? && SameRoots(g, g')
    requires if s in g.m.objs then g.m.objs[s] == Str(text) else s == id && NoneHas(g.m.objs, text)
    requires g'.m.objs == Restacked(g.m.objs, g.cur, g.m.objs[g.cur].stack + [Ref(s)])[s := Str(text)]
    ensures Effect(g, LoadString(id, text), g')
  {
  }

  lemma ClosureDoes(g: G, id: Id, env: Val, p: Val, caps: seq<Capture>)
    requires Inv(g) && CapsFresh(g, caps) && id !in CaptureAll(g, caps).0.m.objs && |g.strt| > 0
    requires forall c :: c in caps && c.Outer? ==> Alive(g.m, c.uv)
    ensures var a := MakeClosure(id, env, p, caps);
            g.cur in g.m.objs && g.m.objs[g.cur].Thread? && Effect(g, a, Apply(g, a))
  {
    hide Inv, Allocate, CaptureAll, IsCapture, CapsFresh, Alive, Effect, Push, CapturesOnly, Spares;
    CurIs(g);
    var g1, ups := CaptureAll(g, caps).0, CaptureAll(g, caps).1;
    CaptureObjs(g, caps);
    ThreadStays(g.m.objs, g1.m.objs, g.cur, Spares(caps));
    var g2 := Allocate(g1, id, Closure(env, p, ups));
    AllocateObjs(g1, id, Closure(env, p, ups));
    PushObjs(g2, Ref(id));
    var stack := g.m.objs[g.cur].stack + [Ref(id)];
    Swapped(g1.m.objs, g.cur, id, g1.m.objs[g.cur].(stack := stack), Closure(env, p, ups));
    ClosureEffect(g, id, env, p, caps, ups, g1.m.objs, Apply(g, MakeClosure(id, env, p, caps)));
  }

  lemma ClosureEffect(g: G, id: Id, env: Val, p: Val, caps: seq<Capture>, ups: seq<Val>, objs1: Heap, g': G)
    requires g.cur in g.m.objs && g.m.objs[g.cur].Thread? && SameRoots(g, g') && g.cur in objs1 && objs1[g.cur].Thread?
    requires |ups| == |caps| && forall i :: 0 <= i < |caps| ==> IsCapture(g.m.objs, objs1, g.cur, caps[i], ups[i])
    requires CapturesOnly(g.m.objs, objs1, g.cur, Spares(caps)) && id !in objs1
    requires g'.m.objs == Restacked(objs1, g.cur, g.m.objs[g.cur].stack + [Ref(id)])[id := Closure(env, p, ups)]
    ensures Effect(g, MakeClosure(id, env, p, caps), g')
  {
    hide IsCapture, CapturesOnly, Spares;
  }

  lemma UpvalDoes(g: G, uv: Id, v: Val)
    requires Inv(g) && Alive(g.m, uv) && |g.strt| > 0
    ensures StoreUpval(g, uv, v).m.objs == Assigned(g.m.objs, uv, v) && SameRoots(g, StoreUpval(g, uv, v))
  {
    hide Inv, Barrier, SameRoots;
    if g.m.objs[uv].Upval? {
      ListsOf(g);
      match g.m.objs[uv].home
      case Closed(_) => BarrierObjs(Stored(g, uv, Upval(Closed(v))), uv, v); SameRootsSet(g, uv, Upval(Closed(v)));
      case Open(th, level) =>
        assert HomeOk(g.m, uv);
        var g1 := g.(m := WithStack(g.m, th, StackOf(g.m, th)[level := v]));
        BarrierObjs(g1, uv, v);
        assert SameRoots(g, Barrier(g1, uv, v)) by { SameRootsTwice(g, g1, Barrier(g1, uv, v)); }
    } else {
      SameRootsTwice(g, g, g);
    }
  }

  lemma SameRootsTwice(g: G, g1: G, g2: G)
    requires g1 == g.(m := g1.m) && (g2 == g1 || SameRoots(g1, g2))
    ensures SameRoots(g, g2)
  {
  }

  lemma SameRootsSet(g: G, o: Id, obj: Obj)
    ensures forall g2 :: SameRoots(Stored(g, o, obj), g2) ==> SameRoots(g, g2)
  {
  }

  lemma StoreDoes(g: G, o: Id, obj: Obj, v: Val)
    requires o in g.m.objs
    ensures StoreForward(g, o, obj, v).m.objs == g.m.objs[o := obj] && SameRoots(g, StoreForward(g, o, obj, v))
    ensures StoreBack(g, o, obj, v).m.objs == g.m.objs[o := obj] && SameRoots(g, StoreBack(g, o, obj, v))
  {
    BarrierObjs(Stored(g, o, obj), o, v);
  }

  /** After an assignment to an upvalue its value is the new one. */
  lemma AssignedValue(g: G, uv: Id, v: Val)
    requires Inv(g) && uv in g.m.objs && g.m.objs[uv].Upval?
    ensures var objs' := Assigned(g.m.objs, uv, v);
            uv in objs' && objs'[uv].Upval? && HomeVal(objs', objs'[uv].home) == v
  {
    hide Inv;
    ListsOf(g);
    assert HomeOk(g.m, uv);
  }

  lemma CloseDoes(g: G, level: nat)
    requires Inv(g)
    ensures var g' := CloseUpvals(g, g.cur, level); SameRoots(g, g') && ClosesOnly(g.m, g'.m.objs, g.cur, level)
  {
    hide Inv, Close, ClosesOnly;
    CurIs(g);
    CloseObjs(g, g.cur, level, |OpenList(g.m, g.cur)|);
  }

  /** What a step needs to be taken. */
  lemma EnabledNeeds(g: G, a: Action)
    requires Inv(g) && Enabled(g, a)
    ensures a.LoadString? ==> a.id !in g.m.objs
    ensures a.MakeClosure? ==> CapsFresh(g, a.caps) && a.id !in CaptureAll(g, a.caps).0.m.objs
    ensures a.MakeClosure? ==> forall c :: c in a.caps && c.Outer? ==> Alive(g.m, c.uv)
    ensures a.SetTable? ==> a.t in g.m.objs
    ensures a.SetField? ==> a.o in g.m.objs
    ensures a.SetUpval? ==> Alive(g.m, a.uv)
  {
    hide Inv, CapsFresh, CaptureAll, Usable, Alive, Fields, SameShape;
    match a
    case MakeClosure(id, env, p, caps) =>
      forall c | c in caps && c.Outer? ensures Alive(g.m, c.uv) { AccessibleAlive(g, c.uv); }
    case SetUpval(uv, _) => AccessibleAlive(g, uv);
    case _ =>
  }

  lemma TableDoes(g: G, t: Id, obj: Obj, v: Val)
    requires |g.strt| > 0 && t in g.m.objs
    ensures Effect(g, SetTable(t, obj, v), Apply(g, SetTable(t, obj, v)))
  {
    hide StoreForward, StoreBack, SameRoots;
    StoreDoes(g, t, obj, v);
  }

  lemma FieldDoes(g: G, o: Id, obj: Obj, v: Val)
    requires |g.strt| > 0 && o in g.m.objs
    ensures Effect(g, SetField(o, obj, v), Apply(g, SetField(o, obj, v)))
  {
    hide StoreForward, StoreBack, SameRoots;
    StoreDoes(g, o, obj, v);
  }

  lemma UpvalueDoes(g: G, uv: Id, v: Val)
    requires Inv(g) && |g.strt| > 0 && Alive(g.m, uv)
    ensures Effect(g, SetUpval(uv, v), Apply(g, SetUpval(uv, v)))
  {
    hide Inv, StoreUpval, SameRoots, Assigned, Alive;
    UpvalDoes(g, uv, v);
  }

  lemma MetatableDoes(g: G, i: nat, v: Val)
    requires |g.strt| > 0
    ensures Effect(g, SetBasicMt(i, v), Apply(g, SetBasicMt(i, v)))
  {
  }

  lemma StoresDo(g: G, a: Action)
    requires Inv(g) && Enabled(g, a) && IsStore(a) && |g.strt| > 0
    ensures Effect(g, a, Apply(g, a))
  {
    hide Inv, Enabled, Alive, Effect, Apply;
    EnabledNeeds(g, a);
    match a
    case SetTable(t, obj, v) => TableDoes(g, t, obj, v);
    case SetField(o, obj, v) => FieldDoes(g, o, obj, v);
    case SetUpval(uv, v) => UpvalueDoes(g, uv, v);
    case SetBasicMt(i, v) => MetatableDoes(g, i, v);
    case SetGlobals(th, v) => GlobalsDo(g, th, v);
  }

  lemma GlobalsDo(g: G, th: Id, v: Val)
    requires |g.strt| > 0
    ensures Effect(g, SetGlobals(th, v), Apply(g, SetGlobals(th, v)))
  {
    hide StoreForward, StoreBack;
    if th in g.m.objs && g.m.objs[th].Thread? { StoreDoes(g, th, g.m.objs[th].(gt := v), v); }
  }

  /** Every step of the program does to the heap what it is there for, and no more. */
  lemma StepsDo(g: G, a: Action)
    requires Inv(g) && Enabled(g, a)
    ensures |g.strt| > 0 && g.cur in g.m.objs && g.m.objs[g.cur].Thread? && Effect(g, a, Apply(g, a))
  {
    hide Inv, Enabled, Effect, Apply, StringsOk, Interned;
    StringTable(g);
    CurIs(g);
    if IsStore(a) {
      StoresDo(g, a);
    } else if a.LoadString? || a.MakeClosure? || a.Create? {
      MakingDoes(g, a);
    } else {
      OtherDoes(g, a);
    }
  }

  lemma RootObjs(g: G)
    ensures MarkRoot(g).m.objs == g.m.objs && SameRoots(g, MarkRoot(g))
  {
    MarkAllMarked(g.m.(gray := [], grayagain := [], weak := []),
      [Ref(g.main), GlobalsOf(g.m, g.main), g.registry] + g.mts);
  }

  lemma OtherDoes(g: G, a: Action)
    requires Inv(g) && |g.strt| > 0 && !IsStore(a) && !(a.LoadString? || a.MakeClosure? || a.Create?)
    ensures g.cur in g.m.objs && g.m.objs[g.cur].Thread? && Effect(g, a, Apply(g, a))
  {
    hide Inv, SingleStep, MarkRoot, CloseUpvals, ClosesOnly;
    CurIs(g);
    RootObjs(g);
    if a.CloseTo? { CloseDoes(g, a.level); }
  }

  lemma MakingDoes(g: G, a: Action)
    requires Inv(g) && Enabled(g, a) && |g.strt| > 0 && (a.LoadString? || a.MakeClosure? || a.Create?)
    ensures g.cur in g.m.objs && g.m.objs[g.cur].Thread? && Effect(g, a, Apply(g, a))
  {
    EnabledNeeds(g, a);
    hide Inv, Effect, Apply, Enabled, CaptureAll, CapsFresh, Alive;
    match a
    case Create(id, obj) => CreateDoes(g, id, obj);
    case LoadString(id, text) => LoadDoes(g, id, text);
    case MakeClosure(id, env, p, caps) => ClosureDoes(g, id, env, p, caps);
  }
}
