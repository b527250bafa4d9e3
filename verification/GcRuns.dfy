/** Runs of a program with its incremental collector: whatever the program can reach exists, and no step of
    the collector, in any order with steps of the program, takes it away. */
module GcRuns {
  import opened GcHeap
  import opened GcMark
  import opened GcCollector
  import opened GcAtomic
  import opened GcClear
  import opened GcState
  import opened GcStateMark
  import opened GcSweepElem
  import opened GcMutator
  import opened GcAllocate
  import opened GcStrings
  import opened GcUpvals
  import opened GcCloseAll
  import opened GcSteps

  // ---------------------------------------------------------------- what the program can reach

  ghost predicate Path(objs: Heap, p: seq<Id>) {
    p != [] && forall i :: 0 <= i < |p| - 1 ==> Refers(objs, p[i], p[i + 1])
  }

  /** There is a way from a root to `x`, through strong and weak references. */
  ghost predicate Accessible(g: G, x: Id) {
    exists p :: Path(g.m.objs, p) && Ref(p[0]) in RootVals(g) && p[|p| - 1] == x
  }

  ghost predicate StrongPath(objs: Heap, names: Names, p: seq<Id>) {
    p != [] && forall i :: 0 <= i < |p| - 1 ==> StronglyRefers(objs, names, p[i], p[i + 1])
  }

  /** There is a way from a root to `x` that does not use weak references. */
  ghost predicate StronglyReachable(g: G, x: Id) {
    exists p :: StrongPath(g.m.objs, g.m.names, p) && Ref(p[0]) in RootVals(g) && p[|p| - 1] == x
  }

  lemma {:induction false} PathAlive(m: Marking, p: seq<Id>)
    requires AliveClosed(m) && Path(m.objs, p) && Alive(m, p[0])
    ensures Alive(m, p[|p| - 1])
    decreases |p|
  {
    if |p| > 1 {
      var q := p[..|p| - 1];
      PathAlive(m, q);
      assert Refers(m.objs, p[|p| - 2], p[|p| - 1]);
    }
  }

  /** Whatever the program can reach exists and is not dead. */
  lemma AccessibleAlive(g: G, x: Id)
    requires Inv(g) && Accessible(g, x)
    ensures Alive(g.m, x)
  {
    var p :| Path(g.m.objs, p) && Ref(p[0]) in RootVals(g) && p[|p| - 1] == x;
    PathAlive(g.m, p);
  }

  ghost predicate Usable(g: G, v: Val) { v.Ref? ==> Accessible(g, v.id) }

  lemma UsableAlive(g: G, v: Val)
    requires Inv(g) && Usable(g, v)
    ensures ValAlive(g.m, v)
  {
    if v.Ref? { AccessibleAlive(g, v.id); }
  }

  // ---------------------------------------------------------------- steps of the program

  /** What a new closure gets for an upvalue: a slot of the running function, an upvalue of it, or, for a chunk
      that has been loaded, a new empty one. */
  datatype Capture = Local(level: nat, spare: Id) | Outer(uv: Id) | Empty(spare: Id)

  datatype Action =
    | Collect
    | Restart
    | MarkAgain
    | SetStack(stack: seq<Val>)
    | Create(id: Id, obj: Obj)
    | LoadString(id: Id, text: string)
    | MakeClosure(id: Id, env: Val, p: Val, caps: seq<Capture>)
    | SetTable(t: Id, obj: Obj, v: Val)
    | SetField(o: Id, obj: Obj, v: Val)
    | SetUpval(uv: Id, v: Val)
    | CloseTo(level: nat)
    | Resume(th: Id)
    | SetBasicMt(i: nat, v: Val)
    | SetGlobals(th: Id, v: Val)

  function StackOf(m: Marking, th: Id): seq<Val> { if th in m.objs && m.objs[th].Thread? then m.objs[th].stack else [] }

  function WithStack(m: Marking, th: Id, stack: seq<Val>): Marking {
    if th in m.objs && m.objs[th].Thread? then SetObj(m, th, m.objs[th].(stack := stack)) else m
  }

  /** `luaF_newupval`. */
  function EmptyUpval(g: G, id: Id): G { Allocate(g, id, Upval(Closed(Nil))) }

  function CaptureAll(g: G, caps: seq<Capture>): (G, seq<Val>)
    decreases |caps|
  {
    if caps == [] then (g, [])
    else
      match caps[0]
      case Local(level, spare) =>
        var (g1, vs) := CaptureAll(FindUpval(g, level, spare), caps[1..]);
        (g1, [Captured(g, level, spare)] + vs)
      case Outer(uv) =>
        var (g1, vs) := CaptureAll(g, caps[1..]);
        (g1, [Ref(uv)] + vs)
      case Empty(spare) =>
        var (g1, vs) := CaptureAll(EmptyUpval(g, spare), caps[1..]);
        (g1, [Ref(spare)] + vs)
  }

  ghost predicate CapsFresh(g: G, caps: seq<Capture>)
    decreases |caps|
  {
    caps == [] ||
    match caps[0]
    case Local(level, spare) => spare !in g.m.objs && level < |StackOf(g.m, g.cur)|
      && CapsFresh(FindUpval(g, level, spare), caps[1..])
    case Outer(_) => CapsFresh(g, caps[1..])
    case Empty(spare) => spare !in g.m.objs && CapsFresh(EmptyUpval(g, spare), caps[1..])
  }

  /** `OP_SETUPVAL`: the slot of an open upvalue is a stack slot. */
  function StoreUpval(g: G, uv: Id, v: Val): G {
    if uv !in g.m.objs || !g.m.objs[uv].Upval? then g
    else
      match g.m.objs[uv].home
      case Closed(_) => StoreForward(g, uv, Upval(Closed(v)), v)
      case Open(th, level) =>
        if level < |StackOf(g.m, th)|
        then Barrier(g.(m := WithStack(g.m, th, StackOf(g.m, th)[level := v])), uv, v)
        else g
  }

  /** `lua_setfenv` and `lua_replace` for the globals of a thread. */
  function StoreGlobals(g: G, th: Id, v: Val): G {
    if th in g.m.objs && g.m.objs[th].Thread? then StoreForward(g, th, g.m.objs[th].(gt := v), v) else g
  }

  function Apply(g: G, a: Action): G
    requires |g.strt| > 0
  {
    match a
    case Collect => SingleStep(g)
    case Restart => Restarted(g)
    case MarkAgain => if g.phase == Finalize then MarkRoot(g) else g
    case SetStack(stack) => g.(m := WithStack(g.m, g.cur, stack))
    case Create(id, obj) => var g1 := Allocate(g, id, obj); g1.(m := Push(g1.m, g1.cur, [Ref(id)]))
    case LoadString(id, text) => var g1 := Intern(g, id, text); g1.(m := Push(g1.m, g1.cur, [Interning(g, id, text)]))
    case MakeClosure(id, env, p, caps) =>
      var (g1, ups) := CaptureAll(g, caps);
      var g2 := Allocate(g1, id, Closure(env, p, ups));
      g2.(m := Push(g2.m, g2.cur, [Ref(id)]))
    case SetTable(t, obj, v) => StoreBack(g, t, obj, v)
    case SetField(o, obj, v) => StoreForward(g, o, obj, v)
    case SetUpval(uv, v) => StoreUpval(g, uv, v)
    case CloseTo(level) => CloseUpvals(g, g.cur, level)
    case Resume(th) => g.(cur := th)
    case SetBasicMt(i, v) => if i < |g.mts| then g.(mts := g.mts[i := v]) else g
    case SetGlobals(th, v) => StoreGlobals(g, th, v)
  }

  /** A store puts `v`, and nothing else that was not there, into an object that can be reached. */
  ghost predicate StoreEnabled(g: G, o: Id, obj: Obj, v: Val) {
    && Accessible(g, o) && o in g.m.objs && SameShape(g.m.objs[o], obj) && Usable(g, v)
    && (forall x :: Holds(SetObj(g.m, o, obj).objs, o, x) ==> Holds(g.m.objs, o, x) || Ref(x) == v)
    && (forall w :: w in Fields(g.m.objs, obj, false, false) ==> Usable(g, w))
  }

  /** What the program may do: it uses values that it can reach, it closes upvalues before their slots go, and
      it respects the kinds of objects. The collector may take a step at any time. */
  ghost predicate Enabled(g: G, a: Action) {
    match a
    case Collect => true
    case Restart => true
    case MarkAgain => true
    case SetStack(stack) =>
      && (forall v :: v in stack ==> Usable(g, v))
      && (forall u :: OpenOn(g.m, u, g.cur) ==> g.m.objs[u].home.level < |stack|)
    case Create(id, obj) =>
      && id !in g.m.objs && (obj.Udata? || obj.Closure? || obj.Table? || obj.Proto? || obj.Thread?)
      && (obj.Thread? ==> obj.open == [])
      && (forall v :: v in Fields(g.m.objs, obj, false, false) ==> Usable(g, v))
    case LoadString(id, _) => id !in g.m.objs
    case MakeClosure(id, env, p, caps) =>
      && Usable(g, env) && Usable(g, p) && (forall c :: c in caps && c.Outer? ==> Accessible(g, c.uv))
      && CapsFresh(g, caps) && id !in CaptureAll(g, caps).0.m.objs
    case SetTable(t, obj, v) => obj.Table? && StoreEnabled(g, t, obj, v)
    case SetField(o, obj, v) => ForwardKind(obj) && StoreEnabled(g, o, obj, v)
    case SetUpval(uv, v) => Accessible(g, uv) && Usable(g, v)
    case CloseTo(_) => true
    case Resume(th) => Accessible(g, th) && th in g.m.objs && g.m.objs[th].Thread?
    case SetBasicMt(_, v) => Usable(g, v)
    case SetGlobals(th, v) => Accessible(g, th) && Usable(g, v)
  }

  // ---------------------------------------------------------------- every step keeps the invariant

  lemma NoSlots(m: Marking, o: Id, obj: Obj)
    requires HomesOk(m) && o in m.objs && !m.objs[o].Thread? && SameShape(m.objs[o], obj)
    ensures HomesOk(SetObj(m, o, obj)) && forall u :: !OpenOn(m, u, o)
  {
    forall u ensures HomeOk(SetObj(m, o, obj), u) { assert HomeOk(m, u); }
    forall u ensures !OpenOn(m, u, o) { assert HomeOk(m, u); }
  }

  /** An object that is not a thread may be given values that are alive. */
  lemma PlainStoreOk(m: Marking, o: Id, obj: Obj)
    requires HomesOk(m) && o in m.objs && SameShape(m.objs[o], obj) && (ForwardKind(obj) || obj.Table?)
    requires forall w :: w in Fields(m.objs, obj, false, false) ==> ValAlive(m, w)
    ensures StoreOk(m, o, obj)
  {
    NoSlots(m, o, obj);
    assert Fields(SetObj(m, o, obj).objs, obj, false, false) == Fields(m.objs, obj, false, false);
  }

  lemma StoreEnabledOk(g: G, o: Id, obj: Obj, v: Val)
    requires Inv(g) && StoreEnabled(g, o, obj, v) && (ForwardKind(obj) || obj.Table?)
    ensures StoreOk(g.m, o, obj) && Adds(g.m, o, obj, [v]) && ValAlive(g.m, v) && Alive(g.m, o)
  {
    AccessibleAlive(g, o);
    UsableAlive(g, v);
    assert HomesOk(g.m) by { BaseOf(g); BaseParts(g); }
    forall w | w in Fields(g.m.objs, obj, false, false) ensures ValAlive(g.m, w) { UsableAlive(g, w); }
    hide Inv, ValAlive, Usable, Accessible, Fields, HomesOk, Alive;
    PlainStoreOk(g.m, o, obj);
  }

  /** A stack whose new values are alive and which keeps the slots of open upvalues. */
  ghost predicate NewStackOk(m: Marking, th: Id, stack: seq<Val>) {
    && th in m.objs && m.objs[th].Thread?
    && (forall v :: v in stack ==> v in m.objs[th].stack || ValAlive(m, v))
    && (forall u :: OpenOn(m, u, th) ==> m.objs[u].home.level < |stack|)
    && (forall k ::
          0 <= k < |stack| && k < |m.objs[th].stack| ==> stack[k] == m.objs[th].stack[k] || ValAlive(m, stack[k]))
  }

  lemma StackFields(m: Marking, th: Id, stack: seq<Val>)
    requires NewStackOk(m, th, stack) && AliveClosed(m) && Alive(m, th)
    ensures forall v :: v in [m.objs[th].gt] + stack ==> ValAlive(m, v)
  {
    forall v | v in [m.objs[th].gt] + stack ensures ValAlive(m, v) {
      if v.Ref? && (v == m.objs[th].gt || v in m.objs[th].stack) { assert Refers(m.objs, th, v.id); }
    }
  }

  lemma StackHomes(m: Marking, th: Id, stack: seq<Val>)
    requires NewStackOk(m, th, stack) && HomesOk(m)
    ensures var m' := SetObj(m, th, m.objs[th].(stack := stack));
            && HomesOk(m')
            && forall u ::
                  OpenOn(m, u, th) ==>
                    (HomeVal(m'.objs, m.objs[u].home) == HomeVal(m.objs, m.objs[u].home)
                    || ValAlive(m, HomeVal(m'.objs, m.objs[u].home)))
  {
    var m' := SetObj(m, th, m.objs[th].(stack := stack));
    hide ValAlive;
    forall u ensures HomeOk(m', u) { assert HomeOk(m, u); }
    forall u | OpenOn(m, u, th)
      ensures HomeVal(m'.objs, m.objs[u].home) == HomeVal(m.objs, m.objs[u].home)
              || ValAlive(m, HomeVal(m'.objs, m.objs[u].home))
    {
      assert HomeOk(m, u);
    }
  }

  lemma StackOk(m: Marking, th: Id, stack: seq<Val>)
    requires HomesOk(m) && AliveClosed(m) && NewStackOk(m, th, stack)
    ensures StoreOk(m, th, m.objs[th].(stack := stack))
  {
    StackHomes(m, th, stack);
    if Alive(m, th) { StackFields(m, th, stack); }
    hide HomesOk, AliveClosed, ValAlive, Alive, OpenOn;
  }

  lemma ClosedOf(g: G)
    requires BaseInv(g)
    ensures AliveClosed(g.m)
  {
  }

  lemma NewStackKeeps(g: G, th: Id, stack: seq<Val>)
    requires Inv(g) && NewStackOk(g.m, th, stack)
    ensures Inv(g.(m := WithStack(g.m, th, stack)))
  {
    BaseOf(g);
    BaseParts(g);
    ClosedOf(g);
    hide Inv, BaseInv, HomesOk, ThreadsOk, AliveClosed, FixedOk;
    StackOk(g.m, th, stack);
    hide StoreOk;
    StackKeeps(g, th, g.m.objs[th].(stack := stack));
  }

  lemma AllUsable(g: G, vs: seq<Val>)
    requires Inv(g) && forall v :: v in vs ==> Usable(g, v)
    ensures forall v :: v in vs ==> ValAlive(g.m, v)
  {
    hide Inv, Usable, ValAlive;
    forall v | v in vs ensures ValAlive(g.m, v) { UsableAlive(g, v); }
  }

  lemma CurIsThread(g: G)
    requires Inv(g)
    ensures g.cur in g.m.objs && g.m.objs[g.cur].Thread?
  {
    BaseOf(g);
    BaseParts(g);
    hide Inv, BaseInv, HomesOk, ThreadsOk;
    FixedThread(g);
  }

  lemma SetStackKeeps(g: G, stack: seq<Val>)
    requires Inv(g) && Enabled(g, SetStack(stack))
    ensures Inv(g.(m := WithStack(g.m, g.cur, stack)))
  {
    hide Inv, Usable, ValAlive;
    CurIsThread(g);
    AllUsable(g, stack);
    NewStackKeeps(g, g.cur, stack);
  }

  /** `g'` satisfies the invariant and has all objects of `m`. */
  ghost predicate KeepsAll(m: Marking, g': G) { Inv(g') && g'.m.objs.Keys >= m.objs.Keys }

  lemma PushOne(g: G, v: Val)
    requires Inv(g) && ValAlive(g.m, v)
    ensures KeepsAll(g.m, g.(m := Push(g.m, g.cur, [v])))
  {
    hide Inv, ValAlive, Push;
    PushKeeps(g, [v]);
  }

  lemma NewAlive(g: G, id: Id, obj: Obj)
    requires Inv(g) && NewOk(g, id, obj)
    ensures Inv(Allocate(g, id, obj)) && ValAlive(Allocate(g, id, obj).m, Ref(id))
            && Allocate(g, id, obj).m.objs == g.m.objs[id := obj]
  {
    AllocateIs(g, id, obj);
    hide Inv, Allocate, NewOk, Alive;
    AllocateKeeps(g, id, obj);
  }

  lemma AllocPush(g: G, id: Id, obj: Obj)
    requires Inv(g) && NewOk(g, id, obj)
    ensures var g1 := Allocate(g, id, obj); KeepsAll(g.m, g1.(m := Push(g1.m, g1.cur, [Ref(id)])))
  {
    hide Inv, Allocate, NewOk, ValAlive, Push;
    NewAlive(g, id, obj);
    PushOne(Allocate(g, id, obj), Ref(id));
  }

  lemma CreateKeeps(g: G, id: Id, obj: Obj)
    requires Inv(g) && Enabled(g, Create(id, obj))
    ensures var g1 := Allocate(g, id, obj); KeepsAll(g.m, g1.(m := Push(g1.m, g1.cur, [Ref(id)])))
  {
    forall v | v in Fields(g.m.objs, obj, false, false) ensures ValAlive(g.m, v) { UsableAlive(g, v); }
    assert NewOk(g, id, obj);
    hide Inv, Allocate, NewOk, Usable, KeepsAll, Push;
    AllocPush(g, id, obj);
  }

  lemma InternAlive(g: G, id: Id, text: string)
    requires Inv(g) && id !in g.m.objs
    ensures |g.strt| > 0 && Inv(Intern(g, id, text)) && ValAlive(Intern(g, id, text).m, Interning(g, id, text))
    ensures Intern(g, id, text).m.objs.Keys >= g.m.objs.Keys
  {
    InternKeeps(g, id, text);
    InternObjs(g, id, text);
  }

  lemma LoadKeeps(g: G, id: Id, text: string)
    requires Inv(g) && id !in g.m.objs
    ensures |g.strt| > 0
    ensures var g1 := Intern(g, id, text); KeepsAll(g.m, g1.(m := Push(g1.m, g1.cur, [Interning(g, id, text)])))
  {
    hide Inv, Intern, Interning, ValAlive, Push;
    InternAlive(g, id, text);
    PushOne(Intern(g, id, text), Interning(g, id, text));
  }

  lemma InternObjs(g: G, id: Id, text: string)
    requires |g.strt| > 0
    ensures Intern(g, id, text).m.objs.Keys >= g.m.objs.Keys
  {
  }

  // ---------------------------------------------------------------- closures

  lemma FindUpvalAlive(g: G, level: nat, id: Id, x: Id)
    requires Inv(g) && id !in g.m.objs && level < |StackOf(g.m, g.cur)| && Alive(g.m, x)
    ensures Alive(FindUpval(g, level, id).m, x) && FindUpval(g, level, id).m.objs.Keys >= g.m.objs.Keys
  {
    var r := FindLevel(g.m, OpenList(g.m, g.cur), level);
    if !r.Ref? {
      BaseOf(g);
      BaseParts(g);
      ListLevels(g.m, g.cur);
      FindLevelIs(g.m, OpenList(g.m, g.cur), level);
      WithUpvalIs(g.m, g.cur, level, id);
      WithUpvalAlive(g.m, g.cur, level, id);
    }
  }

  lemma EmptyUpvalKeeps(g: G, id: Id)
    requires Inv(g) && id !in g.m.objs
    ensures var g' := EmptyUpval(g, id);
            Inv(g') && Alive(g'.m, id) && (forall x :: Alive(g.m, x) ==> Alive(g'.m, x))
              && g'.m.objs.Keys >= g.m.objs.Keys
  {
    hide Inv, Allocate, Alive;
    EmptyIsNew(g, id);
    AllocateIs(g, id, Upval(Closed(Nil)));
    AllocateKeeps(g, id, Upval(Closed(Nil)));
    SameKeys(g);
    AddedAlive(g.m, id, Upval(Closed(Nil)));
  }

  lemma EmptyIsNew(g: G, id: Id)
    requires id !in g.m.objs
    ensures NewOk(g, id, Upval(Closed(Nil)))
  {
  }

  lemma SameKeys(g: G)
    requires Inv(g)
    ensures g.m.marks.Keys == g.m.objs.Keys
    ensures forall x :: Alive(g.m, x) ==> x in g.m.objs
  {
    BaseOf(g);
    BaseParts(g);
  }

  lemma {:induction false} CaptureKeeps(g: G, caps: seq<Capture>, xs: set<Id>)
    requires Inv(g) && CapsFresh(g, caps) && (forall x :: x in xs ==> Alive(g.m, x))
    requires forall c :: c in caps && c.Outer? ==> c.uv in xs
    ensures var (g1, vs) := CaptureAll(g, caps);
            && Inv(g1) && (forall x :: x in xs ==> Alive(g1.m, x)) && (forall v :: v in vs ==> ValAlive(g1.m, v))
            && g1.m.objs.Keys >= g.m.objs.Keys
    decreases |caps|
  {
    hide Inv, FindUpval, EmptyUpval, Captured, Alive;
    if caps != [] {
      match caps[0]
      case Local(level, spare) =>
        var g1, r := FindUpval(g, level, spare), Captured(g, level, spare);
        CurHasStack(g, level);
        FindUpvalKeeps(g, level, spare);
        assert Alive(g1.m, r.id);
        forall x | x in xs ensures Alive(g1.m, x) { FindUpvalAlive(g, level, spare, x); }
        FindUpvalAlive(g, level, spare, g.cur);
        CaptureKeeps(g1, caps[1..], xs + {r.id});
      case Outer(uv) =>
        CaptureKeeps(g, caps[1..], xs);
      case Empty(spare) =>
        EmptyUpvalKeeps(g, spare);
        CaptureKeeps(EmptyUpval(g, spare), caps[1..], xs + {spare});
    }
  }

  lemma CurHasStack(g: G, level: nat)
    requires Inv(g) && level < |StackOf(g.m, g.cur)|
    ensures g.cur in g.m.objs && g.m.objs[g.cur].Thread? && level < |g.m.objs[g.cur].stack| && Alive(g.m, g.cur)
  {
    assert Ref(g.cur) in RootVals(g);
  }

  lemma ClosureKeeps(g: G, id: Id, env: Val, p: Val, caps: seq<Capture>)
    requires Inv(g) && Enabled(g, MakeClosure(id, env, p, caps))
    ensures var (g1, ups) := CaptureAll(g, caps);
            var g2 := Allocate(g1, id, Closure(env, p, ups));
            KeepsAll(g.m, g2.(m := Push(g2.m, g2.cur, [Ref(id)])))
  {
    var (g1, ups) := CaptureAll(g, caps);
    UsableAlive(g, env);
    UsableAlive(g, p);
    forall c | c in caps && c.Outer? ensures Alive(g.m, c.uv) { AccessibleAlive(g, c.uv); }
    assert CapsFresh(g, caps);
    hide Inv, CapsFresh, CaptureAll, Accessible, Alive, Allocate, Push;
    CapturesAlive(g, env, p, caps);
    NewClosure(g1, id, env, p, ups);
  }

  function IdsOf(v: Val): set<Id> { if v.Ref? then {v.id} else {} }

  /** What a new closure is made from. */
  function Needed(env: Val, p: Val, caps: seq<Capture>): set<Id> {
    (set c | c in caps && c.Outer? :: c.uv) + IdsOf(env) + IdsOf(p)
  }

  lemma NeededAlive(m: Marking, env: Val, p: Val, caps: seq<Capture>)
    requires ValAlive(m, env) && ValAlive(m, p) && forall c :: c in caps && c.Outer? ==> Alive(m, c.uv)
    ensures forall x :: x in Needed(env, p, caps) ==> Alive(m, x)
    ensures forall c :: c in caps && c.Outer? ==> c.uv in Needed(env, p, caps)
  {
    hide Alive;
  }

  lemma NeededValues(m: Marking, env: Val, p: Val, caps: seq<Capture>)
    requires forall x :: x in Needed(env, p, caps) ==> Alive(m, x)
    ensures ValAlive(m, env) && ValAlive(m, p)
  {
    hide Alive;
    assert env.Ref? ==> env.id in Needed(env, p, caps);
    assert p.Ref? ==> p.id in Needed(env, p, caps);
  }

  lemma CapturesAlive(g: G, env: Val, p: Val, caps: seq<Capture>)
    requires Inv(g) && CapsFresh(g, caps) && ValAlive(g.m, env) && ValAlive(g.m, p)
    requires forall c :: c in caps && c.Outer? ==> Alive(g.m, c.uv)
    ensures var (g1, ups) := CaptureAll(g, caps);
            && Inv(g1) && ValAlive(g1.m, env) && ValAlive(g1.m, p) && (forall v :: v in ups ==> ValAlive(g1.m, v))
            && g1.m.objs.Keys >= g.m.objs.Keys
  {
    hide Inv, CapsFresh, CaptureAll, Alive, Needed, ValAlive;
    NeededAlive(g.m, env, p, caps);
    CaptureKeeps(g, caps, Needed(env, p, caps));
    NeededValues(CaptureAll(g, caps).0.m, env, p, caps);
  }

  lemma NewClosure(g: G, id: Id, env: Val, p: Val, ups: seq<Val>)
    requires Inv(g) && id !in g.m.objs && ValAlive(g.m, env) && ValAlive(g.m, p)
             && forall v :: v in ups ==> ValAlive(g.m, v)
    ensures var g1 := Allocate(g, id, Closure(env, p, ups)); KeepsAll(g.m, g1.(m := Push(g1.m, g1.cur, [Ref(id)])))
  {
    ClosureIsNew(g, id, env, p, ups);
    hide Inv, Allocate, NewOk, Push, KeepsAll, ValAlive;
    AllocPush(g, id, Closure(env, p, ups));
  }

  lemma ClosureIsNew(g: G, id: Id, env: Val, p: Val, ups: seq<Val>)
    requires id !in g.m.objs && ValAlive(g.m, env) && ValAlive(g.m, p) && forall v :: v in ups ==> ValAlive(g.m, v)
    ensures NewOk(g, id, Closure(env, p, ups))
  {
    hide ValAlive;
  }

  // ---------------------------------------------------------------- upvalues, threads, metatables

  lemma SlotStack(m: Marking, th: Id, level: nat, v: Val)
    requires HomesOk(m) && ValAlive(m, v) && level < |StackOf(m, th)|
    ensures NewStackOk(m, th, StackOf(m, th)[level := v])
  {
    hide ValAlive;
    forall u | OpenOn(m, u, th) ensures m.objs[u].home.level < |StackOf(m, th)[level := v]| { assert HomeOk(m, u); }
  }

  lemma SetOpenSlot(g: G, th: Id, level: nat, v: Val)
    requires Inv(g) && ValAlive(g.m, v) && level < |StackOf(g.m, th)|
    ensures Inv(g.(m := WithStack(g.m, th, StackOf(g.m, th)[level := v])))
  {
    BaseOf(g);
    BaseParts(g);
    hide Inv, BaseInv, ValAlive, HomesOk, ThreadsOk, FixedOk, NewStackOk, WithStack, StackOf;
    SlotStack(g.m, th, level, v);
    NewStackKeeps(g, th, StackOf(g.m, th)[level := v]);
  }

  lemma OpenNotBlack(g: G, uv: Id)
    requires Inv(g) && uv in g.m.objs && IsOpen(g.m.objs[uv])
    ensures !IsBlack(g.m, uv) && HomeOk(g.m, uv)
  {
    BaseOf(g);
    BaseParts(g);
    assert KindOk(g.m.objs[uv], g.m.marks[uv].colour);
  }

  lemma SetUpvalKeeps(g: G, uv: Id, v: Val)
    requires Inv(g) && Alive(g.m, uv) && ValAlive(g.m, v)
    ensures KeepsAll(g.m, StoreUpval(g, uv, v))
  {
    if g.m.objs[uv].Upval? {
      match g.m.objs[uv].home
      case Closed(_) => hide Inv, KeepsAll, Alive, ValAlive, StoreForward; ClosedUpval(g, uv, v);
      case Open(th, level) => OpenUpval(g, uv, th, level, v);
    }
  }

  lemma OpenUpval(g: G, uv: Id, th: Id, level: nat, v: Val)
    requires Inv(g) && uv in g.m.objs && g.m.objs[uv] == Upval(Open(th, level)) && ValAlive(g.m, v)
    ensures KeepsAll(g.m, StoreUpval(g, uv, v))
  {
    hide Inv, ValAlive, Markable;
    OpenNotBlack(g, uv);
    SetOpenSlot(g, th, level, v);
    assert StoreUpval(g, uv, v) == g.(m := WithStack(g.m, th, StackOf(g.m, th)[level := v]));
  }

  lemma ClosedUpval(g: G, uv: Id, v: Val)
    requires Inv(g) && Alive(g.m, uv) && ValAlive(g.m, v) && g.m.objs[uv].Upval? && g.m.objs[uv].home.Closed?
    ensures KeepsAll(g.m, StoreForward(g, uv, Upval(Closed(v)), v))
  {
    var obj := Upval(Closed(v));
    ClosedStore(g, uv, v);
    hide Inv, StoreOk, Adds, StoreForward, Alive, ValAlive;
    StoreKeys(g, uv, obj, v);
    ForwardKeeps(g, uv, obj, v);
  }

  lemma ClosedStore(g: G, uv: Id, v: Val)
    requires Inv(g) && Alive(g.m, uv) && ValAlive(g.m, v) && g.m.objs[uv].Upval? && g.m.objs[uv].home.Closed?
    ensures var obj := Upval(Closed(v)); StoreOk(g.m, uv, obj) && Adds(g.m, uv, obj, [v])
  {
    var obj := Upval(Closed(v));
    assert HomesOk(g.m) by { hide Inv, HomesOk, BaseInv; BaseOf(g); BaseParts(g); }
    hide Inv, StoreOk, Alive, HomesOk;
    assert Adds(g.m, uv, obj, [v]);
    PlainStoreOk(g.m, uv, obj);
  }

  lemma StoreKeys(g: G, o: Id, obj: Obj, v: Val)
    requires o in g.m.objs
    ensures StoreForward(g, o, obj, v).m.objs.Keys == g.m.objs.Keys
            && StoreBack(g, o, obj, v).m.objs.Keys == g.m.objs.Keys
  {
    MarkAllMarked(Stored(g, o, obj).m, [v]);
  }

  lemma ResumeKeeps(g: G, th: Id)
    requires Inv(g) && Alive(g.m, th) && g.m.objs[th].Thread?
    ensures Inv(g.(cur := th))
  {
    var g' := g.(cur := th);
    StructIs(g, {});
    assert FixedOk(g') && RootsOk(g', {}) && UdataOk(g', {}) && OpenOk(g') && RootList(g') == RootList(g);
    SameStrings(g, g');
    assert RootsAlive(g') by {
      forall x | Ref(x) in RootVals(g') ensures Alive(g'.m, x) { if x != th { assert Ref(x) in RootVals(g); } }
    }
    hide StructBut, RootsOk, UdataOk, StringsOk, OpenOk, ThreadsOk, HomesOk, Interned, FixedOk, KindsOk, AliveClosed,
      RootsAlive;
    StructMade(g', {});
    SamePhase(g, g');
  }

  lemma SamePhase(g: G, g': G)
    requires PhaseOk(g) && g' == g.(cur := g'.cur, mts := g'.mts)
    ensures PhaseOk(g')
  {
    forall id | id in g.m.objs ensures SweptId(g', id) == SweptId(g, id) { }
    hide SweptId, MarkInv, OneWhite, BlackExist;
  }

  lemma SetMtKeeps(g: G, i: nat, v: Val)
    requires Inv(g) && ValAlive(g.m, v) && i < |g.mts|
    ensures Inv(g.(mts := g.mts[i := v]))
  {
    var g' := g.(mts := g.mts[i := v]);
    StructIs(g, {});
    assert FixedOk(g') && RootsOk(g', {}) && UdataOk(g', {}) && OpenOk(g') && RootList(g') == RootList(g);
    SameStrings(g, g');
    assert RootsAlive(g') by {
      forall x | Ref(x) in RootVals(g') ensures Alive(g'.m, x) { if Ref(x) != v { assert Ref(x) in RootVals(g); } }
    }
    hide StructBut, RootsOk, UdataOk, StringsOk, OpenOk, ThreadsOk, HomesOk, Interned, FixedOk, KindsOk, AliveClosed,
      RootsAlive;
    StructMade(g', {});
    SamePhase(g, g');
  }

  lemma GlobalsOk(m: Marking, th: Id, v: Val)
    requires HomesOk(m) && AliveClosed(m) && Alive(m, th) && m.objs[th].Thread? && ValAlive(m, v)
    ensures StoreOk(m, th, m.objs[th].(gt := v))
  {
    var obj := m.objs[th].(gt := v);
    var m' := SetObj(m, th, obj);
    forall u ensures HomeOk(m', u) { assert HomeOk(m, u); }
    forall w | w in Fields(m'.objs, obj, false, false) ensures ValAlive(m, w) {
      if w.Ref? && w != v { assert Refers(m.objs, th, w.id); }
    }
  }

  /** Threads are never black, so the barrier does nothing. */
  lemma GlobalsKeep(g: G, th: Id, v: Val)
    requires Inv(g) && Alive(g.m, th) && ValAlive(g.m, v)
    ensures KeepsAll(g.m, StoreGlobals(g, th, v))
  {
    if g.m.objs[th].Thread? {
      var obj := g.m.objs[th].(gt := v);
      BaseOf(g);
      BaseParts(g);
      ClosedOf(g);
      assert KindOk(g.m.objs[th], g.m.marks[th].colour);
      assert StoreForward(g, th, obj, v) == Stored(g, th, obj);
      hide Inv, BaseInv, HomesOk, ThreadsOk, AliveClosed, FixedOk, StoreOk, Alive, ValAlive, KindOk, Barrier;
      GlobalsOk(g.m, th, v);
      StackKeeps(g, th, obj);
    }
  }

  lemma CloseToKeeps(g: G, level: nat)
    requires Inv(g)
    ensures Inv(CloseUpvals(g, g.cur, level)) && FreesDead(g.m, CloseUpvals(g, g.cur, level).m)
  {
    BaseOf(g);
    BaseParts(g);
    FixedThread(g);
    var n := |OpenList(g.m, g.cur)|;
    hide Inv, Close, BaseInv, ThreadsOk, HomesOk, FixedOk;
    CloseKeeps(g, g.cur, level, n);
    CloseExact(g, g.cur, level, n);
  }

  lemma FieldKeeps(g: G, o: Id, obj: Obj, v: Val)
    requires Inv(g) && StoreEnabled(g, o, obj, v) && ForwardKind(obj)
    ensures KeepsAll(g.m, StoreForward(g, o, obj, v))
  {
    StoreKeys(g, o, obj, v);
    StoreEnabledOk(g, o, obj, v);
    hide Inv, StoreEnabled, StoreOk, Adds, StoreForward, Alive, ValAlive;
    ForwardKeeps(g, o, obj, v);
  }

  lemma TableKeeps(g: G, t: Id, obj: Obj, v: Val)
    requires Inv(g) && StoreEnabled(g, t, obj, v) && obj.Table?
    ensures KeepsAll(g.m, StoreBack(g, t, obj, v))
  {
    StoreKeys(g, t, obj, v);
    StoreEnabledOk(g, t, obj, v);
    hide Inv, StoreEnabled, StoreOk, Adds, StoreBack, Alive, ValAlive;
    BackKeeps(g, t, obj, v);
  }

  predicate IsStore(a: Action) { a.SetTable? || a.SetField? || a.SetUpval? || a.SetGlobals? || a.SetBasicMt? }

  lemma StoreStepKeeps(g: G, a: Action)
    requires Inv(g) && Enabled(g, a) && IsStore(a) && |g.strt| > 0
    ensures KeepsAll(g.m, Apply(g, a))
  {
    hide Inv, Accessible, Usable, Alive, ValAlive, StoreForward, StoreBack, StoreUpval, StoreGlobals, StoreEnabled;
    match a
    case SetTable(t, obj, v) => TableKeeps(g, t, obj, v);
    case SetField(o, obj, v) => FieldKeeps(g, o, obj, v);
    case SetUpval(uv, v) => AccessibleAlive(g, uv); UsableAlive(g, v); SetUpvalKeeps(g, uv, v);
    case SetBasicMt(i, v) => if i < |g.mts| { UsableAlive(g, v); SetMtKeeps(g, i, v); }
    case SetGlobals(th, v) => AccessibleAlive(g, th); UsableAlive(g, v); GlobalsKeep(g, th, v);
  }

  /** Every step of the program and of the collector keeps the invariant and removes only dead objects. */
  lemma StepKeeps(g: G, a: Action)
    requires Inv(g) && Enabled(g, a)
    ensures |g.strt| > 0 && Inv(Apply(g, a)) && FreesDead(g.m, Apply(g, a).m)
  {
    StringTable(g);
    if IsStore(a) {
      StoreStepKeeps(g, a);
      hide Inv, Apply, Enabled;
    } else {
      OtherStepKeeps(g, a);
    }
  }

  lemma OtherStepKeeps(g: G, a: Action)
    requires Inv(g) && Enabled(g, a) && !IsStore(a) && |g.strt| > 0
    ensures Inv(Apply(g, a)) && FreesDead(g.m, Apply(g, a).m)
  {
    hide Inv, SingleStep, MarkRoot, Restarted, Allocate, Intern, CaptureAll, CapsFresh, CloseUpvals, Push, Alive,
      Accessible;
    match a
    case Collect => SingleStepKeeps(g);
    case Restart => RestartedKeeps(g);
    case MarkAgain => if g.phase == Finalize { MarkRootKeeps(g); }
    case SetStack(stack) => SetStackKeeps(g, stack);
    case Create(id, obj) => CreateKeeps(g, id, obj);
    case LoadString(id, text) => LoadKeeps(g, id, text);
    case MakeClosure(id, env, p, caps) => ClosureKeeps(g, id, env, p, caps);
    case CloseTo(level) => CloseToKeeps(g, level);
    case Resume(th) => AccessibleAlive(g, th); ResumeKeeps(g, th);
  }

  // ---------------------------------------------------------------- runs

  /** The actions can be taken one after the other. */
  ghost predicate IsRun(g: G, run: seq<Action>)
    decreases |run|
  {
    run == [] || (Enabled(g, run[0]) && |g.strt| > 0 && IsRun(Apply(g, run[0]), run[1..]))
  }

  ghost function After(g: G, run: seq<Action>): G
    requires IsRun(g, run)
    decreases |run|
  {
    if run == [] then g else After(Apply(g, run[0]), run[1..])
  }

  lemma {:induction false} RunKeeps(g: G, run: seq<Action>)
    requires Inv(g) && IsRun(g, run)
    ensures Inv(After(g, run))
    decreases |run|
  {
    hide Inv, Enabled;
    if run != [] {
      StepKeeps(g, run[0]);
      RunKeeps(Apply(g, run[0]), run[1..]);
    }
  }

  /** Safety of the incremental collector. After any run everything that the program can reach exists, and no
      further step, be it of the program or of the collector, removes an object that can be reached. */
  lemma NeverFreed(g: G, run: seq<Action>, a: Action, x: Id)
    requires Inv(g) && IsRun(g, run) && Enabled(After(g, run), a) && Accessible(After(g, run), x)
    ensures x in After(g, run).m.objs && |After(g, run).strt| > 0 && x in Apply(After(g, run), a).m.objs
  {
    hide Enabled;
    RunKeeps(g, run);
    AccessibleAlive(After(g, run), x);
    StepKeeps(After(g, run), a);
  }

  /** In the mark phase no black object refers to a white one, save a userdata that has waited for its finalizer
      since the cycle before; every gray table, closure, thread and prototype
      is on one gray list, once, and threads and open upvalues are never black. */
  lemma ColoursInMarkPhase(g: G, run: seq<Action>)
    requires Inv(g) && IsRun(g, run) && After(g, run).phase == Propagating
    ensures var g' := After(g, run);
            && (forall o, x ::
                  IsBlack(g'.m, o) && o in g'.m.objs && o !in g'.tmudata && Refers(g'.m.objs, o, x) ==>
                    !IsWhite(g'.m, x))
            && (forall o ::
                  Count(g'.m, o) == if o in g'.m.objs && IsGray(g'.m, o) && Traversed(g'.m.objs[o]) then 1 else 0)
            && (forall o :: o in g'.m.objs && (g'.m.objs[o].Thread? || IsOpen(g'.m.objs[o])) ==> !IsBlack(g'.m, o))
  {
    RunKeeps(g, run);
    ColoursIn(After(g, run));
  }

  lemma ColoursIn(g: G)
    requires Inv(g) && g.phase == Propagating
    ensures forall o, x ::
              IsBlack(g.m, o) && o in g.m.objs && o !in g.tmudata && Refers(g.m.objs, o, x) ==> !IsWhite(g.m, x)
    ensures forall o :: Count(g.m, o) == if o in g.m.objs && IsGray(g.m, o) && Traversed(g.m.objs[o]) then 1 else 0
    ensures forall o :: o in g.m.objs && (g.m.objs[o].Thread? || IsOpen(g.m.objs[o])) ==> !IsBlack(g.m, o)
  {
    forall o, x | IsBlack(g.m, o) && o in g.m.objs && o !in g.tmudata && Refers(g.m.objs, o, x)
      ensures !IsWhite(g.m, x)
    {
      assert Settled(g.m, o, 0) && Due(g.m, o, x);
    }
    forall o | o in g.m.objs && (g.m.objs[o].Thread? || IsOpen(g.m.objs[o])) ensures !IsBlack(g.m, o) {
      assert KindOk(g.m.objs[o], g.m.marks[o].colour);
    }
  }

  // ---------------------------------------------------------------- what the atomic step spares

  lemma StrongStep(m: Marking, objs: Heap, o: Id, x: Id)
    requires StrongClosed(m) && AllExist(m) && Tidied(objs, m.objs) && o in m.objs && !IsWhite(m, o)
             && StronglyRefers(objs, m.names, o, x)
    ensures x in m.objs && !IsWhite(m, x)
  {
    TidyRefers(objs, m.objs, m.names, o);
    hide StrongFields, Tidied;
    assert StronglyRefers(m.objs, m.names, o, x);
    StrongIsLess(m.objs, m.names, o, x);
  }

  lemma {:induction false} StrongPathMarked(m: Marking, objs: Heap, p: seq<Id>)
    requires StrongClosed(m) && Tidied(objs, m.objs) && StrongPath(objs, m.names, p) && p[0] in m.objs
             && !IsWhite(m, p[0])
    requires AllExist(m)
    ensures p[|p| - 1] in m.objs && !IsWhite(m, p[|p| - 1])
    decreases |p|
  {
    hide StrongClosed, Tidied, AllExist, StronglyRefers;
    if |p| > 1 {
      var q, o := p[..|p| - 1], p[|p| - 2];
      assert StronglyRefers(objs, m.names, o, p[|p| - 1]);
      assert StrongPath(objs, m.names, q);
      hide StrongPath;
      StrongPathMarked(m, objs, q);
      StrongStep(m, objs, o, p[|p| - 1]);
    }
  }

  lemma StrongIsPreserved(g: G, x: Id)
    requires Inv(g) && g.phase == Propagating && StronglyReachable(g, x)
    ensures x in g.m.objs && !IsWhite(Preserved(g), x)
  {
    var p :| StrongPath(g.m.objs, g.m.names, p) && Ref(p[0]) in RootVals(g) && p[|p| - 1] == x;
    var m := Preserved(g);
    PreservedIs(g);
    RootsPreserved(g, p[0]);
    DoneIsClosed(m);
    AdvancedTidied(g.m, m);
    assert m.names == g.m.names && m.objs.Keys == g.m.objs.Keys;
    hide Preserved, Inv, MarkInv, Reshaped, Advanced, Tidied;
    StrongPathMarked(m, g.m.objs, p);
  }

  /** What is strongly reachable when the mark phase ends stays alive. */
  lemma AtomicSpares(g: G, x: Id)
    requires Inv(g) && g.phase == Propagating && StronglyReachable(g, x)
    ensures Alive(Atomic(g).m, x)
  {
    StrongIsPreserved(g, x);
    UnflippedIs(g);
    MarkPhase(g);
    hide Inv, Preserved, Unflipped, Atomic, OnlyStrings, Reshaped, OneWhite, StronglyReachable;
    AtomicIs(g);
    StillMarked(Preserved(g), Unflipped(g), x);
    ReshapedKeys(g.m, Unflipped(g));
    FlipAlive(Unflipped(g), x);
  }
}
