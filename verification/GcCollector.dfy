/** The steps of the collector (lua/lgc.c:124-164, 301-480, 493-608, 636-659) on the whole state: roots, the
    lists that own the objects, and the position of the sweep. */
module GcCollector {
  import opened GcHeap
  import opened GcMark

  datatype Phase = Pause | Propagating | SweepString | Sweep | Finalize

  /** `rootgc` ends with the main thread; userdata follow it in the same list. `swept` counts the elements
      of that list before the sweep position, `sweepstr` the string lists before it. `strt` is the string
      table, `uvhead` the list of open upvalues, `cur` the running thread, `mts` the metatables of basic
      types. `hash` is any function. */
  datatype G = G(m: Marking, phase: Phase, rootgc: seq<Id>, udata: seq<Id>, swept: nat,
                 strt: seq<seq<Id>>, sweepstr: nat, nuse: int, hash: string -> nat,
                 tmudata: seq<Id>, uvhead: seq<Id>,
                 main: Id, cur: Id, registry: Val, mts: seq<Val>)

  const GCSWEEPMAX := 40
  const MINSTRTABSIZE := 32

  // ---------------------------------------------------------------- the mark phase

  function PropagateAll(m: Marking): Marking
    decreases |Whites(m)| + |m.gray|
  {
    if m.gray == [] then m
    else
      PropagateShrinks(m);
      PropagateAll(Propagate(m))
  }

  function GlobalsOf(m: Marking, th: Id): Val { if th in m.objs && m.objs[th].Thread? then m.objs[th].gt else Nil }

  /** `markroot`. */
  function MarkRoot(g: G): G {
    var m := g.m.(gray := [], grayagain := [], weak := []);
    g.(m := MarkAll(m, [Ref(g.main), GlobalsOf(m, g.main), g.registry] + g.mts), phase := Propagating)
  }

  /** `remarkupvals`: the slots of open upvalues that have been marked, even those of dead threads. */
  function Remark(m: Marking, uvs: seq<Id>): Marking
    decreases |uvs|
  {
    if uvs == [] then m
    else
      var u := uvs[0];
      Remark(if IsGray(m, u) && u in m.objs
        && m.objs[u].Upval? then MarkAll(m, [HomeVal(m.objs, m.objs[u].home)]) else m, uvs[1..])
  }

  /** A userdata that is garbage and has a finalizer that has not been called. */
  predicate ToFinalize(m: Marking, u: Id) {
    IsWhite(m, u) && !m.marks[u].finalized && HasFinalizer(m.objs, m.names, u)
  }

  function SetFinalized(m: Marking, u: Id): Marking {
    if IsWhite(m, u) then m.(marks := m.marks[u := m.marks[u].(finalized := true)]) else m
  }

  datatype Separated = Separated(m: Marking, kept: seq<Id>, moved: seq<Id>)

  /** `luaC_separateudata` with `all == 0`. */
  function Separate(m: Marking, us: seq<Id>): Separated
    decreases |us|
  {
    if us == [] then Separated(m, [], [])
    else
      var r := Separate(SetFinalized(m, us[0]), us[1..]);
      if ToFinalize(m, us[0]) then r.(moved := [us[0]] + r.moved) else r.(kept := [us[0]] + r.kept)
  }

  function Ids(l: seq<Id>): set<Id> { set id | id in l }

  /** `marktmu`. */
  function MarkTmu(m: Marking, us: seq<Id>): Marking
    decreases |us|
  {
    if us == [] then m
    else MarkTmu(MarkAll(SetColour(m, us[0], White(m.cw)), [Ref(us[0])]), us[1..])
  }

  /** `iscleared`, apart from its effect on strings. */
  predicate Cleared(m: Marking, v: Val, isKey: bool) {
    && v.Ref? && v.id in m.objs && v.id in m.marks && !m.objs[v.id].Str?
    && (IsWhite(m, v.id) || (m.objs[v.id].Udata? && !isKey && m.marks[v.id].finalized))
  }

  function ClearVal(m: Marking, v: Val): Val { if Cleared(m, v, false) then Nil else v }

  function ClearNode(m: Marking, n: Node): Node {
    if n.val != Nil && (Cleared(m, KeyVal(n.key), true) || Cleared(m, n.val, false)) then CleanNode(n.(val := Nil))
      else n
  }

  function ClearArray(m: Marking, arr: seq<Val>): (r: seq<Val>)
    ensures |r| == |arr| && forall i :: 0 <= i < |arr| ==> r[i] == ClearVal(m, arr[i])
  {
    seq(|arr|, i requires 0 <= i < |arr| => ClearVal(m, arr[i]))
  }

  function ClearNodes(m: Marking, nodes: seq<Node>): (r: seq<Node>)
    ensures |r| == |nodes| && forall i :: 0 <= i < |nodes| ==> r[i] == ClearNode(m, nodes[i])
  {
    seq(|nodes|, i requires 0 <= i < |nodes| => ClearNode(m, nodes[i]))
  }

  /** What `cleartable` passes to `iscleared`: the value of an entry only if its key stays. */
  function NodeVisits(m: Marking, nodes: seq<Node>): seq<Val> {
    if nodes == [] then []
    else
      var n := nodes[|nodes| - 1];
      (if n.val == Nil then [] else [KeyVal(n.key)] + if Cleared(m, KeyVal(n.key), true) then [] else [n.val])
      + NodeVisits(m, nodes[..|nodes| - 1])
  }

  function Visits(m: Marking, t: Obj, weakVal: bool): seq<Val>
    requires t.Table?
  {
    (if weakVal then Backward(t.arr) else []) + NodeVisits(m, t.nodes)
  }

  /** `stringmark` for the strings among the values. */
  function MarkStrings(m: Marking, vs: seq<Val>): Marking
    decreases |vs|
  {
    if vs == [] then m
    else MarkStrings(if Markable(m, vs[0]) && m.objs[vs[0].id].Str? then SetColour(m, vs[0].id, Gray) else m, vs[1..])
  }

  function ClearedTable(m: Marking, t: Obj, weakVal: bool): Obj
    requires t.Table?
  {
    t.(arr := if weakVal then ClearArray(m, t.arr) else t.arr, nodes := ClearNodes(m, t.nodes))
  }

  /** `cleartable` for one table. */
  function ClearTable(m: Marking, h: Id): Marking {
    if h in m.objs && m.objs[h].Table? && h in m.marks then
      var wv := m.marks[h].weakVal;
      MarkStrings(m, Visits(m, m.objs[h], wv)).(objs := m.objs[h := ClearedTable(m, m.objs[h], wv)])
    else m
  }

  function ClearTables(m: Marking, hs: seq<Id>): Marking
    decreases |hs|
  {
    if hs == [] then m else ClearTables(ClearTable(m, hs[0]), hs[1..])
  }

  /** The mark phase at the end of `atomic`, before userdata are separated. */
  function Finish(g: G): Marking {
    var m1 := PropagateAll(Remark(g.m, g.uvhead));
    var m2 := PropagateAll(MarkAll(m1.(gray := m1.weak, weak := []), [Ref(g.cur)] + g.mts));
    PropagateAll(m2.(gray := m2.grayagain, grayagain := []))
  }

  function Flip(m: Marking): Marking { m.(cw := !m.cw) }

  function Atomic(g: G): G {
    var s := Separate(Finish(g), g.udata);
    var tm := g.tmudata + s.moved;
    var m := PropagateAll(MarkTmu(s.m, tm));
    g.(m := Flip(ClearTables(m, m.weak)), udata := s.kept, tmudata := tm,
       sweepstr := 0, swept := 0, phase := SweepString)
  }

  // ---------------------------------------------------------------- the sweep

  /** `isdead`, for objects that are not fixed. */
  predicate IsDead(m: Marking, id: Id) { id in m.marks && m.marks[id].colour == White(!m.cw) && !m.marks[id].fixed }

  function Delete(m: Marking, id: Id): Marking { m.(objs := m.objs - {id}, marks := m.marks - {id}) }

  function SweepMark(m: Marking, id: Id): Marking {
    if IsDead(m, id) then Delete(m, id) else SetColour(m, id, White(m.cw))
  }

  /** `sweeplist` on strings or open upvalues. */
  function SweepObjs(m: Marking, ids: seq<Id>): Marking
    decreases |ids|
  {
    if ids == [] then m else SweepObjs(SweepMark(m, ids[0]), ids[1..])
  }

  function Survivors(m: Marking, ids: seq<Id>): seq<Id> {
    if ids == [] then [] else (if IsDead(m, ids[0]) then [] else [ids[0]]) + Survivors(m, ids[1..])
  }

  function SweepStringStep(g: G): G {
    var g1 := if g.sweepstr < |g.strt| then
        var l := g.strt[g.sweepstr];
        var kept := Survivors(g.m, l);
        g.(m := SweepObjs(g.m, l), strt := g.strt[g.sweepstr := kept], nuse := g.nuse - (|l| - |kept|),
          sweepstr := g.sweepstr + 1)
      else g;
    if g1.sweepstr >= |g1.strt| then g1.(phase := Sweep) else g1
  }

  /** `luaC_link` puts an object in front of the root list. */
  function Link(g: G, id: Id): G {
    g.(rootgc := [id] + g.rootgc, swept := if g.swept == 0 then 0 else g.swept + 1)
  }

  function Without(l: seq<Id>, id: Id): seq<Id> {
    if l == [] then [] else if l[0] == id then l[1..] else [l[0]] + Without(l[1..], id)
  }

  function WithoutAll(l: seq<Id>, ids: seq<Id>): seq<Id>
    decreases |ids|
  {
    if ids == [] then l else WithoutAll(Without(l, ids[0]), ids[1..])
  }

  function SetObj(m: Marking, id: Id, o: Obj): Marking { m.(objs := m.objs[id := o]) }

  function OpenList(m: Marking, th: Id): seq<Id> { if th in m.objs && m.objs[th].Thread? then m.objs[th].open else [] }

  function SetOpen(m: Marking, th: Id, l: seq<Id>): Marking {
    if th in m.objs && m.objs[th].Thread? then SetObj(m, th, m.objs[th].(open := l)) else m
  }

  /** The forward barrier, as the macros use it. */
  function Barrier(g: G, o: Id, v: Val): G {
    if !(IsBlack(g.m, o) && Markable(g.m, v)) then g
    else if g.phase == Propagating then g.(m := MarkAll(g.m, [v]))
    else g.(m := SetColour(g.m, o, White(g.m.cw)))
  }

  /** `luaC_linkupval`. */
  function LinkUpval(g: G, uv: Id, v: Val): G {
    var g1 := Link(g, uv);
    if !IsGray(g1.m, uv) then g1
    else if g1.phase == Propagating then Barrier(g1.(m := SetColour(g1.m, uv, Black)), uv, v)
    else g1.(m := SetColour(g1.m, uv, White(g1.m.cw)))
  }

  function UpvalVal(m: Marking, uv: Id): Val {
    if uv in m.objs && m.objs[uv].Upval? then HomeVal(m.objs, m.objs[uv].home) else Nil
  }

  /** `luaF_close` for the first open upvalue of a thread. */
  function CloseFirst(g: G, th: Id): G
    requires OpenList(g.m, th) != []
  {
    var uv := OpenList(g.m, th)[0];
    var g1 := g.(m := SetOpen(g.m, th, OpenList(g.m, th)[1..]), uvhead := Without(g.uvhead, uv));
    if IsDead(g1.m, uv) || uv !in g1.m.objs || !g1.m.objs[uv].Upval? then g1.(m := Delete(g1.m, uv))
    else
      var v := UpvalVal(g.m, uv);
      LinkUpval(g1.(m := SetObj(g1.m, uv, Upval(Closed(v)))), uv, v)
  }

  predicate AtOrAbove(m: Marking, uv: Id, level: nat) {
    uv in m.objs && m.objs[uv].Upval? && m.objs[uv].home.Open? && m.objs[uv].home.level >= level
  }

  /** `luaF_close`. `n` bounds the number of upvalues. */
  function Close(g: G, th: Id, level: nat, n: nat): G
    decreases n
  {
    var l := OpenList(g.m, th);
    if n == 0 || l == [] || !AtOrAbove(g.m, l[0], level) then g
    else Close(CloseFirst(g, th), th, level, n - 1)
  }

  function CloseUpvals(g: G, th: Id, level: nat): G { Close(g, th, level, |OpenList(g.m, th)|) }

  function RootList(g: G): seq<Id> { g.rootgc + g.udata }

  /** Removes the element at the sweep position from the list it is in. */
  function Unlink(g: G): G
    requires g.swept < |RootList(g)|
  {
    if g.swept < |g.rootgc| then g.(rootgc := g.rootgc[..g.swept] + g.rootgc[g.swept + 1..])
    else var k := g.swept - |g.rootgc|; g.(udata := g.udata[..k] + g.udata[k + 1..])
  }

  /** A thread's open upvalues are swept with it. */
  function SweepOpen(g: G, th: Id): G {
    var l := OpenList(g.m, th);
    var kept := Survivors(g.m, l);
    g.(m := SetOpen(SweepObjs(g.m, l), th, kept), uvhead := WithoutAll(g.uvhead, DeadOnes(g.m, l)))
  }

  function DeadOnes(m: Marking, ids: seq<Id>): seq<Id> {
    if ids == [] then [] else (if IsDead(m, ids[0]) then [ids[0]] else []) + DeadOnes(m, ids[1..])
  }

  /** `freeobj`; a thread closes its upvalues before it goes. */
  function Free(g: G, id: Id): G {
    var g1 := CloseUpvals(g, id, 0);
    g1.(m := Delete(g1.m, id))
  }

  /** One round of `sweeplist` on the root list. */
  function SweepElem(g: G): G
    requires g.swept < |RootList(g)|
  {
    KeepOrFree(SweepOpen(g, RootList(g)[g.swept]))
  }

  function KeepOrFree(g: G): G
    requires g.swept < |RootList(g)|
  {
    var id := RootList(g)[g.swept];
    if IsDead(g.m, id) then Free(Unlink(g), id)
    else g.(m := SetColour(g.m, id, White(g.m.cw)), swept := g.swept + 1)
  }

  function SweepElems(g: G, count: nat): G
    decreases count
  {
    if count == 0 || g.swept >= |RootList(g)| then g else SweepElems(SweepElem(g), count - 1)
  }

  // ---------------------------------------------------------------- the string table

  function TextOf(m: Marking, id: Id): string { if id in m.objs && m.objs[id].Str? then m.objs[id].text else "" }

  function Bucket(g: G, text: string, size: nat): nat
    requires size > 0
    ensures Bucket(g, text, size) < size
  {
    g.hash(text) % size
  }

  /** Chains the strings of a list into a table, one after the other. */
  function Rehash(g: G, l: seq<Id>, t: seq<seq<Id>>): (r: seq<seq<Id>>)
    ensures |r| == |t|
  {
    if l == [] || |t| == 0 then t
    else var b := Bucket(g, TextOf(g.m, l[0]), |t|); Rehash(g, l[1..], t[b := [l[0]] + t[b]])
  }

  function RehashAll(g: G, ls: seq<seq<Id>>, t: seq<seq<Id>>): (r: seq<seq<Id>>)
    ensures |r| == |t|
  {
    if ls == [] then t else RehashAll(g, ls[1..], Rehash(g, ls[0], t))
  }

  /** `luaS_resize`, which does nothing while strings are being swept. */
  function Resize(g: G, size: nat): G {
    if g.phase == SweepString then g else g.(strt := RehashAll(g, g.strt, seq(size, _ => [])))
  }

  /** `checkSizes`. */
  function CheckSizes(g: G): G {
    if g.nuse < |g.strt| / 4 && |g.strt| > MINSTRTABSIZE * 2 then Resize(g, |g.strt| / 2) else g
  }

  function SweepStep(g: G): G {
    var g1 := SweepElems(g, GCSWEEPMAX);
    if g1.swept >= |RootList(g1)| then CheckSizes(g1).(phase := Finalize) else g1
  }

  /** `GCTM` without the call of the finalizer: the userdata returns to its list, and the
      finalizer and the userdata go on the stack. */
  function Gctm(g: G): G
    requires g.tmudata != []
  {
    var u := g.tmudata[0];
    var g1 := g.(tmudata := g.tmudata[1..], udata := [u] + g.udata, m := SetColour(g.m, u, White(g.m.cw)));
    var tm := if u in g.m.objs && g.m.objs[u].Udata? then MetaField(g.m.objs, g.m.objs[u].mt, g.m.names.gc) else Nil;
    if tm == Nil then g1 else g1.(m := Push(g1.m, g.cur, [tm, Ref(u)]))
  }

  function Push(m: Marking, th: Id, vs: seq<Val>): Marking {
    if th in m.objs && m.objs[th].Thread? then SetObj(m, th, m.objs[th].(stack := m.objs[th].stack + vs)) else m
  }

  // ---------------------------------------------------------------- single steps

  function SingleStep(g: G): G {
    match g.phase
    case Pause => MarkRoot(g)
    case Propagating => if g.m.gray != [] then g.(m := Propagate(g.m)) else Atomic(g)
    case SweepString => SweepStringStep(g)
    case Sweep => SweepStep(g)
    case Finalize => if g.tmudata != [] then Gctm(g) else g.(phase := Pause)
  }

  /** The sweep is made to start over, without a flip of the white. */
  function Reset(g: G): G {
    g.(sweepstr := 0, swept := 0, m := g.m.(gray := [], grayagain := [], weak := []), phase := SweepString)
  }

  /** The beginning of `luaC_fullgc`: a cycle that is still marking is given up. */
  function Restarted(g: G): G { if g.phase == Pause || g.phase == Propagating then Reset(g) else g }
}
