/** The heap of the incremental collector (lua/lgc.c, lua/lgc.h) and the operations of its mark phase.
    Objects are known by an id; contents and marks are kept apart, because marking changes only marks. */
module GcHeap {

  type Id = nat

  datatype Val = Nil | Atom(n: int) | Ref(id: Id)

  datatype Key = Live(v: Val) | Dead

  datatype Node = Node(key: Key, val: Val)

  /** Where an upvalue keeps its value: in a stack slot of a thread, or in itself. */
  datatype Home = Open(th: Id, level: nat) | Closed(v: Val)

  /** A closure of a C function has `p == Nil`. `open` is the thread's list of open upvalues; `stack` is the
      part of its stack below `top`. */
  datatype Obj =
    | Str(text: string)
    | Udata(mt: Val, env: Val)
    | Upval(home: Home)
    | Closure(env: Val, p: Val, ups: seq<Val>)
    | Table(mt: Val, arr: seq<Val>, nodes: seq<Node>)
    | Thread(gt: Val, stack: seq<Val>, open: seq<Id>)
    | Proto(source: Val, k: seq<Val>, names: seq<Val>, ps: seq<Val>, locals: seq<Val>)

  datatype Colour = White(w: bool) | Gray | Black

  datatype Mark = Mark(colour: Colour, fixed: bool, finalized: bool, weakKey: bool, weakVal: bool)

  /** The strings `__mode` and `__gc`. */
  datatype Names = Names(mode: Id, gc: Id)

  type Heap = map<Id, Obj>

  /** What the mark phase works on. `cw` is the current white. */
  datatype Marking = Marking(objs: Heap, marks: map<Id, Mark>, cw: bool,
                             gray: seq<Id>, grayagain: seq<Id>, weak: seq<Id>, names: Names)

  // ---------------------------------------------------------------- tables

  function KeyVal(k: Key): Val { if k.Live? then k.v else Nil }

  /** `luaH_getstr`: the value of the non-empty entry with this key. */
  function Lookup(nodes: seq<Node>, key: Val): Val {
    if nodes == [] then Nil
    else if nodes[0].key == Live(key) && nodes[0].val != Nil then nodes[0].val
    else Lookup(nodes[1..], key)
  }

  /** `strchr`, which sees a string up to its first zero. */
  predicate HasChar(s: string, c: char) { s != [] && s[0] != '\0' && (s[0] == c || HasChar(s[1..], c)) }

  /** The field `name` of a metatable. */
  function MetaField(objs: Heap, mt: Val, name: Id): Val {
    if mt.Ref? && mt.id in objs && objs[mt.id].Table? then Lookup(objs[mt.id].nodes, Ref(name)) else Nil
  }

  /** Whether a metatable makes keys, or values, weak. */
  predicate WeakBy(objs: Heap, names: Names, mt: Val, c: char) {
    var mode := MetaField(objs, mt, names.mode);
    mode.Ref? && mode.id in objs && objs[mode.id].Str? && HasChar(objs[mode.id].text, c)
  }

  predicate WeakKeys(objs: Heap, names: Names, id: Id) {
    id in objs && objs[id].Table? && WeakBy(objs, names, objs[id].mt, 'k')
  }

  predicate WeakValues(objs: Heap, names: Names, id: Id) {
    id in objs && objs[id].Table? && WeakBy(objs, names, objs[id].mt, 'v')
  }

  predicate HasFinalizer(objs: Heap, names: Names, id: Id) {
    id in objs && objs[id].Udata? && MetaField(objs, objs[id].mt, names.gc) != Nil
  }

  /** The array part in the order of the traversal. */
  function Backward(vs: seq<Val>): (r: seq<Val>)
    ensures forall v :: v in r <==> v in vs
  {
    if vs == [] then [] else
      assert forall v :: v in vs <==> v == vs[|vs| - 1] || v in vs[..|vs| - 1];
      [vs[|vs| - 1]] + Backward(vs[..|vs| - 1])
  }

  function EntryVals(n: Node, weakKey: bool, weakVal: bool): seq<Val> {
    if n.val == Nil then [] else (if weakKey then [] else [KeyVal(n.key)]) + (if weakVal then [] else [n.val])
  }

  /** What the entries of the hash part hold, in the order of the traversal. */
  function NodeVals(nodes: seq<Node>, weakKey: bool, weakVal: bool): seq<Val> {
    if nodes == [] then []
    else EntryVals(nodes[|nodes| - 1], weakKey, weakVal) + NodeVals(nodes[..|nodes| - 1], weakKey, weakVal)
  }

  /** `removeentry`: a collectable key of an empty entry becomes dead. */
  function CleanNode(n: Node): Node {
    if n.val == Nil && n.key.Live? && n.key.v.Ref? then n.(key := Dead) else n
  }

  function CleanNodes(nodes: seq<Node>): (r: seq<Node>)
    ensures |r| == |nodes| && forall i :: 0 <= i < |nodes| ==> r[i] == CleanNode(nodes[i])
  {
    seq(|nodes|, i requires 0 <= i < |nodes| => CleanNode(nodes[i]))
  }

  function KeyVals(nodes: seq<Node>): (r: seq<Val>)
    ensures |r| == |nodes| && forall i :: 0 <= i < |nodes| ==> r[i] == KeyVal(nodes[i].key)
  {
    seq(|nodes|, i requires 0 <= i < |nodes| => KeyVal(nodes[i].key))
  }

  // ---------------------------------------------------------------- references

  /** The value of an upvalue. */
  function HomeVal(objs: Heap, h: Home): Val {
    match h
    case Closed(v) => v
    case Open(th, level) =>
      if th in objs && objs[th].Thread? && level < |objs[th].stack| then objs[th].stack[level] else Nil
  }

  /** The values in an object, without the keys or values of a table that are weak, in the order in which
      they are marked. */
  function Fields(objs: Heap, o: Obj, weakKey: bool, weakVal: bool): seq<Val> {
    match o
    case Str(_) => []
    case Udata(mt, env) => [mt, env]
    case Upval(h) => [HomeVal(objs, h)]
    case Closure(env, p, ups) => [env, p] + ups
    case Table(mt, arr, nodes) =>
      [mt] + (if weakVal then [] else Backward(arr))
        + (if weakKey && weakVal then [] else NodeVals(nodes, weakKey, weakVal))
    case Thread(gt, stack, _) => [gt] + stack
    case Proto(source, k, names, ps, locals) => [source] + k + names + ps + locals
  }

  function FieldsAt(objs: Heap, id: Id): seq<Val> { if id in objs then Fields(objs, objs[id], false, false) else [] }

  function StrongFields(objs: Heap, names: Names, id: Id): seq<Val> {
    if id in objs then Fields(objs, objs[id], WeakKeys(objs, names, id), WeakValues(objs, names, id)) else []
  }

  /** `o` refers to `x`, weakly or strongly. */
  predicate Refers(objs: Heap, o: Id, x: Id) { Ref(x) in FieldsAt(objs, o) }

  predicate StronglyRefers(objs: Heap, names: Names, o: Id, x: Id) { Ref(x) in StrongFields(objs, names, o) }

  /** `o` refers to `x`, or `x` is the key of an empty entry that has not been removed. */
  predicate Holds(objs: Heap, o: Id, x: Id) {
    Refers(objs, o, x) || (o in objs && objs[o].Table? && Ref(x) in KeyVals(objs[o].nodes))
  }

  // ---------------------------------------------------------------- marking

  predicate IsWhite(m: Marking, id: Id) { id in m.marks && m.marks[id].colour.White? }

  predicate IsGray(m: Marking, id: Id) { id in m.marks && m.marks[id].colour.Gray? }

  predicate IsBlack(m: Marking, id: Id) { id in m.marks && m.marks[id].colour.Black? }

  function Whites(m: Marking): set<Id> { set id | id in m.marks && m.marks[id].colour.White? }

  function SetColour(m: Marking, id: Id, c: Colour): Marking {
    if id in m.marks then m.(marks := m.marks[id := m.marks[id].(colour := c)]) else m
  }

  /** Objects that are traversed later, from a gray list. */
  predicate Traversed(o: Obj) { o.Closure? || o.Table? || o.Thread? || o.Proto? }

  /** The colour of an object once `reallymarkobject` is done with it. */
  function MarkedColour(o: Obj): Colour {
    if o.Udata? || (o.Upval? && o.home.Closed?) then Black else Gray
  }

  /** What `reallymarkobject` marks at once. */
  function Inner(objs: Heap, o: Obj): seq<Val> { if o.Udata? || o.Upval? then Fields(objs, o, false, false) else [] }

  function MarkOne(m: Marking, id: Id): (r: Marking)
    requires id in m.objs && IsWhite(m, id)
    ensures Whites(r) == Whites(m) - {id}
    ensures r.marks.Keys == m.marks.Keys
  {
    var m1 := SetColour(m, id, MarkedColour(m.objs[id]));
    if Traversed(m.objs[id]) then m1.(gray := [id] + m1.gray) else m1
  }

  predicate Markable(m: Marking, v: Val) { v.Ref? && v.id in m.objs && IsWhite(m, v.id) }

  /** `markvalue` for each of the values. */
  function MarkAll(m: Marking, vs: seq<Val>): Marking
    decreases |Whites(m)|, |vs|
  {
    if vs == [] then m
    else if Markable(m, vs[0]) then
      MarkAll(MarkOne(m, vs[0].id), Inner(m.objs, m.objs[vs[0].id]) + vs[1..])
    else MarkAll(m, vs[1..])
  }

  function Cleaned(m: Marking, o: Id): Marking {
    if o in m.objs && m.objs[o].Table?
    then m.(objs := m.objs[o := m.objs[o].(nodes := CleanNodes(m.objs[o].nodes))])
    else m
  }

  function SetWeak(m: Marking, o: Id, weakKey: bool, weakVal: bool): Marking {
    if o in m.marks then m.(marks := m.marks[o := m.marks[o].(weakKey := weakKey, weakVal := weakVal)]) else m
  }

  /** What becomes of an object that is being traversed. */
  datatype Way = Darken | KeepWeak(weakKey: bool, weakVal: bool) | TraverseAgain

  function WayOf(m: Marking, o: Id): Way {
    var wk, wv := WeakKeys(m.objs, m.names, o), WeakValues(m.objs, m.names, o);
    if wk || wv then KeepWeak(wk, wv)
    else if o in m.objs && m.objs[o].Thread? then TraverseAgain
    else Darken
  }

  function Placed(m: Marking, o: Id, way: Way): Marking {
    match way
    case Darken => SetColour(m, o, Black)
    case KeepWeak(wk, wv) => SetWeak(m, o, wk, wv).(weak := [o] + m.weak)
    case TraverseAgain => m.(grayagain := [o] + m.grayagain)
  }

  /** `propagatemark` up to the marking of what the object holds. The entries of a table with weak keys and
      weak values are not visited. */
  function Opened(m: Marking, o: Id): Marking {
    var way := WayOf(m, o);
    Placed(if way == KeepWeak(true, true) then m else Cleaned(m, o), o, way)
  }

  /** `propagatemark`: traverses the first gray object. */
  function Propagate(m: Marking): Marking
    requires m.gray != []
  {
    var o := m.gray[0];
    MarkAll(Opened(m.(gray := m.gray[1..]), o), StrongFields(m.objs, m.names, o))
  }
}
