/** Traversal by `next` (lua/ltable.c:137-179), with assignments to existing fields and dying keys in between. */
module TableNext {
  import opened TableNodes
  import opened TableValues
  import opened TableCounts
  import opened TablePlacing

  datatype Arg = NilKey | K(k: Key)

  datatype NextResult = Entry(k: Key, v: Val) | End | InvalidKey

  /** What a traversal sees of a table. */
  datatype Snap = Snap(arr: seq<Val>, nodes: seq<Node>)

  function Total(s: Snap): nat { |s.arr| + |s.nodes| }

  function ValAt(s: Snap, j: int): Val {
    if 0 <= j < |s.arr| then s.arr[j] else if |s.arr| <= j < Total(s) then s.nodes[j - |s.arr|].val else Nil
  }

  predicate KeyAt(s: Snap, j: int, k: Key) {
    if 0 <= j < |s.arr| then k == Int(j + 1) else IsUsed(s.nodes, j - |s.arr|) && s.nodes[j - |s.arr|].key.k == k
  }

  predicate KeyNode(nodes: seq<Node>, i: int, k: Key) { IsUsed(nodes, i) && nodes[i].key.k == k }

  /** The first node of its chain with the key, dead or not. */
  ghost predicate FirstAt(nodes: seq<Node>, co: seq<Place>, k: Key, i: int)
    requires |co| == |nodes|
  {
    KeyNode(nodes, i, k) && forall j :: KeyNode(nodes, j, k) ==> co[i].at <= co[j].at
  }

  /** `findindex` */
  ghost predicate IndexOf(s: Snap, co: seq<Place>, a: Arg, i: int)
    requires |co| == |s.nodes|
  {
    match a
    case NilKey => i == -1
    case K(k) => if InArray(|s.arr|, k) then i == k.n - 1 else FirstAt(s.nodes, co, k, i - |s.arr|)
  }

  ghost predicate NoIndex(s: Snap, a: Arg) { a.K? && !InArray(|s.arr|, a.k) && forall j :: !KeyNode(s.nodes, j, a.k) }

  ghost predicate EmptyBetween(s: Snap, i: int, j: int) { forall m :: i < m < j ==> ValAt(s, m) == Nil }

  /** What `luaH_next` gives. */
  ghost predicate NextIs(s: Snap, co: seq<Place>, a: Arg, r: NextResult)
    requires |co| == |s.nodes|
  {
    match r
    case InvalidKey => NoIndex(s, a)
    case End => exists i :: IndexOf(s, co, a, i) && EmptyBetween(s, i, Total(s))
    case Entry(k, v) => exists i, j ::
      IndexOf(s, co, a, i) && i < j && KeyAt(s, j, k) && ValAt(s, j) == v != Nil && EmptyBetween(s, i, j)
  }

  ghost predicate SnapOk(h: Hash, co: seq<Place>, s: Snap) { Shape(h, s.arr, s.nodes, co, false) }

  /** From `s` to `t` only values of existing fields have been assigned, and keys have died. */
  ghost predicate Assigned(s: Snap, t: Snap) {
    && |t.arr| == |s.arr| && |t.nodes| == |s.nodes|
    && forall i, k :: KeyNode(t.nodes, i, k) <==> KeyNode(s.nodes, i, k)
  }

  // ---------------------------------------------------------------- places of keys

  lemma FirstUnique(h: Hash, co: seq<Place>, s: Snap, k: Key, i: int, j: int)
    requires SnapOk(h, co, s) && FirstAt(s.nodes, co, k, i) && FirstAt(s.nodes, co, k, j)
    ensures i == j
  {
    assert HomeOk(h, s.nodes, co, i) && HomeOk(h, s.nodes, co, j) && PairOk(s.nodes, co, i, j);
  }

  lemma IndexUnique(h: Hash, co: seq<Place>, s: Snap, a: Arg, i: int, j: int)
    requires SnapOk(h, co, s) && IndexOf(s, co, a, i) && IndexOf(s, co, a, j)
    ensures i == j
  {
    if a.K? && !InArray(|s.arr|, a.k) { FirstUnique(h, co, s, a.k, i - |s.arr|, j - |s.arr|); }
  }

  lemma IndexStays(co: seq<Place>, s: Snap, t: Snap, a: Arg, i: int)
    requires |co| == |s.nodes| && Assigned(s, t) && IndexOf(s, co, a, i)
    ensures IndexOf(t, co, a, i)
  {
    if a.K? && !InArray(|s.arr|, a.k) {
      forall j | KeyNode(t.nodes, j, a.k) ensures co[i - |s.arr|].at <= co[j].at { assert KeyNode(s.nodes, j, a.k); }
      assert KeyNode(t.nodes, i - |s.arr|, a.k);
    }
  }

  lemma AssignedTrans(s: Snap, t: Snap, u: Snap)
    requires Assigned(s, t) && Assigned(t, u)
    ensures Assigned(s, u) && Assigned(t, s)
  {
    forall i, k
      ensures KeyNode(u.nodes, i, k) <==> KeyNode(s.nodes, i, k)
    {
      assert KeyNode(t.nodes, i, k) <==> KeyNode(s.nodes, i, k);
    }
  }

  /** An entry with a value is where its key is found, before any dead copy of the key. */
  lemma EntryIndex(h: Hash, co: seq<Place>, s: Snap, k: Key, j: int)
    requires SnapOk(h, co, s) && KeyAt(s, j, k) && ValAt(s, j) != Nil
    ensures IndexOf(s, co, K(k), j) && Value(s.arr, s.nodes, k) == ValAt(s, j)
  {
    if !(0 <= j < |s.arr|) {
      var m := j - |s.arr|;
      assert OutOfArray(s.nodes, m, |s.arr|) && DeadOk(s.nodes, m);
      FoundAt(s.nodes, k, m);
      forall i | KeyNode(s.nodes, i, k)
        ensures co[m].at <= co[i].at
      {
        assert SameKeyOk(s.nodes, m, i) && OrderOk(s.nodes, co, m, i);
      }
      assert KeyNode(s.nodes, m, k);
    }
  }

  /** A key with a value has an entry. */
  lemma EntryOf(h: Hash, co: seq<Place>, s: Snap, k: Key) returns (j: int)
    requires SnapOk(h, co, s) && Value(s.arr, s.nodes, k) != Nil
    ensures 0 <= j < Total(s) && KeyAt(s, j, k) && ValAt(s, j) != Nil
  {
    if InArray(|s.arr|, k) {
      j := k.n - 1;
    } else {
      FindKeyIs(s.nodes, k);
      var m := FindKey(s.nodes, k);
      if m == -1 { NotFound(s.nodes, k); }
      j := |s.arr| + m;
    }
  }

  // ---------------------------------------------------------------- a whole traversal

  function ArgOf(ys: seq<Key>, i: nat): Arg
    requires i <= |ys|
  {
    if i == 0 then NilKey else K(ys[i - 1])
  }

  ghost predicate Yields(s: Snap, co: seq<Place>, a: Arg, k: Key)
    requires |co| == |s.nodes|
  {
    exists v :: NextIs(s, co, a, Entry(k, v))
  }

  ghost predicate CallOk(ss: seq<Snap>, co: seq<Place>, ys: seq<Key>, i: int) {
    0 <= i < |ys| && i < |ss| ==> |co| == |ss[i].nodes| && Yields(ss[i], co, ArgOf(ys, i), ys[i])
  }

  ghost predicate StateOk(h: Hash, co: seq<Place>, ss: seq<Snap>, i: int) {
    0 <= i < |ss| ==> SnapOk(h, co, ss[i]) && Assigned(ss[0], ss[i])
  }

  /** `ys` are the keys that the calls of `next` give, one from each table of `ss`. */
  ghost predicate Traversal(h: Hash, co: seq<Place>, ss: seq<Snap>, ys: seq<Key>) {
    |ss| == |ys| + 1 && (forall i :: StateOk(h, co, ss, i)) && forall i :: CallOk(ss, co, ys, i)
  }

  /** The places passed: `j` is that of the last key. */
  ghost predicate Reached(ss: seq<Snap>, ys: seq<Key>, n: nat, j: int)
    requires n <= |ys| < |ss|
  {
    if n == 0 then j == -1 else 0 <= j && KeyAt(ss[n - 1], j, ys[n - 1]) && ValAt(ss[n - 1], j) != Nil
  }

  lemma ReachedIndex(h: Hash, co: seq<Place>, ss: seq<Snap>, ys: seq<Key>, n: nat, j: int, m: nat)
    requires Traversal(h, co, ss, ys) && n <= |ys| && Reached(ss, ys, n, j) && m < |ss|
    ensures |co| == |ss[m].nodes| && IndexOf(ss[m], co, ArgOf(ys, n), j)
    ensures j < Total(ss[0])
  {
    assert StateOk(h, co, ss, m) && StateOk(h, co, ss, n - 1);
    if n > 0 {
      EntryIndex(h, co, ss[n - 1], ys[n - 1], j);
      AssignedTrans(ss[0], ss[n - 1], ss[n - 1]);
      AssignedTrans(ss[n - 1], ss[0], ss[m]);
      IndexStays(co, ss[n - 1], ss[m], K(ys[n - 1]), j);
    }
  }

  /** Each call goes on from the place of the key before. */
  lemma Onward(h: Hash, co: seq<Place>, ss: seq<Snap>, ys: seq<Key>, n: nat, i: int) returns (j: int)
    requires Traversal(h, co, ss, ys) && n < |ys| && Reached(ss, ys, n, i)
    ensures i < j && Reached(ss, ys, n + 1, j) && EmptyBetween(ss[n], i, j)
  {
    ReachedIndex(h, co, ss, ys, n, i, n);
    assert StateOk(h, co, ss, n) && CallOk(ss, co, ys, n);
    var v :| NextIs(ss[n], co, ArgOf(ys, n), Entry(ys[n], v));
    var i', j' :| IndexOf(ss[n], co, ArgOf(ys, n), i') && i' < j' && KeyAt(ss[n], j', ys[n])
      && ValAt(ss[n], j') == v != Nil && EmptyBetween(ss[n], i', j');
    IndexUnique(h, co, ss[n], ArgOf(ys, n), i, i');
    j := j';
    if n == 0 { assert i == -1; }
  }

  /** The place of the n-th key. */
  lemma {:induction false} PlaceOf(h: Hash, co: seq<Place>, ss: seq<Snap>, ys: seq<Key>, n: nat) returns (j: int)
    requires Traversal(h, co, ss, ys) && n <= |ys|
    ensures Reached(ss, ys, n, j) && j >= n - 1
  {
    assert |ss| == |ys| + 1;
    hide Traversal;
    if n == 0 {
      j := -1;
    } else {
      var i := PlaceOf(h, co, ss, ys, n - 1);
      j := Onward(h, co, ss, ys, n - 1, i);
    }
  }

  lemma SamePlace(h: Hash, co: seq<Place>, ss: seq<Snap>, ys: seq<Key>, n: nat, i: int, j: int)
    requires Traversal(h, co, ss, ys) && n <= |ys| && Reached(ss, ys, n, i) && Reached(ss, ys, n, j)
    ensures i == j
  {
    ReachedIndex(h, co, ss, ys, n, i, 0);
    ReachedIndex(h, co, ss, ys, n, j, 0);
    assert StateOk(h, co, ss, 0);
    IndexUnique(h, co, ss[0], ArgOf(ys, n), i, j);
  }

  /** Later keys are at later places. */
  lemma {:induction false} Later(h: Hash, co: seq<Place>, ss: seq<Snap>, ys: seq<Key>, m: nat, n: nat, i: int, j: int)
    requires Traversal(h, co, ss, ys) && m < n <= |ys| && Reached(ss, ys, m, i) && Reached(ss, ys, n, j)
    ensures i < j
    decreases n - m
  {
    assert |ss| == |ys| + 1;
    hide Traversal, Reached;
    var i' := Onward(h, co, ss, ys, m, i);
    if m + 1 == n {
      SamePlace(h, co, ss, ys, n, i', j);
    } else {
      Later(h, co, ss, ys, m + 1, n, i', j);
    }
  }

  lemma OnlyOnce(h: Hash, co: seq<Place>, ss: seq<Snap>, ys: seq<Key>, m: nat, n: nat)
    requires Traversal(h, co, ss, ys) && m < n < |ys|
    ensures ys[m] != ys[n]
  {
    assert |ss| == |ys| + 1 && StateOk(h, co, ss, 0);
    var i := PlaceOf(h, co, ss, ys, m + 1);
    var j := PlaceOf(h, co, ss, ys, n + 1);
    Later(h, co, ss, ys, m + 1, n + 1, i, j);
    ReachedIndex(h, co, ss, ys, m + 1, i, 0);
    ReachedIndex(h, co, ss, ys, n + 1, j, 0);
    hide Traversal, Reached, SnapOk, IndexOf;
    if ys[m] == ys[n] { IndexUnique(h, co, ss[0], K(ys[m]), i, j); }
  }

  lemma HasValue(h: Hash, co: seq<Place>, ss: seq<Snap>, ys: seq<Key>, n: nat)
    requires Traversal(h, co, ss, ys) && n < |ys|
    ensures Value(ss[n].arr, ss[n].nodes, ys[n]) != Nil
  {
    assert StateOk(h, co, ss, n);
    var j := PlaceOf(h, co, ss, ys, n + 1);
    EntryIndex(h, co, ss[n], ys[n], j);
  }

  /** No key comes twice, so the traversal ends; and each has a value when it comes. */
  lemma NoKeyTwice(h: Hash, co: seq<Place>, ss: seq<Snap>, ys: seq<Key>)
    requires Traversal(h, co, ss, ys)
    ensures |ys| <= Total(ss[0])
    ensures forall m, n :: 0 <= m < n < |ys| ==> ys[m] != ys[n]
    ensures forall n :: 0 <= n < |ys| ==> Value(ss[n].arr, ss[n].nodes, ys[n]) != Nil
  {
    assert |ss| == |ys| + 1;
    hide Traversal, Value, Reached;
    var last := PlaceOf(h, co, ss, ys, |ys|);
    ReachedIndex(h, co, ss, ys, |ys|, last, 0);
    forall m, n | 0 <= m < n < |ys| ensures ys[m] != ys[n] { OnlyOnce(h, co, ss, ys, m, n); }
    forall n | 0 <= n < |ys| ensures Value(ss[n].arr, ss[n].nodes, ys[n]) != Nil { HasValue(h, co, ss, ys, n); }
  }

  ghost predicate LiveThroughout(ss: seq<Snap>, k: Key) {
    forall i :: 0 <= i < |ss| ==> Value(ss[i].arr, ss[i].nodes, k) != Nil
  }

  /** The place of a key that keeps a value is one and the same. */
  lemma SteadyPlace(h: Hash, co: seq<Place>, ss: seq<Snap>, ys: seq<Key>, k: Key, p: int, m: nat)
    requires Traversal(h, co, ss, ys) && LiveThroughout(ss, k) && m < |ss| && |co| == |ss[0].nodes|
             && IndexOf(ss[0], co, K(k), p)
    ensures KeyAt(ss[m], p, k) && ValAt(ss[m], p) != Nil && 0 <= p < Total(ss[0])
  {
    assert StateOk(h, co, ss, m);
    var q := EntryOf(h, co, ss[m], k);
    EntryIndex(h, co, ss[m], k, q);
    IndexStays(co, ss[0], ss[m], K(k), p);
    IndexUnique(h, co, ss[m], K(k), p, q);
  }

  lemma OneFurther(h: Hash, co: seq<Place>, ss: seq<Snap>, ys: seq<Key>, k: Key, p: int, n: nat, i: int, j: int)
    requires Traversal(h, co, ss, ys) && LiveThroughout(ss, k) && n < |ys| && |co| == |ss[0].nodes|
             && IndexOf(ss[0], co, K(k), p)
    requires Reached(ss, ys, n, i) && Reached(ss, ys, n + 1, j) && i < p
    ensures ys[n] == k || j < p
  {
    assert |ss| == |ys| + 1;
    var j' := Onward(h, co, ss, ys, n, i);
    SamePlace(h, co, ss, ys, n + 1, j, j');
    SteadyPlace(h, co, ss, ys, k, p, n);
    hide Traversal, LiveThroughout, IndexOf;
  }

  /** A key that keeps a value has come, or its place is still ahead. */
  lemma {:induction false} ComeOrAhead(h: Hash, co: seq<Place>, ss: seq<Snap>, ys: seq<Key>, k: Key, p: int, n: nat,
                                       j: int)
    requires Traversal(h, co, ss, ys) && LiveThroughout(ss, k) && n <= |ys| && |co| == |ss[0].nodes|
             && IndexOf(ss[0], co, K(k), p) && Reached(ss, ys, n, j)
    ensures k in ys[..n] || j < p
    decreases n
  {
    SteadyPlace(h, co, ss, ys, k, p, 0);
    assert |ss| == |ys| + 1;
    assert n == 0 ==> j == -1;
    hide Traversal, LiveThroughout, IndexOf, Reached;
    if n > 0 {
      var i := PlaceOf(h, co, ss, ys, n - 1);
      ComeOrAhead(h, co, ss, ys, k, p, n - 1, i);
      assert ys[..n] == ys[..n - 1] + [ys[n - 1]];
      if k !in ys[..n - 1] { OneFurther(h, co, ss, ys, k, p, n - 1, i, j); }
    }
  }

  /** When the traversal has ended, every key that had a value throughout has come. A traversal never fails. */
  lemma AllKeysCome(h: Hash, co: seq<Place>, ss: seq<Snap>, ys: seq<Key>)
    requires Traversal(h, co, ss, ys)
    ensures |co| == |ss[|ys|].nodes|
    ensures NextIs(ss[|ys|], co, ArgOf(ys, |ys|), End) ==> forall k :: LiveThroughout(ss, k) ==> k in ys
    ensures !NextIs(ss[|ys|], co, ArgOf(ys, |ys|), InvalidKey)
  {
    var n := |ys|;
    assert StateOk(h, co, ss, 0) && StateOk(h, co, ss, n);
    var j := PlaceOf(h, co, ss, ys, n);
    ReachedIndex(h, co, ss, ys, n, j, n);
    if NextIs(ss[n], co, ArgOf(ys, n), End) {
      var i :| IndexOf(ss[n], co, ArgOf(ys, n), i) && EmptyBetween(ss[n], i, Total(ss[n]));
      IndexUnique(h, co, ss[n], ArgOf(ys, n), i, j);
      forall k | LiveThroughout(ss, k) ensures k in ys {
        var p := EntryOf(h, co, ss[0], k);
        EntryIndex(h, co, ss[0], k, p);
        ComeOrAhead(h, co, ss, ys, k, p, n, j);
        SteadyPlace(h, co, ss, ys, k, p, n);
        assert ys[..n] == ys;
      }
    }
  }
}
