/** The table (lua/ltable.c): an array part and a hash part. The methods follow the functions of the source; a
    result that the source returns as a pointer is here a cell, which `Store` writes through. */
module Table {
  import opened Wrappers
  import opened TableNodes
  import opened TableSizes
  import opened TableValues
  import opened TableCounts
  import opened TablePlacing
  import opened TableRehash
  import opened TableNext
  import opened TableEntries

  datatype Cell = InArr(i: nat) | InNode(n: nat) | NoCell

  datatype Error = IndexIsNil | TableOverflow

  datatype SetResult = At(cell: Cell) | Failed(e: Error)

  /** The cell of the key, if it has one. */
  ghost predicate CellOk(n: nat, nodes: seq<Node>, c: Cell, k: Key) {
    match c
    case InArr(i) => InArray(n, k) && i == k.n - 1
    case InNode(i) => !InArray(n, k) && HoldsKey(nodes, i, k)
    case NoCell => !InArray(n, k) && Absent(nodes, k)
  }

  /** `n` is on the way to `j`. */
  ghost predicate Ahead(nodes: seq<Node>, co: seq<Place>, n: int, j: int) {
    |co| == |nodes| && IsUsed(nodes, n) && IsUsed(nodes, j) && co[n].chain == co[j].chain && co[n].at <= co[j].at
  }

  lemma StepOn(h: Hash, nodes: seq<Node>, co: seq<Place>, n: nat, k: Key)
    requires NodesOk(h, nodes, co) && n < |nodes| && nodes[n].key != Used(k, false) && nodes[n].next != NONE
    requires forall j :: HoldsKey(nodes, j, k) ==> Ahead(nodes, co, n, j)
    ensures IsUsed(nodes, nodes[n].next) && co[n].at < co[nodes[n].next].at <= Depth(co)
    ensures forall j :: HoldsKey(nodes, j, k) ==> Ahead(nodes, co, nodes[n].next, j)
  {
    assert FreeOk(nodes, n) && LinkOk(nodes, co, n);
    DepthBounds(co, nodes[n].next);
    forall j | HoldsKey(nodes, j, k) ensures Ahead(nodes, co, nodes[n].next, j) { WalkOn(nodes, co, n, j); }
  }

  lemma StoredAll(h: Hash, arr: seq<Val>, nodes: seq<Node>, co: seq<Place>, dummy: bool, f: int, n: nat, v: Val, k: Key)
    requires Shape(h, arr, nodes, co, dummy) && TakenFrom(nodes, dummy, f) && HoldsKey(nodes, n, k)
             && !InArray(|arr|, k)
    ensures var nodes' := nodes[n := nodes[n].(val := v)];
            Shape(h, arr, nodes', co, dummy) && TakenFrom(nodes', dummy, f) && FreeCount(nodes') == FreeCount(nodes)
    ensures var nodes' := nodes[n := nodes[n].(val := v)];
            Value(arr, nodes', k) == v && forall q :: q != k ==> Value(arr, nodes', q) == Value(arr, nodes, q)
  {
    var nodes' := nodes[n := nodes[n].(val := v)];
    StoredOk(h, nodes, co, n, v, k);
    forall i ensures OutOfArray(nodes', i, |arr|) { assert OutOfArray(nodes, i, |arr|); }
    assert TakenFrom(nodes', dummy, f) by {
      forall i | f <= i < |nodes| && 0 <= i && IsUsed(nodes, i) ensures IsUsed(nodes', i) { }
    }
    FreeAfter(nodes, n, nodes[n].(val := v));
    forall q ensures NodeVal(nodes', q) == if q == k then v else NodeVal(nodes, q) { StoredValues(nodes, n, v, k, q); }
  }

  lemma Colliding(nodes: seq<Node>, mp: nat)
    requires KeysOk(nodes) && mp < |nodes| && nodes[mp].val != Nil && FreeOk(nodes, mp)
    ensures IsUsed(nodes, mp) && !nodes[mp].key.dead
  {
    assert DeadOk(nodes, mp);
  }

  /** What `newkey` has brought about once the key is placed; `n` is the node taken, or one that was taken before. */
  lemma PlacedAll(h: Hash, arr: seq<Val>, nodes: seq<Node>, nodes': seq<Node>, co': seq<Place>, dummy: bool, f: int,
                  n: int, k: Key, at: nat)
    requires Placed(h, |arr|, nodes, nodes', co', k, at) && |arr| <= MAXASIZE && (dummy ==> nodes' == [EMPTY])
    requires TakenFrom(nodes, dummy, f) && (n == f || (n == f - 1 && IsUsed(nodes', n)))
    requires !InArray(|arr|, k)
    ensures Shape(h, arr, nodes', co', dummy) && TakenFrom(nodes', dummy, n) && CellOk(|arr|, nodes', InNode(at), k)
    ensures FreeCount(nodes') >= FreeCount(nodes) - 1
    ensures forall q :: Value(arr, nodes', q) == Value(arr, nodes, q)
  {
    forall i | n <= i < |nodes| && 0 <= i ensures !dummy ==> IsUsed(nodes', i) {
      if i >= f && !dummy { assert IsUsed(nodes, i); }
    }
  }

  /** All nodes are free. */
  ghost predicate NewVector(h: Hash, nodes: seq<Node>, co: seq<Place>, dummy: bool, f: int) {
    nodes == EmptyNodes(|nodes|) && NodesOk(h, nodes, co) && (dummy ==> nodes == [EMPTY]) && TakenFrom(nodes, dummy, f)
  }

  /** The hash part has the smallest power of two of nodes that is enough, or the shared dummy node if none is asked
      for. */
  ghost predicate SmallestFor(n: nat, dummy: bool, size: nat) {
    if size == 0 then dummy && n == 1
    else !dummy && n >= size && n < 2 * size && exists i :: n == Pow2(i)
  }

  lemma EnoughNodes(size: nat)
    requires size > 0
    ensures Pow2(CeilLog2(size)) >= size && (CeilLog2(size) > MAXBITS ==> size > MAXASIZE)
    ensures SmallestFor(Pow2(CeilLog2(size)), false, size)
  {
    CeilLog2Is(size);
    MaxASize(CeilLog2(size));
  }

  lemma MovedIs(nodes: seq<Node>, mp: nat, prev: nat, n: nat, k: Key)
    requires mp < |nodes| && prev < |nodes| && n < |nodes| && prev != mp && n != mp
    ensures Moved(nodes, mp, prev, n, k) ==
            nodes[prev := nodes[prev].(next := n)][n := nodes[mp]][mp := nodes[mp].(next := NONE, val := Nil)][mp :=
              NewNode(k)]
  {
  }

  /** The integer keys of the nodes. */
  ghost function NodeInts(nodes: seq<Node>): set<int> {
    if nodes == [] then {} else NodeInts(nodes[..|nodes| - 1]) + var s := nodes[|nodes| - 1].key;
      if s.Used? && s.k.Int? then {s.k.n} else {}
  }

  lemma {:induction false} FewInts(nodes: seq<Node>)
    ensures |NodeInts(nodes)| <= |nodes|
  {
    if nodes != [] { FewInts(nodes[..|nodes| - 1]); }
  }

  lemma {:induction false} IntIn(nodes: seq<Node>, i: nat, n: int)
    requires HoldsKey(nodes, i, Int(n))
    ensures n in NodeInts(nodes)
    decreases |nodes|
  {
    if i < |nodes| - 1 { IntIn(nodes[..|nodes| - 1], i, n); }
  }

  ghost function FromOne(m: nat): (r: set<int>)
    ensures forall x :: x in r <==> 1 <= x <= m
  {
    if m == 0 then {} else FromOne(m - 1) + {m}
  }

  lemma {:induction false} FromOneSize(m: nat)
    ensures |FromOne(m)| == m
  {
    if m == 0 {
      assert FromOne(0) == {};
    } else {
      FromOneSize(m - 1);
      assert FromOne(m) == FromOne(m - 1) + {m};
    }
  }

  /** A table cannot hold more consecutive indices than it has places. */
  lemma FewIndicesInUse(arr: seq<Val>, nodes: seq<Node>, m: nat)
    requires forall x :: 1 <= x <= m ==> Value(arr, nodes, Int(x)) != Nil
    ensures m <= |arr| + |nodes|
  {
    var all := FromOne(|arr|) + NodeInts(nodes);
    forall x | x in FromOne(m) ensures x in all {
      if x > |arr| {
        FindKeyIs(nodes, Int(x));
        if FindKey(nodes, Int(x)) == -1 {
          NotFound(nodes, Int(x));
        } else {
          IntIn(nodes, FindKey(nodes, Int(x)), x);
        }
      }
    }
    FewInts(nodes);
    FromOneSize(m);
    FromOneSize(|arr|);
    UnionSize(FromOne(|arr|), NodeInts(nodes));
    SubsetSize(FromOne(m), all);
  }

  lemma {:induction false} FewLeft(nodes: seq<Node>, i: nat, n: nat)
    requires i <= |nodes|
    ensures HashRest(nodes, i, n) <= i
  {
    if i > 0 { FewLeft(nodes, i - 1, n); }
  }

  lemma KilledAll(h: Hash, arr: seq<Val>, nodes: seq<Node>, co: seq<Place>, dummy: bool, f: int, n: nat)
    requires Shape(h, arr, nodes, co, dummy) && TakenFrom(nodes, dummy, f) && IsUsed(nodes, n) && nodes[n].val == Nil
    ensures var nodes' := nodes[n := nodes[n].(key := Used(nodes[n].key.k, true))];
            Shape(h, arr, nodes', co, dummy) && TakenFrom(nodes', dummy, f)
    ensures var nodes' := nodes[n := nodes[n].(key := Used(nodes[n].key.k, true))];
            forall q :: Value(arr, nodes', q) == Value(arr, nodes, q)
  {
    var nodes' := nodes[n := nodes[n].(key := Used(nodes[n].key.k, true))];
    KilledOk(h, nodes, co, n);
    forall i ensures OutOfArray(nodes', i, |arr|) { assert OutOfArray(nodes, i, |arr|); }
    assert TakenFrom(nodes', dummy, f) by {
      forall i | f <= i < |nodes| && 0 <= i && IsUsed(nodes, i) ensures IsUsed(nodes', i) { }
    }
    forall q ensures NodeVal(nodes', q) == NodeVal(nodes, q) { KilledValues(nodes, n, q); }
  }

  /** Walking on from a node without the key. */
  lemma StepOnKey(h: Hash, nodes: seq<Node>, co: seq<Place>, n: nat, k: Key)
    requires NodesOk(h, nodes, co) && n < |nodes| && !KeyNode(nodes, n, k) && nodes[n].next != NONE
    requires forall j :: KeyNode(nodes, j, k) ==> Ahead(nodes, co, n, j)
    ensures IsUsed(nodes, nodes[n].next) && co[n].at < co[nodes[n].next].at <= Depth(co)
    ensures forall j :: KeyNode(nodes, j, k) ==> Ahead(nodes, co, nodes[n].next, j)
  {
    assert FreeOk(nodes, n) && LinkOk(nodes, co, n);
    DepthBounds(co, nodes[n].next);
    forall j | KeyNode(nodes, j, k) ensures Ahead(nodes, co, nodes[n].next, j) { WalkOn(nodes, co, n, j); }
  }

  lemma ShapeStores(h: Hash, arr: seq<Val>, nodes: seq<Node>, co: seq<Place>, dummy: bool)
    requires Shape(h, arr, nodes, co, dummy)
    ensures Stored(arr, nodes)
  {
  }

  class Table {
    const h: Hash
    var arr: seq<Val>
    var nodes: seq<Node>
    var dummy: bool
    var lastfree: int
    ghost var co: seq<Place>

    /** A table without any memory yet. */
    constructor (hash: Hash)
      ensures Valid() && h == hash && arr == [] && dummy
      ensures forall q :: Lookup(q) == Nil
    {
      h, arr, nodes, dummy, lastfree, co := hash, [], [EMPTY], true, 0, NoPlaces(1);
      new;
      EmptyOk(h, 1);
      assert nodes == EmptyNodes(1);
    }

    /** The rest of `luaH_new`. */
    method Init(narray: nat, nhash: nat) returns (failed: bool)
      requires Valid() && arr == [] && dummy && narray <= MAXASIZE
      modifies this
      ensures failed ==> nhash > MAXASIZE
      ensures !failed ==> Valid() && |arr| == narray && Room() >= nhash && forall q :: Lookup(q) == Nil
    {
      arr := Resized([], narray);
      failed := SetNodeVector(nhash);
      if !failed {
        forall q ensures Lookup(q) == Nil { NotFound(nodes, q); }
      }
    }

    ghost predicate Shaped() reads this { Shape(h, arr, nodes, co, dummy) }

    ghost predicate Valid() reads this { Shaped() && TakenFrom(nodes, dummy, lastfree) }

    function Lookup(k: Key): Val reads this { Value(arr, nodes, k) }

    /** How many free nodes can be had; there are none in the shared dummy node. */
    ghost function Room(): nat reads this { if dummy then 0 else FreeCount(nodes) }

    ghost function Size(): nat reads this { Entries(arr, nodes) }

    function Seen(): Snap reads this { Snap(arr, nodes) }

    ghost predicate Has(k: Key) reads this { InArray(|arr|, k) || !Absent(nodes, k) }

    // -------------------------------------------------------------- search

    /** The walk along a chain in `luaH_getnum`, `luaH_getstr` and `luaH_get`. */
    method FindNode(k: Key) returns (i: int)
      requires Shaped()
      ensures i == NONE ==> Absent(nodes, k)
      ensures i != NONE ==> HoldsKey(nodes, i, k)
    {
      var n: int := Main(h, |nodes|, k);
      ghost var from := n;
      forall j | HoldsKey(nodes, j, k) ensures Ahead(nodes, co, n, j) { assert HomeOk(h, nodes, co, j); }
      while true
        invariant 0 <= n < |nodes| && forall j :: HoldsKey(nodes, j, k) ==> Ahead(nodes, co, n, j)
        decreases Depth(co) - co[n].at
      {
        if nodes[n].key == Used(k, false) { return n; }
        if nodes[n].next == NONE {
          forall j | 0 <= j < |nodes| ensures nodes[j].key != Used(k, false) {
            if HoldsKey(nodes, j, k) {
              WalkOn(nodes, co, n, j);
              assert false;
            }
          }
          return NONE;
        }
        StepOn(h, nodes, co, n, k);
        n := nodes[n].next;
      }
    }

    /** `luaH_get` */
    method Find(a: Arg) returns (c: Cell)
      requires Shaped()
      ensures a.NilKey? ==> c.NoCell?
      ensures a.K? ==> CellOk(|arr|, nodes, c, a.k)
    {
      match a
      case NilKey => return NoCell;
      case K(k) =>
        if k.Int? && 1 <= k.n <= |arr| { return InArr(k.n - 1); }
        var i := FindNode(k);
        return if i == NONE then NoCell else InNode(i);
    }

    /** Reading through the result of `luaH_get`; it is the nil object if there is no cell. */
    method Get(a: Arg) returns (v: Val)
      requires Valid()
      ensures v == if a.K? then Lookup(a.k) else Nil
    {
      var c := Find(a);
      match c
      case InArr(i) => return arr[i];
      case InNode(n) =>
        FoundAt(nodes, a.k, n);
        return nodes[n].val;
      case NoCell =>
        if a.K? { NotFound(nodes, a.k); }
        return Nil;
    }

    // -------------------------------------------------------------- stores

    /** Writing through a cell. */
    method Store(c: Cell, v: Val, ghost k: Key)
      requires Valid() && !c.NoCell? && CellOk(|arr|, nodes, c, k)
      modifies this`arr, this`nodes
      ensures Valid() && Room() == old(Room()) && |arr| == old(|arr|)
      ensures Lookup(k) == v
      ensures forall q :: q != k ==> Lookup(q) == old(Lookup(q))
      ensures Assigned(old(Seen()), Seen())
    {
      match c
      case InArr(i) =>
        arr := arr[i := v];
      case InNode(n) =>
        var nodes' := nodes[n := nodes[n].(val := v)];
        StoredAll(h, arr, nodes, co, dummy, lastfree, n, v, k);
        nodes := nodes';
    }

    /** `getfreepos` */
    method GetFreePos() returns (n: int)
      requires Valid()
      modifies this`lastfree
      ensures TakenFrom(nodes, dummy, if n == NONE then lastfree else lastfree + 1)
      ensures if n == NONE then Room() == 0 else !dummy && 0 <= n < |nodes| && n == lastfree && nodes[n].key.Free?
    {
      while lastfree > 0
        invariant TakenFrom(nodes, dummy, lastfree)
      {
        lastfree := lastfree - 1;
        if nodes[lastfree].key.Free? { return lastfree; }
      }
      lastfree := lastfree - 1;
      if !dummy {
        forall i | 0 <= i < |nodes| ensures nodes[i].key.Used? { assert IsUsed(nodes, i); }
        NoneFree(nodes);
      }
      return NONE;
    }

    /** `newkey`; with `rank` 0 there is room, and no rehash is needed. */
    method NewKey(k: Key, ghost rank: nat) returns (r: SetResult)
      requires Valid() && !InArray(|arr|, k) && Absent(nodes, k)
      requires rank <= 1 && (rank == 0 ==> Room() > 0)
      modifies this
      ensures r.At? ==> Valid() && !r.cell.NoCell? && CellOk(|arr|, nodes, r.cell, k)
      ensures r.At? ==> forall q :: Lookup(q) == old(Lookup(q))
      ensures r.Failed? ==> r.e.TableOverflow? && old(Size()) >= MAXASIZE
      ensures rank == 0 ==>
                r.At? && arr == old(arr) && dummy == old(dummy) && |nodes| == old(|nodes|) && Room() >= old(Room()) - 1
      decreases rank, 2
    {
      ghost var c := FreshChain(co);
      NewChain(co, c);
      var mp := Main(h, |nodes|, k);
      if nodes[mp].val != Nil || dummy {
        var n := GetFreePos();
        if n == NONE {
          var failed := Rehash(k);
          if failed { return Failed(TableOverflow); }
          r := Set(K(k), 0);
          return;
        }
        ghost var was := nodes;
        Colliding(nodes, mp);
        var othern := Main(h, |nodes|, nodes[mp].key.k);
        if othern != mp {
          MoveAway(mp, othern, n, k);
        } else {
          AddToChain(mp, n, k);
          mp := n;
        }
        PlacedAll(h, arr, was, nodes, co, dummy, lastfree + 1, n, k, mp);
        return At(InNode(mp));
      }
      MainPlaced(h, |arr|, nodes, co, k, c);
      PlacedAll(h, arr, nodes, InMain(h, nodes, k), InMainPlaces(h, nodes, co, k, c), dummy, lastfree, lastfree, k, mp);
      co := InMainPlaces(h, nodes, co, k, c);
      nodes := nodes[mp := nodes[mp].(key := Used(k, false))];
      return At(InNode(mp));
    }

    /** The colliding node is out of its main position: it moves to the free node `n`. */
    method MoveAway(mp: nat, othern: nat, n: nat, k: Key)
      requires Shaped() && NewHere(h, |arr|, nodes, co, k) && n < |nodes| && nodes[n].key.Free?
      requires mp == Main(h, |nodes|, k) && IsUsed(nodes, mp) && !nodes[mp].key.dead
               && othern == Main(h, |nodes|, nodes[mp].key.k) && othern != mp
      modifies this`nodes, this`co
      ensures Placed(h, |arr|, old(nodes), nodes, co, k, mp) && IsUsed(nodes, n)
    {
      ghost var c := FreshChain(co);
      NewChain(co, c);
      var prev := Predecessor(mp, othern);
      MovedPlaced(h, |arr|, nodes, co, mp, prev, n, k, c);
      ghost var places := MovedPlaces(co, mp, n, c);
      MovedIs(nodes, mp, prev, n, k);
      assert IsUsed(Moved(nodes, mp, prev, n, k), n) && NewNode(k) == Node(Used(k, false), Nil, NONE);
      hide *;
      var colliding := nodes[mp];
      nodes := nodes[prev := nodes[prev].(next := n)];
      nodes := nodes[n := colliding];
      nodes := nodes[mp := colliding.(next := NONE, val := Nil)];
      nodes := nodes[mp := Node(Used(k, false), nodes[mp].val, nodes[mp].next)];
      co := places;
    }

    /** The colliding node is in its main position: the new key goes to the free node `n`, after it. */
    method AddToChain(mp: nat, n: nat, k: Key)
      requires Shaped() && NewHere(h, |arr|, nodes, co, k) && CanChain(h, nodes, mp, n, k)
      modifies this`nodes, this`co
      ensures Placed(h, |arr|, old(nodes), nodes, co, k, n) && IsUsed(nodes, n)
    {
      assert FreeOk(nodes, n);
      ChainedPlaced(h, |arr|, nodes, co, mp, n, k);
      ghost var after, places := Chaining(nodes, mp, n, k), ChainingPlaces(co, mp, n);
      hide Placed, NewHere;
      nodes := nodes[n := nodes[n].(next := nodes[mp].next)];
      nodes := nodes[mp := nodes[mp].(next := n)];
      nodes := nodes[n := nodes[n].(key := Used(k, false))];
      assert nodes == after;
      co := places;
    }

    /** The walk from the main position of the colliding node to the node before it. */
    method Predecessor(mp: nat, from: nat) returns (prev: nat)
      requires Shaped() && IsUsed(nodes, mp) && from == Main(h, |nodes|, nodes[mp].key.k) && from != mp
      ensures prev < |nodes| && prev != mp && IsUsed(nodes, prev) && nodes[prev].next == mp
    {
      prev := from;
      assert HomeOk(h, nodes, co, mp);
      while nodes[prev].next != mp
        invariant prev < |nodes| && prev != mp && IsUsed(nodes, prev) && Ahead(nodes, co, prev, mp)
        decreases co[mp].at - co[prev].at
      {
        WalkOn(nodes, co, prev, mp);
        assert PairOk(nodes, co, prev, mp);
        prev := nodes[prev].next;
      }
    }

    /** `luaH_set` */
    method Set(a: Arg, ghost rank: nat) returns (r: SetResult)
      requires Valid() && rank <= 1
      requires rank == 0 ==> a.K? && (InArray(|arr|, a.k) || Room() > 0)
      modifies this
      ensures a.NilKey? ==> r == Failed(IndexIsNil) && unchanged(this)
      ensures a.K? && old(Has(a.k)) ==> r.At? && unchanged(this)
      ensures r.At? ==> a.K? && Valid() && !r.cell.NoCell? && CellOk(|arr|, nodes, r.cell, a.k)
      ensures r.At? ==> forall q :: Lookup(q) == old(Lookup(q))
      ensures a.K? && r.Failed? ==> r.e.TableOverflow? && old(Size()) >= MAXASIZE
      ensures rank == 0 ==>
                r.At? && arr == old(arr) && dummy == old(dummy) && |nodes| == old(|nodes|)
                && Room() >= old(Room()) - if InArray(|arr|, a.k) then 0 else 1
      decreases rank, 3
    {
      var c := Find(a);
      if !c.NoCell? { return At(c); }
      if a.NilKey? { return Failed(IndexIsNil); }
      r := NewKey(a.k, rank);
    }

    /** An assignment `t[a] = v`. */
    method Put(a: Arg, v: Val) returns (r: SetResult)
      requires Valid()
      modifies this
      ensures r.At? ==> a.K? && Valid() && Lookup(a.k) == v && forall q :: q != a.k ==> Lookup(q) == old(Lookup(q))
      ensures r.Failed? ==>
                if a.NilKey? then r.e.IndexIsNil? && unchanged(this) else r.e.TableOverflow? && old(Size()) >= MAXASIZE
      ensures a.K? && old(Has(a.k)) ==> r.At? && co == old(co) && Assigned(old(Seen()), Seen())
      ensures r.At? ==> Size() == old(Size()) + One(v) - One(old(Lookup(a.k)))
    {
      ghost var arr0, nodes0 := arr, nodes;
      ShapeStores(h, arr, nodes, co, dummy);
      r := Set(a, 1);
      if r.At? {
        Store(r.cell, v, a.k);
        SizeAfter(arr0, nodes0, a.k, v);
      }
    }

    /** After one store. */
    lemma SizeAfter(arr0: seq<Val>, nodes0: seq<Node>, k: Key, v: Val)
      requires Stored(arr0, nodes0) && Valid() && Lookup(k) == v
               && forall q :: q != k ==> Lookup(q) == Value(arr0, nodes0, q)
      ensures Size() == Entries(arr0, nodes0) + One(v) - One(Value(arr0, nodes0, k))
    {
      ShapeStores(h, arr, nodes, co, dummy);
      forall q | q != k
        ensures Value(arr, nodes, q) == Value(arr0, nodes0, q)
      {
        assert Lookup(q) == Value(arr0, nodes0, q);
      }
      OneKeySet(arr0, nodes0, arr, nodes, k);
    }

    /** The collector marks the key of an empty entry as dead (lua/lgc.c:145-149). */
    method KillKey(n: nat)
      requires Valid() && IsUsed(nodes, n) && nodes[n].val == Nil && nodes[n].key.k.Other?
      modifies this`nodes
      ensures Valid() && Assigned(old(Seen()), Seen())
      ensures forall q :: Lookup(q) == old(Lookup(q))
    {
      KilledAll(h, arr, nodes, co, dummy, lastfree, n);
      nodes := nodes[n := nodes[n].(key := Used(nodes[n].key.k, true))];
    }

    // -------------------------------------------------------------- traversal

    /** `findindex` */
    method FindIndex(a: Arg) returns (found: bool, i: int)
      requires Valid()
      ensures if found then IndexOf(Seen(), co, a, i) && -1 <= i < Total(Seen()) else NoIndex(Seen(), a)
    {
      match a
      case NilKey => return true, -1;
      case K(k) =>
        if k.Int? && 0 < k.n <= |arr| { return true, k.n - 1; }
        var n: int := Main(h, |nodes|, k);
        forall j | KeyNode(nodes, j, k) ensures Ahead(nodes, co, n, j) { assert HomeOk(h, nodes, co, j); }
        while true
          invariant 0 <= n < |nodes| && forall j :: KeyNode(nodes, j, k) ==> Ahead(nodes, co, n, j)
          decreases Depth(co) - co[n].at
        {
          if nodes[n].key.Used? && nodes[n].key.k == k { return true, |arr| + n; }
          if nodes[n].next == NONE {
            forall j ensures !KeyNode(nodes, j, k) {
              if KeyNode(nodes, j, k) {
                WalkOn(nodes, co, n, j);
                assert false;
              }
            }
            return false, 0;
          }
          StepOnKey(h, nodes, co, n, k);
          n := nodes[n].next;
        }
    }

    /** `luaH_next` */
    method Next(a: Arg) returns (r: NextResult)
      requires Valid()
      ensures NextIs(Seen(), co, a, r)
    {
      var found, i := FindIndex(a);
      if !found { return InvalidKey; }
      ghost var from := i;
      i := i + 1;
      while i < |arr|
        invariant from < i <= Total(Seen()) && EmptyBetween(Seen(), from, i)
      {
        if arr[i] != Nil {
          assert KeyAt(Seen(), i, Int(i + 1)) && ValAt(Seen(), i) == arr[i];
          return Entry(Int(i + 1), arr[i]);
        }
        i := i + 1;
      }
      i := i - |arr|;
      while i < |nodes|
        invariant 0 <= i <= |nodes| && from < i + |arr| && EmptyBetween(Seen(), from, i + |arr|)
      {
        if nodes[i].val != Nil {
          assert FreeOk(nodes, i);
          assert KeyAt(Seen(), i + |arr|, nodes[i].key.k) && ValAt(Seen(), i + |arr|) == nodes[i].val;
          return Entry(nodes[i].key.k, nodes[i].val);
        }
        i := i + 1;
      }
      return End;
    }

    // -------------------------------------------------------------- border

    ghost predicate Border(j: int) reads this {
      j >= 0 && (j == 0 || Lookup(Int(j)) != Nil) && Lookup(Int(j + 1)) == Nil
    }

    /** `unbound_search` */
    method UnboundSearch(j0: nat) returns (r: int)
      requires Valid() && (j0 == 0 || Lookup(Int(j0)) != Nil)
      ensures Border(r)
    {
      var i, j := j0, j0 + 1;
      var v := Get(K(Int(j)));
      while v != Nil
        invariant 0 <= i < j && (i == 0 || Lookup(Int(i)) != Nil) && v == Lookup(Int(j))
        decreases MAX_INT - j
      {
        i := j;
        j := j * 2;
        if j > MAX_INT {
          i := 1;
          v := Get(K(Int(i)));
          while v != Nil
            invariant i >= 1 && v == Lookup(Int(i)) && forall x :: 1 <= x < i ==> Lookup(Int(x)) != Nil
            decreases |arr| + |nodes| - i
          {
            assert forall x :: 1 <= x <= i ==> Lookup(Int(x)) != Nil;
            forall x | 1 <= x <= i ensures Value(arr, nodes, Int(x)) != Nil { assert Lookup(Int(x)) != Nil; }
            FewIndicesInUse(arr, nodes, i);
            i := i + 1;
            v := Get(K(Int(i)));
          }
          return i - 1;
        }
        v := Get(K(Int(j)));
      }
      while j - i > 1
        invariant 0 <= i < j && (i == 0 || Lookup(Int(i)) != Nil) && Lookup(Int(j)) == Nil
      {
        var m := (i + j) / 2;
        v := Get(K(Int(m)));
        if v == Nil { j := m; } else { i := m; }
      }
      return i;
    }

    /** `luaH_getn` finds a border. */
    method GetN() returns (r: int)
      requires Valid()
      ensures Border(r)
    {
      var j := |arr|;
      if j > 0 && arr[j - 1] == Nil {
        var i := 0;
        while j - i > 1
          invariant 0 <= i < j <= |arr| && (i == 0 || arr[i - 1] != Nil) && arr[j - 1] == Nil
        {
          var m := (i + j) / 2;
          if arr[m - 1] == Nil { j := m; } else { i := m; }
        }
        return i;
      } else if dummy {
        NotFound(nodes, Int(j + 1));
        return j;
      } else {
        r := UnboundSearch(j);
      }
    }

    // -------------------------------------------------------------- rehash

    /** `luaH_resizearray`, which makes the array part grow. */
    method ResizeArray(nasize: nat) returns (failed: bool)
      requires Valid() && |arr| <= nasize <= MAXASIZE
      modifies this
      ensures failed ==> old(|nodes|) > MAXASIZE
      ensures !failed ==> Valid() && |arr| == nasize && forall q :: Lookup(q) == old(Lookup(q))
    {
      var nsize := if dummy then 0 else |nodes|;
      FewLeft(nodes, |nodes|, nasize);
      failed := Resize(nasize, nsize, 0);
    }

    /** `rehash`: afterwards the new key has a place. */
    method Rehash(ek: Key) returns (failed: bool)
      requires Shaped() && Absent(nodes, ek) && !InArray(|arr|, ek)
      modifies this
      ensures !failed ==> Valid() && (InArray(|arr|, ek) || Room() > 0)
      ensures !failed ==> forall q :: Lookup(q) == old(Lookup(q))
      ensures !failed ==>
                exists na: nat ::
                  && BestSize(old(IndicesWith(arr, nodes, ek)), |arr|, na) && na <= old(Size()) + 1
                  && SmallestFor(|nodes|, dummy, old(Size()) + 1 - na)
      ensures failed ==> old(Size()) >= MAXASIZE
      decreases 1, 1
    {
      IndicesAre(arr, nodes, ek);
      var n, na, totaluse := NewSizes(ek);
      assert Stored(arr, nodes) && |arr| <= MAXASIZE;
      hide Shape, Indices, BestSize, IndicesWith, SmallestFor, Left, Stored, TakenFrom, Value, FreeCount, Absent,
        Entries;
      GoodSizes(arr, nodes, ek, n, na);
      failed := Resize(n, totaluse - na, if InArray(n, ek) then 0 else 1);
    }

    /** What `rehash` counts: the new size of the array part, the keys that go there, and all keys. */
    method NewSizes(ek: Key) returns (n: nat, na: nat, totaluse: nat)
      requires Shaped() && Absent(nodes, ek) && !InArray(|arr|, ek)
      ensures BestSize(Indices(arr, nodes, ek), n, na) && totaluse == Size() + 1
    {
      ghost var A, I := ArrKeys(arr, |arr|), Indices(arr, nodes, ek);
      CountedAll(arr, nodes, ek);
      var nums := new int[MAXBITS + 1](_ => 0);
      hide Shape, Counted, ArrKeys, HashInts, Indices, BestSize, Stored, Absent, Tally, HashRest, ArrRest;
      var nasize := NumUseArray(arr, nums);
      totaluse := nasize;
      var used, ause := NumUseHash(nodes, nums, A);
      TallyIs(nodes, A, nums[..], used, ause);
      nasize, totaluse := nasize + ause, totaluse + used;
      var extra := CountInt(ek, nums, A + HashInts(nodes, 0));
      nasize, totaluse := nasize + extra, totaluse + 1;
      na, n := ComputeSizes(nums[..], nasize, I);
    }

    /** `setnodevector` */
    method SetNodeVector(size: nat) returns (failed: bool)
      modifies this`nodes, this`dummy, this`lastfree, this`co
      ensures failed ==> size > MAXASIZE && unchanged(this)
      ensures !failed ==>
                NewVector(h, nodes, co, dummy, lastfree) && Room() >= size && SmallestFor(|nodes|, dummy, size)
    {
      if size == 0 {
        nodes, dummy, lastfree := [EMPTY], true, 0;
        co := NoPlaces(1);
        EmptyOk(h, 1);
        assert nodes == EmptyNodes(1);
        return false;
      }
      var lsize := CeilLog2(size);
      EnoughNodes(size);
      if lsize > MAXBITS { return true; }
      nodes, dummy, lastfree := EmptyNodes(Pow2(lsize)), false, Pow2(lsize);
      co := NoPlaces(Pow2(lsize));
      EmptyOk(h, Pow2(lsize));
      return false;
    }

    /** Putting back one entry; there is room for it. */
    method PutBack(k: Key, v: Val)
      requires Valid() && v != Nil && (InArray(|arr|, k) || Room() > 0)
      modifies this
      ensures Valid() && |arr| == old(|arr|) && Room() >= old(Room()) - if InArray(|arr|, k) then 0 else 1
      ensures |nodes| == old(|nodes|) && dummy == old(dummy)
      ensures PutOne(k, v, old(arr), old(nodes), arr, nodes)
      decreases 0, 4
    {
      var r := Set(K(k), 0);
      Store(r.cell, v, k);
      forall q ensures Value(arr, nodes, q) == if q == k then v else old(Value(arr, nodes, q)) {
        assert Lookup(q) == if q == k then v else old(Lookup(q));
      }
    }

    /** `resize`: `room` nodes at least are free afterwards. */
    method Resize(nasize: nat, nhsize: nat, ghost room: nat) returns (failed: bool)
      requires Shaped() && nasize <= MAXASIZE && nhsize >= Left(arr, nodes, nasize) + room
      modifies this
      ensures failed ==> nhsize > MAXASIZE
      ensures !failed ==> Valid() && |arr| == nasize && Room() >= room && SmallestFor(|nodes|, dummy, nhsize)
      ensures !failed ==> forall q :: Lookup(q) == old(Lookup(q))
      decreases 1, 0
    {
      var oldarr, nold := arr, nodes;
      if nasize > |oldarr| { arr := Resized(arr, nasize); }
      failed := SetNodeVector(nhsize);
      if failed { return; }
      if nasize < |oldarr| { arr := arr[..nasize]; }
      assert arr == Resized(oldarr, nasize);
      ExpectStart(oldarr, nold, nasize, |nodes|);
      assert Stored(oldarr, nold) && Valid();
      hide Restored, Stored, Shape, TakenFrom, FreeCount, NewVector;
      PutBackAll(oldarr, nold, nasize, room);
    }

    method PutBackAll(oldarr: seq<Val>, nold: seq<Node>, nasize: nat, ghost room: nat)
      requires Valid() && |arr| == nasize && Room() >= Left(oldarr, nold, nasize) + room
      requires Stored(oldarr, nold) && Restored(oldarr, nold, Lesser(nasize, |oldarr|), |nold|, arr, nodes)
      modifies this
      ensures Valid() && |arr| == nasize && Room() >= room && |nodes| == old(|nodes|) && dummy == old(dummy)
      ensures forall q :: Lookup(q) == Value(oldarr, nold, q)
      decreases 0, 6
    {
      hide Restored, Stored, Shape, TakenFrom, FreeCount;
      var i := nasize;
      while i < |oldarr|
        invariant nasize <= i && (i <= |oldarr| || i == nasize)
        invariant Valid() && |arr| == nasize && Room() >= ArrRest(oldarr, i) + HashRest(nold, |nold|, nasize) + room
        invariant Restored(oldarr, nold, Lesser(i, |oldarr|), |nold|, arr, nodes)
        invariant |nodes| == old(|nodes|) && dummy == old(dummy)
      {
        i := ResizeIndex(oldarr, nold, i);
      }
      var j := |nold|;
      while j > 0
        invariant 0 <= j <= |nold|
        invariant Valid() && |arr| == nasize && Room() >= HashRest(nold, j, nasize) + room
        invariant Restored(oldarr, nold, |oldarr|, j, arr, nodes)
        invariant |nodes| == old(|nodes|) && dummy == old(dummy)
      {
        j := j - 1;
        ResizeNode(oldarr, nold, j);
      }
      ExpectEnd(oldarr, nold, arr, nodes);
    }

    /** One turn of the loop over the vanishing slice of the array part. */
    method ResizeIndex(oldarr: seq<Val>, ghost nold: seq<Node>, i: nat) returns (next: nat)
      requires Valid() && |arr| <= i < |oldarr| && Room() >= ArrRest(oldarr, i)
               && Restored(oldarr, nold, i, |nold|, arr, nodes)
      modifies this
      ensures next == i + 1 && Valid() && |arr| == old(|arr|)
              && Room() - ArrRest(oldarr, i + 1) >= old(Room()) - ArrRest(oldarr, i)
      ensures Restored(oldarr, nold, i + 1, |nold|, arr, nodes)
      ensures |nodes| == old(|nodes|) && dummy == old(dummy)
      decreases 0, 5
    {
      ghost var arr0, nodes0 := arr, nodes;
      if oldarr[i] != Nil { PutBack(Int(i + 1), oldarr[i]); }
      IndexBack(oldarr, nold, i, arr0, nodes0, arr, nodes);
      return i + 1;
    }

    /** One turn of the loop over the old nodes. */
    method ResizeNode(ghost oldarr: seq<Val>, nold: seq<Node>, j: nat)
      requires Valid() && j < |nold| && Room() >= HashRest(nold, j + 1, |arr|)
               && Restored(oldarr, nold, |oldarr|, j + 1, arr, nodes)
      requires Stored(oldarr, nold)
      modifies this
      ensures Valid() && |arr| == old(|arr|)
              && Room() - HashRest(nold, j, |arr|) >= old(Room()) - HashRest(nold, j + 1, |arr|)
      ensures Restored(oldarr, nold, |oldarr|, j, arr, nodes)
      ensures |nodes| == old(|nodes|) && dummy == old(dummy)
      decreases 0, 5
    {
      ghost var arr0, nodes0 := arr, nodes;
      assert FreeOk(nold, j) && OutOfArray(nold, j, |oldarr|);
      if nold[j].val != Nil {
        NodeKey(nold, j);
        PutBack(nold[j].key.k, nold[j].val);
      }
      NodeBack(oldarr, nold, j, arr0, nodes0, arr, nodes);
    }
  }

  // ---------------------------------------------------------------- any run of stores

  /** The value of `q` after the stores: the last one for `q` decides. */
  function Final(stores: seq<(Key, Val)>, start: Val, q: Key): Val {
    if stores == [] then start
    else var (k, v) := stores[|stores| - 1]; if k == q then v else Final(stores[..|stores| - 1], start, q)
  }

  /** A table refines a finite map under any run of stores and any hash; only an overflow ends the run. */
  method StoreAll(t: Table, stores: seq<(Key, Val)>) returns (failed: bool)
    requires t.Valid()
    modifies t
    ensures !failed ==> t.Valid() && forall q :: t.Lookup(q) == Final(stores, old(t.Lookup(q)), q)
    ensures failed ==> old(t.Size()) + |stores| > MAXASIZE
  {
    for i := 0 to |stores|
      invariant t.Valid() && forall q :: t.Lookup(q) == Final(stores[..i], old(t.Lookup(q)), q)
      invariant t.Size() <= old(t.Size()) + i
    {
      var r := t.Put(K(stores[i].0), stores[i].1);
      if r.Failed? { return true; }
      assert stores[..i + 1] == stores[..i] + [stores[i]];
    }
    assert stores[..|stores|] == stores;
    return false;
  }
}
