/** What a table maps its keys to, and how many nodes are free (lua/ltable.c:382-486). */
module TableValues {
  import opened TableNodes

  predicate HoldsKey(nodes: seq<Node>, i: int, k: Key) { 0 <= i < |nodes| && nodes[i].key == Used(k, false) }

  /** Where the key is, -1 if it is absent. */
  function FindKey(nodes: seq<Node>, k: Key): int {
    if nodes == [] then -1
    else if nodes[|nodes| - 1].key == Used(k, false) then |nodes| - 1
    else FindKey(nodes[..|nodes| - 1], k)
  }

  function NodeVal(nodes: seq<Node>, k: Key): Val {
    var i := FindKey(nodes, k);
    if 0 <= i < |nodes| then nodes[i].val else Nil
  }

  lemma {:induction false} FindKeyIs(nodes: seq<Node>, k: Key)
    ensures var r := FindKey(nodes, k);
            -1 <= r < |nodes| && (r >= 0 ==> HoldsKey(nodes, r, k)) && (r == -1 <==> Absent(nodes, k))
    decreases |nodes|
  {
    if nodes != [] {
      FindKeyIs(nodes[..|nodes| - 1], k);
      if FindKey(nodes, k) == -1 {
        forall i | 0 <= i < |nodes| ensures nodes[i].key != Used(k, false) {
          if i < |nodes| - 1 { assert nodes[..|nodes| - 1][i] == nodes[i]; }
        }
      } else {
        assert HoldsKey(nodes, FindKey(nodes, k), k);
      }
    }
  }

  lemma FoundAt(nodes: seq<Node>, k: Key, i: int)
    requires KeysOk(nodes) && HoldsKey(nodes, i, k)
    ensures FindKey(nodes, k) == i && NodeVal(nodes, k) == nodes[i].val
  {
    FindKeyIs(nodes, k);
    assert SameKeyOk(nodes, i, FindKey(nodes, k));
  }

  lemma NotFound(nodes: seq<Node>, k: Key)
    requires Absent(nodes, k)
    ensures FindKey(nodes, k) == -1 && NodeVal(nodes, k) == Nil
  {
    FindKeyIs(nodes, k);
  }

  /** The entry of `q` is where it was, or has been emptied before it went. */
  ghost predicate SameEntry(nodes: seq<Node>, nodes': seq<Node>, q: Key) {
    || (exists i, j :: HoldsKey(nodes, i, q) && HoldsKey(nodes', j, q) && nodes'[j].val == nodes[i].val)
    || (Absent(nodes, q) && Absent(nodes', q))
    || (exists i :: HoldsKey(nodes, i, q) && nodes[i].val == Nil && Absent(nodes', q))
    || (exists j :: HoldsKey(nodes', j, q) && nodes'[j].val == Nil && Absent(nodes, q))
  }

  lemma SameValue(nodes: seq<Node>, nodes': seq<Node>, q: Key)
    requires KeysOk(nodes) && KeysOk(nodes') && SameEntry(nodes, nodes', q)
    ensures NodeVal(nodes', q) == NodeVal(nodes, q)
  {
    if i, j :| HoldsKey(nodes, i, q) && HoldsKey(nodes', j, q) && nodes'[j].val == nodes[i].val {
      FoundAt(nodes, q, i);
      FoundAt(nodes', q, j);
    } else if Absent(nodes, q) && Absent(nodes', q) {
      NotFound(nodes, q);
      NotFound(nodes', q);
    } else if i :| HoldsKey(nodes, i, q) && nodes[i].val == Nil && Absent(nodes', q) {
      FoundAt(nodes, q, i);
      NotFound(nodes', q);
    } else {
      var j :| HoldsKey(nodes', j, q) && nodes'[j].val == Nil;
      NotFound(nodes, q);
      FoundAt(nodes', q, j);
    }
  }

  lemma EntryCases(nodes: seq<Node>, q: Key) returns (i: int)
    ensures if i >= 0 then HoldsKey(nodes, i, q) else Absent(nodes, q)
  {
    FindKeyIs(nodes, q);
    i := FindKey(nodes, q);
  }

  // ---------------------------------------------------------------- a new key changes no value

  lemma PlacedValues(nodes: seq<Node>, mp: nat, n: Node, k: Key, q: Key)
    requires KeysOk(nodes) && mp < |nodes| && Absent(nodes, k) && nodes[mp].val == Nil && n.key == Used(k, false)
             && n.val == Nil
    requires KeysOk(nodes[mp := n])
    ensures NodeVal(nodes[mp := n], q) == NodeVal(nodes, q)
  {
    var nodes' := nodes[mp := n];
    var i := EntryCases(nodes, q);
    if q == k {
      assert HoldsKey(nodes', mp, q);
    } else if i >= 0 && i != mp {
      assert HoldsKey(nodes', i, q);
    }
    SameValue(nodes, nodes', q);
  }

  lemma MovedValues(nodes: seq<Node>, mp: nat, prev: nat, n: nat, k: Key, q: Key)
    requires KeysOk(nodes) && mp < |nodes| && prev < |nodes| && n < |nodes| && nodes[n].key.Free? && nodes[mp].key.Used?
             && nodes[prev].key.Used? && Absent(nodes, k)
    requires KeysOk(Moved(nodes, mp, prev, n, k))
    ensures NodeVal(Moved(nodes, mp, prev, n, k), q) == NodeVal(nodes, q)
  {
    var nodes' := Moved(nodes, mp, prev, n, k);
    var i := EntryCases(nodes, q);
    if q == k {
      assert HoldsKey(nodes', mp, q);
    } else if i == mp {
      assert HoldsKey(nodes', n, q);
    } else if i >= 0 {
      assert HoldsKey(nodes', i, q);
    }
    SameValue(nodes, nodes', q);
  }

  lemma ChainingValues(nodes: seq<Node>, mp: nat, n: nat, k: Key, q: Key)
    requires KeysOk(nodes) && mp < |nodes| && n < |nodes| && nodes[n].key.Free? && nodes[mp].key.Used?
             && Absent(nodes, k)
    requires KeysOk(Chaining(nodes, mp, n, k))
    ensures NodeVal(Chaining(nodes, mp, n, k), q) == NodeVal(nodes, q)
  {
    var nodes' := Chaining(nodes, mp, n, k);
    var i := EntryCases(nodes, q);
    if q == k {
      assert HoldsKey(nodes', n, q);
    } else if i >= 0 {
      assert HoldsKey(nodes', i, q);
    }
    SameValue(nodes, nodes', q);
  }

  lemma StoredValues(nodes: seq<Node>, i: nat, v: Val, k: Key, q: Key)
    requires KeysOk(nodes) && HoldsKey(nodes, i, k)
    ensures KeysOk(nodes[i := nodes[i].(val := v)])
    ensures NodeVal(nodes[i := nodes[i].(val := v)], q) == if q == k then v else NodeVal(nodes, q)
  {
    var nodes' := nodes[i := nodes[i].(val := v)];
    forall a, b ensures SameKeyOk(nodes', a, b) { assert SameKeyOk(nodes, a, b); }
    forall a ensures DeadOk(nodes', a) { assert DeadOk(nodes, a); }
    if q == k {
      FoundAt(nodes', q, i);
    } else {
      var j := EntryCases(nodes, q);
      if j >= 0 { assert HoldsKey(nodes', j, q); }
      SameValue(nodes, nodes', q);
    }
  }

  // ---------------------------------------------------------------- storing keeps the structure

  lemma StoredOk(h: Hash, nodes: seq<Node>, co: seq<Place>, i: nat, v: Val, k: Key)
    requires NodesOk(h, nodes, co) && HoldsKey(nodes, i, k)
    ensures NodesOk(h, nodes[i := nodes[i].(val := v)], co)
  {
    SlotOk(h, nodes, co, i, nodes[i].(val := v));
  }

  /** The collector marks the key of an empty entry as dead. */
  lemma KilledOk(h: Hash, nodes: seq<Node>, co: seq<Place>, i: nat)
    requires NodesOk(h, nodes, co) && IsUsed(nodes, i) && nodes[i].val == Nil
    ensures NodesOk(h, nodes[i := nodes[i].(key := Used(nodes[i].key.k, true))], co)
  {
    SlotOk(h, nodes, co, i, nodes[i].(key := Used(nodes[i].key.k, true)));
  }

  lemma SlotOk(h: Hash, nodes: seq<Node>, co: seq<Place>, i: nat, n: Node)
    requires NodesOk(h, nodes, co) && IsUsed(nodes, i) && n.next == nodes[i].next && n.key.Used?
             && n.key.k == nodes[i].key.k
    requires n.key == nodes[i].key || n.key.dead
    requires n.key.dead ==> n.val == Nil
    ensures NodesOk(h, nodes[i := n], co)
  {
    var nodes' := nodes[i := n];
    forall a ensures LinkOk(nodes', co, a) { assert LinkOk(nodes, co, a); }
    forall a ensures FreeOk(nodes', a) { assert FreeOk(nodes, a); }
    forall a, b ensures PairOk(nodes', co, a, b) { assert PairOk(nodes, co, a, b); }
    forall a ensures HomeOk(h, nodes', co, a) { assert HomeOk(h, nodes, co, a); }
    forall a ensures CollideOk(h, nodes', a) { assert CollideOk(h, nodes, a); }
    forall a, b ensures OrderOk(nodes', co, a, b) { assert OrderOk(nodes, co, a, b) && SameKeyOk(nodes, i, a); }
    forall a, b ensures SameKeyOk(nodes', a, b) { assert SameKeyOk(nodes, a, b); }
    forall a ensures DeadOk(nodes', a) { assert DeadOk(nodes, a); }
  }

  lemma KilledValues(nodes: seq<Node>, i: nat, q: Key)
    requires KeysOk(nodes) && IsUsed(nodes, i) && nodes[i].val == Nil
             && KeysOk(nodes[i := nodes[i].(key := Used(nodes[i].key.k, true))])
    ensures NodeVal(nodes[i := nodes[i].(key := Used(nodes[i].key.k, true))], q) == NodeVal(nodes, q)
  {
    var nodes' := nodes[i := nodes[i].(key := Used(nodes[i].key.k, true))];
    var j := EntryCases(nodes, q);
    if j >= 0 && j != i { assert HoldsKey(nodes', j, q); }
    SameValue(nodes, nodes', q);
  }

  // ---------------------------------------------------------------- free nodes

  function FreeCount(nodes: seq<Node>): nat {
    if nodes == [] then 0 else (if nodes[|nodes| - 1].key.Free? then 1 else 0) + FreeCount(nodes[..|nodes| - 1])
  }

  lemma {:induction false} FreeAfter(nodes: seq<Node>, i: nat, n: Node)
    requires i < |nodes|
    ensures FreeCount(nodes[i := n])
            == FreeCount(nodes) - (if nodes[i].key.Free? then 1 else 0) + (if n.key.Free? then 1 else 0)
    decreases |nodes|
  {
    var nodes' := nodes[i := n];
    if i < |nodes| - 1 {
      assert nodes'[..|nodes| - 1] == nodes[..|nodes| - 1][i := n];
      FreeAfter(nodes[..|nodes| - 1], i, n);
    } else {
      assert nodes'[..|nodes| - 1] == nodes[..|nodes| - 1];
    }
  }

  lemma {:induction false} NoneFree(nodes: seq<Node>)
    requires forall i :: 0 <= i < |nodes| ==> nodes[i].key.Used?
    ensures FreeCount(nodes) == 0
    decreases |nodes|
  {
    if nodes != [] { NoneFree(nodes[..|nodes| - 1]); }
  }

  lemma {:induction false} SomeFree(nodes: seq<Node>, i: nat)
    requires i < |nodes| && nodes[i].key.Free?
    ensures FreeCount(nodes) > 0
    decreases |nodes|
  {
    if i < |nodes| - 1 { SomeFree(nodes[..|nodes| - 1], i); }
  }

  lemma MovedFree(nodes: seq<Node>, mp: nat, prev: nat, n: nat, k: Key)
    requires mp < |nodes| && prev < |nodes| && n < |nodes| && nodes[n].key.Free? && nodes[mp].key.Used?
             && nodes[prev].key.Used? && prev != n
    ensures FreeCount(Moved(nodes, mp, prev, n, k)) == FreeCount(nodes) - 1
  {
    var a := nodes[prev := nodes[prev].(next := n)];
    var b := a[n := nodes[mp]];
    FreeAfter(nodes, prev, nodes[prev].(next := n));
    FreeAfter(a, n, nodes[mp]);
    FreeAfter(b, mp, NewNode(k));
  }

  lemma ChainingFree(nodes: seq<Node>, mp: nat, n: nat, k: Key)
    requires mp < |nodes| && n < |nodes| && nodes[n].key.Free? && nodes[mp].key.Used?
    ensures FreeCount(Chaining(nodes, mp, n, k)) == FreeCount(nodes) - 1
  {
    var a := nodes[n := Node(Used(k, false), Nil, nodes[mp].next)];
    FreeAfter(nodes, n, Node(Used(k, false), Nil, nodes[mp].next));
    FreeAfter(a, mp, nodes[mp].(next := n));
  }

  // ---------------------------------------------------------------- a new hash part

  function EmptyNodes(size: nat): (r: seq<Node>)
    ensures |r| == size && forall i :: 0 <= i < size ==> r[i] == EMPTY
  {
    seq(size, _ => EMPTY)
  }

  function NoPlaces(size: nat): (r: seq<Place>)
    ensures |r| == size
  {
    seq(size, _ => Place(0, 0))
  }

  lemma EmptyOk(h: Hash, size: nat)
    requires size > 0
    ensures NodesOk(h, EmptyNodes(size), NoPlaces(size)) && FreeCount(EmptyNodes(size)) == size
    ensures forall q :: NodeVal(EmptyNodes(size), q) == Nil
  {
    forall q ensures NodeVal(EmptyNodes(size), q) == Nil { NotFound(EmptyNodes(size), q); }
    EmptyFree(size);
  }

  lemma {:induction false} EmptyFree(size: nat)
    ensures FreeCount(EmptyNodes(size)) == size
    decreases size
  {
    if size > 0 {
      assert EmptyNodes(size)[..size - 1] == EmptyNodes(size - 1);
      EmptyFree(size - 1);
    }
  }
}
