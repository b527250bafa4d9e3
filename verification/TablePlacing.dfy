/** A new key finds its node in one of four ways (lua/ltable.c:399-429). Each keeps the shape of the table and
    changes no value. */
module TablePlacing {
  import opened TableNodes
  import opened TableSizes
  import opened TableValues
  import opened TableCounts

  /** What a table maps a key to. */
  function Value(arr: seq<Val>, nodes: seq<Node>, k: Key): Val {
    if InArray(|arr|, k) then arr[k.n - 1] else NodeVal(nodes, k)
  }

  predicate OutOfArray(nodes: seq<Node>, i: int, n: nat) { IsUsed(nodes, i) ==> !InArray(n, nodes[i].key.k) }

  /** The invariant, but for the search for free nodes. */
  ghost predicate Shape(h: Hash, arr: seq<Val>, nodes: seq<Node>, co: seq<Place>, dummy: bool) {
    NodesOk(h, nodes, co) && |arr| <= MAXASIZE && (dummy ==> nodes == [EMPTY])
      && forall i :: OutOfArray(nodes, i, |arr|)
  }

  /** Every node from `f` on holds a key. */
  ghost predicate TakenFrom(nodes: seq<Node>, dummy: bool, f: int) {
    f <= (if dummy then 0 else |nodes|) && (!dummy ==> forall i :: f <= i < |nodes| ==> (0 <= i ==> IsUsed(nodes, i)))
  }

  /** The new nodes have `k` at `at`, and everything else as it was. */
  ghost predicate Placed(h: Hash, n: nat, nodes: seq<Node>, nodes': seq<Node>, co': seq<Place>, k: Key, at: nat) {
    && |nodes'| == |nodes| && NodesOk(h, nodes', co') && HoldsKey(nodes', at, k) && nodes'[at].val == Nil
    && (forall i :: OutOfArray(nodes', i, n))
    && (forall q :: NodeVal(nodes', q) == NodeVal(nodes, q))
    && FreeCount(nodes') >= FreeCount(nodes) - 1
    && (forall i :: IsUsed(nodes, i) ==> IsUsed(nodes', i))
  }

  ghost predicate NewHere(h: Hash, n: nat, nodes: seq<Node>, co: seq<Place>, k: Key) {
    NodesOk(h, nodes, co) && (forall i :: OutOfArray(nodes, i, n)) && Absent(nodes, k) && !InArray(n, k)
  }

  /** The main position holds no value: the key is put there, and the link stays. */
  function InMain(h: Hash, nodes: seq<Node>, k: Key): seq<Node>
    requires |nodes| > 0
  {
    var mp := Main(h, |nodes|, k); nodes[mp := nodes[mp].(key := Used(k, false))]
  }

  function InMainPlaces(h: Hash, nodes: seq<Node>, co: seq<Place>, k: Key, c: nat): seq<Place>
    requires |nodes| > 0 && |co| == |nodes|
  {
    var mp := Main(h, |nodes|, k); if nodes[mp].key.Free? then co[mp := Place(c, 0)] else co
  }

  lemma MainPlaced(h: Hash, n: nat, nodes: seq<Node>, co: seq<Place>, k: Key, c: nat)
    requires NewHere(h, n, nodes, co, k) && Unused(co, c) && nodes[Main(h, |nodes|, k)].val == Nil
    ensures Placed(h, n, nodes, InMain(h, nodes, k), InMainPlaces(h, nodes, co, k, c), k, Main(h, |nodes|, k))
  {
    var mp := Main(h, |nodes|, k);
    assert FreeOk(nodes, mp);
    if nodes[mp].key.Free? { PlaceFree(h, nodes, co, k, c); } else { PlaceEmpty(h, nodes, co, k); }
    var m := nodes[mp].(key := Used(k, false));
    var nodes' := nodes[mp := m];
    forall i ensures OutOfArray(nodes', i, n) { assert OutOfArray(nodes, i, n); }
    hide NodesOk;
    forall q ensures NodeVal(nodes', q) == NodeVal(nodes, q) { MainValues(h, n, nodes, co, k, c, q); }
    FreeAfter(nodes, mp, m);
  }

  lemma MainValues(h: Hash, n: nat, nodes: seq<Node>, co: seq<Place>, k: Key, c: nat, q: Key)
    requires NewHere(h, n, nodes, co, k) && nodes[Main(h, |nodes|, k)].val == Nil
    requires NodesOk(h, InMain(h, nodes, k), InMainPlaces(h, nodes, co, k, c))
    ensures NodeVal(InMain(h, nodes, k), q) == NodeVal(nodes, q)
  {
    var mp := Main(h, |nodes|, k);
    PlacedValues(nodes, mp, nodes[mp].(key := Used(k, false)), k, q);
  }

  lemma MovedPlaced(h: Hash, n: nat, nodes: seq<Node>, co: seq<Place>, mp: nat, prev: nat, f: nat, k: Key, c: nat)
    requires NewHere(h, n, nodes, co, k) && Unused(co, c) && CanMove(h, nodes, mp, prev, f, k)
    ensures Placed(h, n, nodes, Moved(nodes, mp, prev, f, k), MovedPlaces(co, mp, f, c), k, mp)
  {
    var nodes' := Moved(nodes, mp, prev, f, k);
    PlaceMoved(h, nodes, co, mp, prev, f, k, c);
    forall i ensures OutOfArray(nodes', i, n) { assert OutOfArray(nodes, if i == f then mp else i, n); }
    forall q ensures NodeVal(nodes', q) == NodeVal(nodes, q) { MovedValues(nodes, mp, prev, f, k, q); }
    MovedFree(nodes, mp, prev, f, k);
  }

  lemma ChainedPlaced(h: Hash, n: nat, nodes: seq<Node>, co: seq<Place>, mp: nat, f: nat, k: Key)
    requires NewHere(h, n, nodes, co, k) && CanChain(h, nodes, mp, f, k)
    ensures Placed(h, n, nodes, Chaining(nodes, mp, f, k), ChainingPlaces(co, mp, f), k, f)
  {
    var nodes' := Chaining(nodes, mp, f, k);
    PlaceAfter(h, nodes, co, mp, f, k);
    forall i ensures OutOfArray(nodes', i, n) { assert OutOfArray(nodes, i, n); }
    forall q ensures NodeVal(nodes', q) == NodeVal(nodes, q) { ChainingValues(nodes, mp, f, k, q); }
    ChainingFree(nodes, mp, f, k);
  }
}
