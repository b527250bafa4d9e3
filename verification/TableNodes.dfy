/** The hash part of a table (lua/ltable.c:7-17, 382-429): a chained scatter table with Brent's variation. The
    hash is any function of key and size. A chain is described by coordinates: every node in use has the
    number of its chain and its place in it. */
module TableNodes {

  datatype Val = Nil | V(v: int)

  /** Keys that are not nil. Numbers are integers. */
  datatype Key = Int(n: int) | Other(id: nat)

  /** A key of an empty entry may have been marked as dead by the collector. */
  datatype Slot = Free | Used(k: Key, dead: bool)

  datatype Node = Node(key: Slot, val: Val, next: int)

  const NONE := -1

  const EMPTY := Node(Free, Nil, NONE)

  type Hash = (Key, nat) -> nat

  function Main(h: Hash, size: nat, k: Key): nat
    requires size > 0
    ensures Main(h, size, k) < size
  {
    h(k, size) % size
  }

  predicate IsUsed(nodes: seq<Node>, i: int) { 0 <= i < |nodes| && nodes[i].key.Used? }

  datatype Place = Place(chain: nat, at: nat)

  // ---------------------------------------------------------------- invariants

  /** A link leads to the next place of the chain. */
  ghost predicate LinkOk(nodes: seq<Node>, co: seq<Place>, i: int)
    requires |co| == |nodes|
  {
    IsUsed(nodes, i) && nodes[i].next != NONE ==>
      IsUsed(nodes, nodes[i].next) && co[nodes[i].next] == Place(co[i].chain, co[i].at + 1)
  }

  predicate FreeOk(nodes: seq<Node>, i: int) { 0 <= i < |nodes| && nodes[i].key.Free? ==> nodes[i] == EMPTY }

  /** No two nodes share a place, and a node without a link is the last of its chain. */
  ghost predicate PairOk(nodes: seq<Node>, co: seq<Place>, i: int, j: int)
    requires |co| == |nodes|
  {
    IsUsed(nodes, i) && IsUsed(nodes, j) ==>
      && (i != j ==> co[i] != co[j])
      && (nodes[i].next == NONE && co[j].chain == co[i].chain ==> co[j].at <= co[i].at)
  }

  ghost predicate Chained(nodes: seq<Node>, co: seq<Place>) {
    && |co| == |nodes|
    && (forall i :: LinkOk(nodes, co, i)) && (forall i :: FreeOk(nodes, i)) && (forall i, j :: PairOk(nodes, co, i, j))
  }

  /** Each key is on the chain that begins at its main position. */
  ghost predicate HomeOk(h: Hash, nodes: seq<Node>, co: seq<Place>, i: int)
    requires |co| == |nodes|
  {
    IsUsed(nodes, i) ==>
      var m := Main(h, |nodes|, nodes[i].key.k);
      IsUsed(nodes, m) && co[m].chain == co[i].chain && co[m].at <= co[i].at
  }

  /** A key out of its main position collides with one that is in its own. */
  ghost predicate CollideOk(h: Hash, nodes: seq<Node>, i: int) {
    IsUsed(nodes, i) ==>
      var m := Main(h, |nodes|, nodes[i].key.k);
      m != i ==> IsUsed(nodes, m) && Main(h, |nodes|, nodes[m].key.k) == m
  }

  predicate SameKeyOk(nodes: seq<Node>, i: int, j: int) {
    0 <= i < |nodes| && 0 <= j < |nodes| && nodes[i].key.Used? && !nodes[i].key.dead && nodes[j].key == nodes[i].key ==>
      i == j
  }

  predicate DeadOk(nodes: seq<Node>, i: int) { IsUsed(nodes, i) && nodes[i].key.dead ==> nodes[i].val == Nil }

  ghost predicate KeysOk(nodes: seq<Node>) {
    (forall i, j :: SameKeyOk(nodes, i, j)) && (forall i :: DeadOk(nodes, i))
  }

  /** A key may come back at the address of a dead one; it is then met before the dead one. */
  ghost predicate OrderOk(nodes: seq<Node>, co: seq<Place>, i: int, j: int)
    requires |co| == |nodes|
  {
    IsUsed(nodes, i) && IsUsed(nodes, j) && !nodes[i].key.dead && nodes[j].key == Used(nodes[i].key.k, true) ==>
      co[i].at < co[j].at
  }

  ghost predicate HomesOk(h: Hash, nodes: seq<Node>, co: seq<Place>)
    requires |co| == |nodes|
  {
    (forall i :: HomeOk(h, nodes, co, i)) && (forall i :: CollideOk(h, nodes, i))
      && (forall i, j :: OrderOk(nodes, co, i, j))
  }

  ghost predicate NodesOk(h: Hash, nodes: seq<Node>, co: seq<Place>) {
    |nodes| > 0 && Chained(nodes, co) && HomesOk(h, nodes, co) && KeysOk(nodes)
  }

  predicate Absent(nodes: seq<Node>, k: Key) { forall i :: 0 <= i < |nodes| ==> nodes[i].key != Used(k, false) }

  // ---------------------------------------------------------------- consequences

  /** Each node has at most one predecessor. */
  lemma OnePredecessor(nodes: seq<Node>, co: seq<Place>, i: int, j: int)
    requires Chained(nodes, co) && IsUsed(nodes, i) && IsUsed(nodes, j) && nodes[i].next == nodes[j].next != NONE
    ensures i == j
  {
    assert LinkOk(nodes, co, i) && LinkOk(nodes, co, j) && PairOk(nodes, co, i, j);
  }

  /** The last place of any chain. */
  ghost function Depth(co: seq<Place>): nat {
    if co == [] then 0 else var d := Depth(co[..|co| - 1]); if co[|co| - 1].at > d then co[|co| - 1].at else d
  }

  lemma {:induction false} DepthBounds(co: seq<Place>, i: nat)
    requires i < |co|
    ensures co[i].at <= Depth(co)
    decreases |co|
  {
    if i < |co| - 1 { DepthBounds(co[..|co| - 1], i); }
  }

  /** A chain number that is not in use. */
  ghost function FreshChain(co: seq<Place>): nat {
    if co == [] then 0 else var d := FreshChain(co[..|co| - 1]);
      if co[|co| - 1].chain >= d then co[|co| - 1].chain + 1 else d
  }

  lemma {:induction false} FreshIsFresh(co: seq<Place>, i: nat)
    requires i < |co|
    ensures co[i].chain < FreshChain(co)
    decreases |co|
  {
    if i < |co| - 1 { FreshIsFresh(co[..|co| - 1], i); }
  }

  lemma NewChain(co: seq<Place>, c: nat)
    requires c >= FreshChain(co)
    ensures forall i :: 0 <= i < |co| ==> co[i].chain < c
  {
    forall i | 0 <= i < |co| ensures co[i].chain < c { FreshIsFresh(co, i); }
  }

  /** Walking from `c` one comes to every later node of the chain. */
  lemma WalkOn(nodes: seq<Node>, co: seq<Place>, c: int, i: int)
    requires Chained(nodes, co) && IsUsed(nodes, c) && IsUsed(nodes, i) && co[c].chain == co[i].chain
             && co[c].at <= co[i].at && c != i
    ensures nodes[c].next != NONE && IsUsed(nodes, nodes[c].next)
            && co[nodes[c].next] == Place(co[c].chain, co[c].at + 1)
    ensures co[nodes[c].next].at <= co[i].at
  {
    assert PairOk(nodes, co, c, i) && PairOk(nodes, co, i, c) && LinkOk(nodes, co, c);
  }

  // ---------------------------------------------------------------- a new key

  function NewNode(k: Key): Node { Node(Used(k, false), Nil, NONE) }

  /** What the proofs below use about the chains: no place of the chain `c` is taken. */
  ghost predicate Unused(co: seq<Place>, c: nat) { forall i :: 0 <= i < |co| ==> co[i].chain != c }

  lemma PlacedKeys(nodes: seq<Node>, mp: nat, n: Node, k: Key)
    requires KeysOk(nodes) && mp < |nodes| && n.key == Used(k, false) && Absent(nodes, k)
    ensures KeysOk(nodes[mp := n])
  {
    var nodes' := nodes[mp := n];
    forall i, j ensures SameKeyOk(nodes', i, j) { assert SameKeyOk(nodes, i, j); }
    forall i ensures DeadOk(nodes', i) { assert DeadOk(nodes, i); }
  }

  /** The main position is free. */
  lemma PlaceFree(h: Hash, nodes: seq<Node>, co: seq<Place>, k: Key, c: nat)
    requires NodesOk(h, nodes, co) && Absent(nodes, k) && Unused(co, c)
    requires nodes[Main(h, |nodes|, k)].key.Free?
    ensures var mp := Main(h, |nodes|, k); NodesOk(h, nodes[mp := NewNode(k)], co[mp := Place(c, 0)])
  {
    var mp := Main(h, |nodes|, k);
    var nodes', co' := nodes[mp := NewNode(k)], co[mp := Place(c, 0)];
    forall i ensures LinkOk(nodes', co', i) { assert LinkOk(nodes, co, i); }
    forall i ensures FreeOk(nodes', i) { assert FreeOk(nodes, i); }
    forall i, j ensures PairOk(nodes', co', i, j) { assert PairOk(nodes, co, i, j); }
    forall i ensures HomeOk(h, nodes', co', i) { assert HomeOk(h, nodes, co, i); }
    forall i ensures CollideOk(h, nodes', i) { assert CollideOk(h, nodes, i); }
    forall i, j ensures OrderOk(nodes', co', i, j) { assert OrderOk(nodes, co, i, j) && HomeOk(h, nodes, co, j); }
    PlacedKeys(nodes, mp, NewNode(k), k);
  }

  /** The main position holds an empty entry, which is reused in place; its link stays. */
  lemma PlaceEmpty(h: Hash, nodes: seq<Node>, co: seq<Place>, k: Key)
    requires NodesOk(h, nodes, co) && Absent(nodes, k)
    requires nodes[Main(h, |nodes|, k)].key.Used? && nodes[Main(h, |nodes|, k)].val == Nil
    ensures var mp := Main(h, |nodes|, k); NodesOk(h, nodes[mp := nodes[mp].(key := Used(k, false))], co)
  {
    var mp := Main(h, |nodes|, k);
    var nodes' := nodes[mp := nodes[mp].(key := Used(k, false))];
    forall i ensures LinkOk(nodes', co, i) { assert LinkOk(nodes, co, i); }
    forall i ensures FreeOk(nodes', i) { assert FreeOk(nodes, i); }
    forall i, j ensures PairOk(nodes', co, i, j) { assert PairOk(nodes, co, i, j); }
    forall i ensures HomeOk(h, nodes', co, i) { assert HomeOk(h, nodes, co, i); }
    forall i ensures CollideOk(h, nodes', i) { assert CollideOk(h, nodes, i); }
    forall i, j
      ensures OrderOk(nodes', co, i, j)
    {
      assert OrderOk(nodes, co, i, j) && HomeOk(h, nodes, co, j) && PairOk(nodes, co, mp, j);
    }
    PlacedKeys(nodes, mp, nodes[mp].(key := Used(k, false)), k);
  }

  /** The colliding node is out of its main position: it moves to the free node `n`, in place of which the chain
      is redone at its predecessor, and the new key takes its main position. */
  function Moved(nodes: seq<Node>, mp: nat, prev: nat, n: nat, k: Key): seq<Node>
    requires mp < |nodes| && prev < |nodes| && n < |nodes|
  {
    nodes[prev := nodes[prev].(next := n)][n := nodes[mp]][mp := NewNode(k)]
  }

  function MovedPlaces(co: seq<Place>, mp: nat, n: nat, c: nat): seq<Place>
    requires mp < |co| && n < |co|
  {
    co[n := co[mp]][mp := Place(c, 0)]
  }

  ghost predicate CanMove(h: Hash, nodes: seq<Node>, mp: nat, prev: nat, n: nat, k: Key) {
    && mp < |nodes| && prev < |nodes| && n < |nodes| && mp == Main(h, |nodes|, k) && nodes[mp].key.Used?
    && !nodes[mp].key.dead
    && Main(h, |nodes|, nodes[mp].key.k) != mp && nodes[n].key.Free? && nodes[prev].key.Used? && nodes[prev].next == mp
  }

  lemma MovedLink(h: Hash, nodes: seq<Node>, co: seq<Place>, mp: nat, prev: nat, n: nat, k: Key, c: nat, i: int)
    requires Chained(nodes, co) && CanMove(h, nodes, mp, prev, n, k) && prev != mp
    ensures LinkOk(Moved(nodes, mp, prev, n, k), MovedPlaces(co, mp, n, c), i)
  {
    assert LinkOk(nodes, co, i) && LinkOk(nodes, co, mp) && LinkOk(nodes, co, prev) && PairOk(nodes, co, i, prev);
  }

  lemma MovedPair(h: Hash, nodes: seq<Node>, co: seq<Place>, mp: nat, prev: nat, n: nat, k: Key, c: nat, i: int, j: int)
    requires Chained(nodes, co) && CanMove(h, nodes, mp, prev, n, k) && prev != mp && Unused(co, c)
    ensures PairOk(Moved(nodes, mp, prev, n, k), MovedPlaces(co, mp, n, c), i, j)
  {
    assert PairOk(nodes, co, if i == n then mp else i, if j == n then mp else j);
  }

  lemma MovedHome(h: Hash, nodes: seq<Node>, co: seq<Place>, mp: nat, prev: nat, n: nat, k: Key, c: nat, i: int)
    requires NodesOk(h, nodes, co) && CanMove(h, nodes, mp, prev, n, k)
    ensures HomeOk(h, Moved(nodes, mp, prev, n, k), MovedPlaces(co, mp, n, c), i)
    ensures CollideOk(h, Moved(nodes, mp, prev, n, k), i)
  {
    var o := if i == n then mp else i;
    assert HomeOk(h, nodes, co, o) && CollideOk(h, nodes, o) && CollideOk(h, nodes, mp);
  }

  lemma MovedOrder(h: Hash, nodes: seq<Node>, co: seq<Place>, mp: nat, prev: nat, n: nat, k: Key, c: nat, i: int,
                   j: int)
    requires NodesOk(h, nodes, co) && CanMove(h, nodes, mp, prev, n, k)
    ensures OrderOk(Moved(nodes, mp, prev, n, k), MovedPlaces(co, mp, n, c), i, j)
  {
    var i', j' := if i == n then mp else i, if j == n then mp else j;
    assert OrderOk(nodes, co, i', j') && CollideOk(h, nodes, j');
  }

  lemma MovedKey(nodes: seq<Node>, mp: nat, prev: nat, n: nat, k: Key, i: int, j: int)
    requires KeysOk(nodes) && mp < |nodes| && prev < |nodes| && n < |nodes| && nodes[n].key.Free? && nodes[mp].key.Used?
             && nodes[prev].key.Used? && Absent(nodes, k)
    ensures SameKeyOk(Moved(nodes, mp, prev, n, k), i, j) && DeadOk(Moved(nodes, mp, prev, n, k), i)
  {
    var i', j' := if i == n then mp else i, if j == n then mp else j;
    assert SameKeyOk(nodes, i', j') && DeadOk(nodes, i');
  }

  lemma PlaceMoved(h: Hash, nodes: seq<Node>, co: seq<Place>, mp: nat, prev: nat, n: nat, k: Key, c: nat)
    requires NodesOk(h, nodes, co) && CanMove(h, nodes, mp, prev, n, k) && Absent(nodes, k) && Unused(co, c)
    ensures NodesOk(h, Moved(nodes, mp, prev, n, k), MovedPlaces(co, mp, n, c))
  {
    var nodes', co' := Moved(nodes, mp, prev, n, k), MovedPlaces(co, mp, n, c);
    assert prev != mp by { assert LinkOk(nodes, co, prev); }
    forall i ensures FreeOk(nodes', i) { assert FreeOk(nodes, i); }
    assert |nodes'| == |nodes| == |co'|;
    hide Moved, MovedPlaces;
    forall i ensures LinkOk(nodes', co', i) { MovedLink(h, nodes, co, mp, prev, n, k, c, i); }
    forall i, j ensures PairOk(nodes', co', i, j) { MovedPair(h, nodes, co, mp, prev, n, k, c, i, j); }
    forall i
      ensures HomeOk(h, nodes', co', i) && CollideOk(h, nodes', i)
    {
      MovedHome(h, nodes, co, mp, prev, n, k, c, i);
    }
    forall i, j ensures OrderOk(nodes', co', i, j) { MovedOrder(h, nodes, co, mp, prev, n, k, c, i, j); }
    forall i, j ensures SameKeyOk(nodes', i, j) { MovedKey(nodes, mp, prev, n, k, i, j); }
    forall i ensures DeadOk(nodes', i) { MovedKey(nodes, mp, prev, n, k, i, i); }
  }

  /** The colliding node is in its main position: the new key goes to the free node `n`, right after it. */
  function Chaining(nodes: seq<Node>, mp: nat, n: nat, k: Key): seq<Node>
    requires mp < |nodes| && n < |nodes|
  {
    nodes[n := Node(Used(k, false), Nil, nodes[mp].next)][mp := nodes[mp].(next := n)]
  }

  function Shifted(p: Place, after: Place): Place {
    if p.chain == after.chain && p.at > after.at then p.(at := p.at + 1) else p
  }

  function ChainingPlaces(co: seq<Place>, mp: nat, n: nat): (r: seq<Place>)
    requires mp < |co| && n < |co|
    ensures |r| == |co|
            && forall i ::
                  0 <= i < |co| ==>
                    r[i] == if i == n then Place(co[mp].chain, co[mp].at + 1) else Shifted(co[i], co[mp])
  {
    seq(|co|, i requires 0 <= i < |co| => if i == n then Place(co[mp].chain, co[mp].at + 1) else Shifted(co[i], co[mp]))
  }

  ghost predicate CanChain(h: Hash, nodes: seq<Node>, mp: nat, n: nat, k: Key) {
    && mp < |nodes| && n < |nodes| && mp == Main(h, |nodes|, k) && nodes[mp].key.Used? && !nodes[mp].key.dead
    && Main(h, |nodes|, nodes[mp].key.k) == mp && nodes[n].key.Free?
  }

  lemma ChainingLink(h: Hash, nodes: seq<Node>, co: seq<Place>, mp: nat, n: nat, k: Key, i: int)
    requires Chained(nodes, co) && CanChain(h, nodes, mp, n, k)
    ensures LinkOk(Chaining(nodes, mp, n, k), ChainingPlaces(co, mp, n), i)
  {
    assert LinkOk(nodes, co, i) && LinkOk(nodes, co, mp) && PairOk(nodes, co, i, mp);
  }

  lemma ChainingPair(h: Hash, nodes: seq<Node>, co: seq<Place>, mp: nat, n: nat, k: Key, i: int, j: int)
    requires Chained(nodes, co) && CanChain(h, nodes, mp, n, k)
    ensures PairOk(Chaining(nodes, mp, n, k), ChainingPlaces(co, mp, n), i, j)
  {
    assert PairOk(nodes, co, i, j) && PairOk(nodes, co, mp, j) && PairOk(nodes, co, i, mp);
  }

  lemma ChainingHome(h: Hash, nodes: seq<Node>, co: seq<Place>, mp: nat, n: nat, k: Key, i: int)
    requires NodesOk(h, nodes, co) && CanChain(h, nodes, mp, n, k)
    ensures HomeOk(h, Chaining(nodes, mp, n, k), ChainingPlaces(co, mp, n), i)
    ensures CollideOk(h, Chaining(nodes, mp, n, k), i)
  {
    assert HomeOk(h, nodes, co, i) && CollideOk(h, nodes, i);
  }

  lemma ChainingOrder(h: Hash, nodes: seq<Node>, co: seq<Place>, mp: nat, n: nat, k: Key, i: int, j: int)
    requires NodesOk(h, nodes, co) && CanChain(h, nodes, mp, n, k)
    ensures OrderOk(Chaining(nodes, mp, n, k), ChainingPlaces(co, mp, n), i, j)
  {
    assert OrderOk(nodes, co, i, j) && HomeOk(h, nodes, co, i) && HomeOk(h, nodes, co, j) && PairOk(nodes, co, mp, j);
  }

  lemma ChainingKey(nodes: seq<Node>, mp: nat, n: nat, k: Key, i: int, j: int)
    requires KeysOk(nodes) && mp < |nodes| && n < |nodes| && nodes[n].key.Free? && nodes[mp].key.Used?
             && Absent(nodes, k)
    ensures SameKeyOk(Chaining(nodes, mp, n, k), i, j) && DeadOk(Chaining(nodes, mp, n, k), i)
  {
    assert SameKeyOk(nodes, i, j) && DeadOk(nodes, i);
  }

  lemma PlaceAfter(h: Hash, nodes: seq<Node>, co: seq<Place>, mp: nat, n: nat, k: Key)
    requires NodesOk(h, nodes, co) && CanChain(h, nodes, mp, n, k) && Absent(nodes, k)
    ensures NodesOk(h, Chaining(nodes, mp, n, k), ChainingPlaces(co, mp, n))
  {
    var nodes', co' := Chaining(nodes, mp, n, k), ChainingPlaces(co, mp, n);
    forall i ensures FreeOk(nodes', i) { assert FreeOk(nodes, i); }
    assert |nodes'| == |nodes| == |co'|;
    hide Chaining, ChainingPlaces;
    forall i ensures LinkOk(nodes', co', i) { ChainingLink(h, nodes, co, mp, n, k, i); }
    forall i, j ensures PairOk(nodes', co', i, j) { ChainingPair(h, nodes, co, mp, n, k, i, j); }
    forall i ensures HomeOk(h, nodes', co', i) && CollideOk(h, nodes', i) { ChainingHome(h, nodes, co, mp, n, k, i); }
    forall i, j ensures OrderOk(nodes', co', i, j) { ChainingOrder(h, nodes, co, mp, n, k, i, j); }
    forall i, j ensures SameKeyOk(nodes', i, j) { ChainingKey(nodes, mp, n, k, i, j); }
    forall i ensures DeadOk(nodes', i) { ChainingKey(nodes, mp, n, k, i, i); }
  }
}
