/** A table has as many entries as keys have a value, wherever they are stored; so a store changes their number by
    one at most (lua/ltable.c:431-448). */
module TableEntries {
  import opened TableNodes
  import opened TableValues
  import opened TableCounts
  import opened TablePlacing
  import opened TableRehash

  /** What makes every entry that is stored one that is found. */
  ghost predicate Stored(arr: seq<Val>, nodes: seq<Node>) {
    KeysOk(nodes) && (forall i :: FreeOk(nodes, i)) && forall i :: OutOfArray(nodes, i, |arr|)
  }

  /** The keys from `i` on that have a value in the array part. */
  ghost function ArrayKeys(arr: seq<Val>, i: nat): set<Key>
    decreases |arr| - i
  {
    if i >= |arr| then {} else (if arr[i] != Nil then {Int(i + 1)} else {}) + ArrayKeys(arr, i + 1)
  }

  lemma {:induction false} ArrayKeysAre(arr: seq<Val>, i: nat)
    ensures |ArrayKeys(arr, i)| == ArrRest(arr, i)
    ensures forall q :: q in ArrayKeys(arr, i) <==> q.Int? && i < q.n <= |arr| && arr[q.n - 1] != Nil
    decreases |arr| - i
  {
    if i < |arr| {
      ArrayKeysAre(arr, i + 1);
      assert Int(i + 1) !in ArrayKeys(arr, i + 1);
    }
  }

  /** The keys of the first `i` nodes that have a value. */
  ghost function NodeKeys(nodes: seq<Node>, i: nat): set<Key>
    requires i <= |nodes|
  {
    if i == 0 then {}
    else (if nodes[i - 1].val != Nil && nodes[i - 1].key.Used? then {nodes[i - 1].key.k} else {})
         + NodeKeys(nodes, i - 1)
  }

  ghost predicate HeldBelow(nodes: seq<Node>, i: nat, q: Key) {
    exists j :: 0 <= j < i && HoldsKey(nodes, j, q) && nodes[j].val != Nil
  }

  /** The last of the first `i` nodes adds its key, which no other node holds. */
  lemma OneNodeMore(nodes: seq<Node>, i: nat)
    requires 0 < i <= |nodes| && KeysOk(nodes) && forall j :: FreeOk(nodes, j)
    ensures var n := nodes[i - 1];
            if n.val == Nil then forall q :: HeldBelow(nodes, i, q) <==> HeldBelow(nodes, i - 1, q)
            else n.key.Used? && !HeldBelow(nodes, i - 1, n.key.k)
                 && forall q :: HeldBelow(nodes, i, q) <==> q == n.key.k || HeldBelow(nodes, i - 1, q)
  {
    if nodes[i - 1].val != Nil {
      assert FreeOk(nodes, i - 1);
      NodeKey(nodes, i - 1);
      var k := nodes[i - 1].key.k;
      forall j ensures 0 <= j < i - 1 ==> !HoldsKey(nodes, j, k) { assert SameKeyOk(nodes, i - 1, j); }
    }
  }

  lemma {:induction false} NodeKeysAre(nodes: seq<Node>, i: nat)
    requires i <= |nodes| && KeysOk(nodes) && forall j :: FreeOk(nodes, j)
    ensures |NodeKeys(nodes, i)| == HashRest(nodes, i, 0)
    ensures forall q :: q in NodeKeys(nodes, i) <==> HeldBelow(nodes, i, q)
  {
    if i > 0 {
      NodeKeysAre(nodes, i - 1);
      OneNodeMore(nodes, i);
      hide KeysOk, FreeOk, HeldBelow;
    }
  }

  ghost function KeysWithValue(arr: seq<Val>, nodes: seq<Node>): set<Key> {
    ArrayKeys(arr, 0) + NodeKeys(nodes, |nodes|)
  }

  /** The number of entries is the number of keys that have a value. */
  lemma EntriesAreKeys(arr: seq<Val>, nodes: seq<Node>)
    requires Stored(arr, nodes)
    ensures |KeysWithValue(arr, nodes)| == Entries(arr, nodes)
    ensures forall q :: q in KeysWithValue(arr, nodes) <==> Value(arr, nodes, q) != Nil
  {
    ArrayKeysAre(arr, 0);
    NodeKeysAre(nodes, |nodes|);
    forall q ensures q in NodeKeys(nodes, |nodes|) <==> !InArray(|arr|, q) && NodeVal(nodes, q) != Nil {
      if HeldBelow(nodes, |nodes|, q) {
        var j :| 0 <= j < |nodes| && HoldsKey(nodes, j, q) && nodes[j].val != Nil;
        FoundAt(nodes, q, j);
        assert OutOfArray(nodes, j, |arr|);
      }
      FindKeyIs(nodes, q);
    }
    assert ArrayKeys(arr, 0) !! NodeKeys(nodes, |nodes|);
  }

  /** Setting one key changes the number of entries by what it had and what it gets. */
  lemma OneKeySet(arr: seq<Val>, nodes: seq<Node>, arr': seq<Val>, nodes': seq<Node>, k: Key)
    requires Stored(arr, nodes) && Stored(arr', nodes')
    requires forall q :: q != k ==> Value(arr', nodes', q) == Value(arr, nodes, q)
    ensures Entries(arr', nodes') == Entries(arr, nodes) + One(Value(arr', nodes', k)) - One(Value(arr, nodes, k))
  {
    var K, K' := KeysWithValue(arr, nodes), KeysWithValue(arr', nodes');
    EntriesAreKeys(arr, nodes);
    EntriesAreKeys(arr', nodes');
    hide Stored, Value, KeysWithValue, Entries;
    assert K - {k} == K' - {k};
    assert |K| == |K - {k}| + One(Value(arr, nodes, k));
    assert |K'| == |K' - {k}| + One(Value(arr', nodes', k));
  }

  function One(v: Val): nat { if v == Nil then 0 else 1 }
}
