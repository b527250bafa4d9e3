/** Why a rehash loses nothing and leaves room for the pending key (lua/ltable.c:189-348). */
module TableRehash {
  import opened TableNodes
  import opened TableSizes
  import opened TableValues
  import opened TableCounts
  import opened TablePlacing

  // ---------------------------------------------------------------- entries put back so far

  /** What is to be found for `q` when the old array has been put back up to `a` and the old nodes from `b` on. */
  function Expect(arr: seq<Val>, nodes: seq<Node>, a: nat, b: nat, q: Key): Val
    requires a <= |arr|
  {
    if InArray(a, q) then arr[q.n - 1]
    else var f := FindKey(nodes, q); if b <= f < |nodes| then nodes[f].val else Nil
  }

  function Lesser(m: nat, n: nat): nat { if m < n then m else n }

  /** The array part with another size. */
  function Resized(arr: seq<Val>, n: nat): (r: seq<Val>)
    ensures |r| == n && forall i :: 0 <= i < n ==> r[i] == if i < |arr| then arr[i] else Nil
  {
    if n <= |arr| then arr[..n] else arr + seq(n - |arr|, _ => Nil)
  }

  /** The table (`arr'`, `nodes'`) has got back what is expected. */
  ghost predicate Restored(arr: seq<Val>, nodes: seq<Node>, a: nat, b: nat, arr': seq<Val>, nodes': seq<Node>)
    requires a <= |arr|
  {
    forall q :: Value(arr', nodes', q) == Expect(arr, nodes, a, b, q)
  }

  lemma ExpectStart(arr: seq<Val>, nodes: seq<Node>, n: nat, size: nat)
    ensures Restored(arr, nodes, Lesser(n, |arr|), |nodes|, Resized(arr, n), EmptyNodes(size))
  {
    forall q ensures Value(Resized(arr, n), EmptyNodes(size), q) == Expect(arr, nodes, Lesser(n, |arr|), |nodes|, q) {
      FindKeyIs(nodes, q);
      NotFound(EmptyNodes(size), q);
    }
  }

  /** Nothing to put back, or one entry has been put back. */
  ghost predicate PutOne(k: Key, v: Val, arr': seq<Val>, nodes': seq<Node>, arr'': seq<Val>, nodes'': seq<Node>) {
    if v == Nil then arr'' == arr' && nodes'' == nodes'
    else forall q :: Value(arr'', nodes'', q) == if q == k then v else Value(arr', nodes', q)
  }

  lemma IndexBack(arr: seq<Val>, nodes: seq<Node>, a: nat, arr': seq<Val>, nodes': seq<Node>, arr'': seq<Val>,
                  nodes'': seq<Node>)
    requires a < |arr| && Restored(arr, nodes, a, |nodes|, arr', nodes')
             && PutOne(Int(a + 1), arr[a], arr', nodes', arr'', nodes'')
    ensures Restored(arr, nodes, a + 1, |nodes|, arr'', nodes'')
  {
    forall q ensures Value(arr'', nodes'', q) == Expect(arr, nodes, a + 1, |nodes|, q) {
      FindKeyIs(nodes, q);
      assert Value(arr', nodes', q) == Expect(arr, nodes, a, |nodes|, q);
    }
  }

  lemma NodeKey(nodes: seq<Node>, b: nat)
    requires b < |nodes| && KeysOk(nodes) && FreeOk(nodes, b) && nodes[b].val != Nil
    ensures nodes[b].key.Used? && HoldsKey(nodes, b, nodes[b].key.k)
  {
    assert DeadOk(nodes, b);
  }

  lemma NodeBack(arr: seq<Val>, nodes: seq<Node>, b: nat, arr': seq<Val>, nodes': seq<Node>, arr'': seq<Val>,
                 nodes'': seq<Node>)
    requires b < |nodes| && KeysOk(nodes) && FreeOk(nodes, b) && OutOfArray(nodes, b, |arr|)
    requires Restored(arr, nodes, |arr|, b + 1, arr', nodes')
    requires if nodes[b].key.Used? then PutOne(nodes[b].key.k, nodes[b].val, arr', nodes', arr'', nodes'')
             else arr'' == arr' && nodes'' == nodes'
    ensures Restored(arr, nodes, |arr|, b, arr'', nodes'')
  {
    if nodes[b].val != Nil { NodeKey(nodes, b); }
    forall q ensures Value(arr'', nodes'', q) == Expect(arr, nodes, |arr|, b, q) {
      FindKeyIs(nodes, q);
      if HoldsKey(nodes, b, q) { FoundAt(nodes, q, b); }
      assert Value(arr', nodes', q) == Expect(arr, nodes, |arr|, b + 1, q);
    }
  }

  lemma ExpectEnd(arr: seq<Val>, nodes: seq<Node>, arr': seq<Val>, nodes': seq<Node>)
    requires Restored(arr, nodes, |arr|, 0, arr', nodes')
    ensures forall q :: Value(arr', nodes', q) == Value(arr, nodes, q)
  {
    forall q ensures Value(arr', nodes', q) == Value(arr, nodes, q) {
      FindKeyIs(nodes, q);
      assert Value(arr', nodes', q) == Expect(arr, nodes, |arr|, 0, q);
    }
  }

  // ---------------------------------------------------------------- sizes

  /** How many entries a table has. */
  ghost function Entries(arr: seq<Val>, nodes: seq<Node>): nat { ArrRest(arr, 0) + HashRest(nodes, |nodes|, 0) }

  /** How many of them have no place in an array part of size `n`. */
  ghost function Left(arr: seq<Val>, nodes: seq<Node>, n: nat): nat { ArrRest(arr, n) + HashRest(nodes, |nodes|, n) }

  ghost function Indices(arr: seq<Val>, nodes: seq<Node>, k: Key): set<int> {
    ArrKeys(arr, |arr|) + HashInts(nodes, 0) + if InArray(MAXASIZE, k) then {k.n} else {}
  }

  /** The array indices that have a value, or will have one with the new key `k`. */
  ghost function IndicesWith(arr: seq<Val>, nodes: seq<Node>, k: Key): set<int> {
    set x: int | 1 <= x <= MAXASIZE && (Value(arr, nodes, Int(x)) != Nil || k == Int(x))
  }

  lemma HashIndex(arr: seq<Val>, nodes: seq<Node>, x: int)
    requires KeysOk(nodes) && (forall i :: OutOfArray(nodes, i, |arr|))
    ensures LiveFrom(nodes, 0, Int(x)) <==> !InArray(|arr|, Int(x)) && NodeVal(nodes, Int(x)) != Nil
  {
    FindKeyIs(nodes, Int(x));
    var f := FindKey(nodes, Int(x));
    if f >= 0 { FoundAt(nodes, Int(x), f); assert OutOfArray(nodes, f, |arr|); }
    hide FindKey;
    if LiveFrom(nodes, 0, Int(x)) {
      var j :| 0 <= j && HoldsKey(nodes, j, Int(x)) && nodes[j].val != Nil;
      FoundAt(nodes, Int(x), j);
    }
  }

  lemma IndicesAre(arr: seq<Val>, nodes: seq<Node>, k: Key)
    requires KeysOk(nodes) && (forall i :: OutOfArray(nodes, i, |arr|)) && |arr| <= MAXASIZE
    ensures Indices(arr, nodes, k) == IndicesWith(arr, nodes, k)
  {
    forall x ensures x in Indices(arr, nodes, k) <==> x in IndicesWith(arr, nodes, k) {
      HashIndex(arr, nodes, x);
      hide LiveFrom, NodeVal;
    }
  }

  lemma Apart(arr: seq<Val>, nodes: seq<Node>, k: Key)
    requires (forall i :: OutOfArray(nodes, i, |arr|)) && Absent(nodes, k) && !InArray(|arr|, k)
    ensures ArrKeys(arr, |arr|) !! HashInts(nodes, 0)
    ensures InArray(MAXASIZE, k) ==> k.n !in ArrKeys(arr, |arr|) + HashInts(nodes, 0)
  {
    forall x | x in HashInts(nodes, 0) ensures !InArray(|arr|, Int(x)) && Int(x) != k {
      var j :| HoldsKey(nodes, j, Int(x)) && nodes[j].val != Nil;
      assert HoldsKey(nodes, j, Int(x)) && OutOfArray(nodes, j, |arr|);
    }
  }

  lemma FewIndices(arr: seq<Val>, nodes: seq<Node>, k: Key)
    requires |arr| <= MAXASIZE
    ensures |Indices(arr, nodes, k)| <= MAXASIZE
    ensures forall x :: x in Indices(arr, nodes, k) ==> 1 <= x
  {
    var K := Indices(arr, nodes, k);
    assert UpTo(K, MAXASIZE) == K;
    CountAtMost(K, MAXASIZE);
  }

  lemma BestFits(K: set<int>, n: nat, na: nat)
    requires BestSize(K, n, na) && |K| <= MAXASIZE
    ensures n <= MAXASIZE
  {
    if n != 0 {
      var i :| n == Pow2(i) && Dense(K, n);
      CountWhole(K, n);
      FewBits(i);
      MaxASize(i);
    }
  }

  lemma UnionSize(A: set<int>, B: set<int>)
    ensures |A + B| <= |A| + |B|
  {
    assert A + B == A + (B - A);
    SubsetSize(B - A, B);
  }

  lemma SplitCount(arr: seq<Val>, nodes: seq<Node>, k: Key, n: nat)
    ensures Count(Indices(arr, nodes, k), n) <= Count(ArrKeys(arr, |arr|), n) + Count(HashInts(nodes, 0), n)
            + if InArray(n, k) then 1 else 0
  {
    var A, B, C := ArrKeys(arr, |arr|), HashInts(nodes, 0), if InArray(MAXASIZE, k) then {k.n} else {};
    assert UpTo(A + B + C, n) == UpTo(A, n) + UpTo(B, n) + UpTo(C, n);
    UnionSize(UpTo(A, n), UpTo(B, n));
    UnionSize(UpTo(A, n) + UpTo(B, n), UpTo(C, n));
    if InArray(MAXASIZE, k) && InArray(n, k) { assert UpTo(C, n) == {k.n}; } else { assert UpTo(C, n) == {}; }
  }

  /** The hash part asked for has room for every entry that does not go to the array part, and for the new key. */
  lemma EnoughRoom(arr: seq<Val>, nodes: seq<Node>, k: Key, n: nat)
    requires KeysOk(nodes) && n <= MAXASIZE && forall j :: FreeOk(nodes, j)
    ensures Entries(arr, nodes) + 1 - Count(Indices(arr, nodes, k), n) >= Left(arr, nodes, n) + if InArray(n, k) then 0
            else 1
  {
    SplitCount(arr, nodes, k, n);
    ArrSplit(arr, n);
    HashSplit(nodes, 0, n);
  }

  /** The keys counted, one after the other, are the indices in use with the new key. */
  lemma CountedAll(arr: seq<Val>, nodes: seq<Node>, k: Key)
    requires |arr| <= MAXASIZE && (forall i :: OutOfArray(nodes, i, |arr|)) && Absent(nodes, k) && !InArray(|arr|, k)
    ensures var A, B, I := ArrKeys(arr, |arr|), HashInts(nodes, 0), Indices(arr, nodes, k);
            && A !! B
            && (if InArray(MAXASIZE, k) then k.n !in A + B && I == A + B + {k.n} else I == A + B)
            && |I| == ArrRest(arr, 0) + |B| + (if InArray(MAXASIZE, k) then 1 else 0)
            && |I| <= MAXASIZE && forall x :: x in I ==> 1 <= x
  {
    Apart(arr, nodes, k);
    ArrCount(arr, |arr|);
    FewIndices(arr, nodes, k);
    hide ArrKeys, HashInts;
  }

  lemma GoodSizes(arr: seq<Val>, nodes: seq<Node>, k: Key, n: nat, na: nat)
    requires |arr| <= MAXASIZE && KeysOk(nodes) && (forall j :: FreeOk(nodes, j))
             && BestSize(Indices(arr, nodes, k), n, na)
    ensures n <= MAXASIZE && Entries(arr, nodes) + 1 - na >= Left(arr, nodes, n) + if InArray(n, k) then 0 else 1
  {
    FewIndices(arr, nodes, k);
    BestFits(Indices(arr, nodes, k), n, na);
    EnoughRoom(arr, nodes, k, n);
  }
}
