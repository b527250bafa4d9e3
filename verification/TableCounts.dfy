/** Counting the entries of a table before a rehash (lua/ltable.c:210-260). */
module TableCounts {
  import opened TableNodes
  import opened TableSizes
  import opened TableValues

  // ---------------------------------------------------------------- counts by slice

  lemma FewSlices(k: nat)
    requires 1 <= k <= MAXASIZE
    ensures CeilLog2(k) <= MAXBITS
  {
    CeilLog2Is(k);
    MaxASize(CeilLog2(k));
  }

  lemma SliceOf(k: nat, l: nat)
    requires 1 <= k
    ensures (k <= Pow2(l) && (l > 0 ==> k > Pow2(l - 1))) <==> l == CeilLog2(k)
  {
    var c := CeilLog2(k);
    CeilLog2Is(k);
    hide Pow2, CeilLog2;
    if l < c {
      PowOrder(l, c - 1);
    } else if l > c {
      PowOrder(c, l - 1);
    }
  }

  lemma PowOrder(m: nat, n: nat)
    requires m <= n
    ensures Pow2(m) <= Pow2(n)
  {
    if m < n { Pow2Grows(m, n); }
  }

  lemma CountOne(nums: seq<int>, K: set<int>, k: int)
    requires Counted(nums, K) && 1 <= k <= MAXASIZE && k !in K
    ensures CeilLog2(k) <= MAXBITS
    ensures Counted(nums[CeilLog2(k) := nums[CeilLog2(k)] + 1], K + {k})
  {
    FewSlices(k);
    var nums' := nums[CeilLog2(k) := nums[CeilLog2(k)] + 1];
    forall l | 0 <= l <= MAXBITS ensures nums'[l] == |Slice(K + {k}, l)| {
      SliceOf(k, l);
      if l == CeilLog2(k) {
        assert Slice(K + {k}, l) == Slice(K, l) + {k};
      } else {
        assert Slice(K + {k}, l) == Slice(K, l);
      }
    }
  }

  lemma NothingCounted(nums: seq<int>)
    requires |nums| == MAXBITS + 1 && forall l :: 0 <= l <= MAXBITS ==> nums[l] == 0
    ensures Counted(nums, {})
  {
    forall l | 0 <= l <= MAXBITS ensures nums[l] == |Slice({}, l)| { assert Slice({}, l) == {}; }
  }

  // ---------------------------------------------------------------- the array part

  predicate HasIndex(arr: seq<Val>, k: int) { 1 <= k <= |arr| && arr[k - 1] != Nil }

  /** The indices up to `i` that hold a value. */
  ghost function ArrKeys(arr: seq<Val>, i: nat): set<int>
    requires i <= |arr|
  {
    set k | 1 <= k <= i && HasIndex(arr, k)
  }

  /** How many entries there are from place `i` on. */
  ghost function ArrRest(arr: seq<Val>, i: nat): nat
    decreases |arr| - i
  {
    if i >= |arr| then 0 else (if arr[i] != Nil then 1 else 0) + ArrRest(arr, i + 1)
  }

  lemma ArrKeysStep(arr: seq<Val>, i: nat)
    requires 0 < i <= |arr|
    ensures ArrKeys(arr, i) == ArrKeys(arr, i - 1) + (if arr[i - 1] != Nil then {i} else {})
  {
  }

  lemma {:induction false} ArrCount(arr: seq<Val>, i: nat)
    requires i <= |arr|
    ensures |ArrKeys(arr, i)| + ArrRest(arr, i) == ArrRest(arr, 0)
  {
    if i > 0 {
      ArrCount(arr, i - 1);
      ArrKeysStep(arr, i);
    } else {
      assert ArrKeys(arr, 0) == {};
    }
  }

  lemma ArrSplit(arr: seq<Val>, n: nat)
    ensures Count(ArrKeys(arr, |arr|), n) + ArrRest(arr, n) == ArrRest(arr, 0)
  {
    var m := if n <= |arr| then n else |arr|;
    assert UpTo(ArrKeys(arr, |arr|), n) == ArrKeys(arr, m);
    ArrCount(arr, m);
  }

  lemma NoKeys(arr: seq<Val>)
    ensures ArrKeys(arr, 0) == {}
  {
  }

  /** One more index of the slice `lg` has been looked at. */
  lemma CountIndex(arr: seq<Val>, nums: seq<int>, lg: nat, i: nat)
    requires |arr| <= MAXASIZE && 1 <= i <= |arr| && lg <= MAXBITS && i <= Pow2(lg) && (lg > 0 ==> i > Pow2(lg - 1))
    requires Counted(nums, ArrKeys(arr, i - 1))
    ensures var hit := if arr[i - 1] != Nil then 1 else 0;
            Counted(nums[lg := nums[lg] + hit], ArrKeys(arr, i)) && |ArrKeys(arr, i)| == |ArrKeys(arr, i - 1)| + hit
  {
    ArrKeysStep(arr, i);
    if arr[i - 1] != Nil {
      SliceOf(i, lg);
      CountOne(nums, ArrKeys(arr, i - 1), i);
    } else {
      assert nums[lg := nums[lg] + 0] == nums;
    }
  }

  /** The inner loop of `numusearray`: `lc` counts the slice `lg` up to `lim`. */
  method CountUpTo(arr: seq<Val>, lg: nat, from: nat, lim: nat, ghost nums: seq<int>) returns (lc: nat, i: nat)
    requires |arr| <= MAXASIZE && 1 <= from <= lim + 1 && lim <= |arr| && lg <= MAXBITS && lim <= Pow2(lg)
             && (lg > 0 ==> from > Pow2(lg - 1) || from > lim)
    requires Counted(nums, ArrKeys(arr, from - 1))
    ensures i == lim + 1 && Counted(nums[lg := nums[lg] + lc], ArrKeys(arr, lim))
            && |ArrKeys(arr, lim)| == |ArrKeys(arr, from - 1)| + lc
  {
    i, lc := from, 0;
    assert nums[lg := nums[lg]] == nums;
    hide Counted, ArrKeys, Pow2;
    while i <= lim
      invariant from <= i <= lim + 1 && lc >= 0
      invariant Counted(nums[lg := nums[lg] + lc], ArrKeys(arr, i - 1))
                && |ArrKeys(arr, i - 1)| == |ArrKeys(arr, from - 1)| + lc
    {
      CountIndex(arr, nums[lg := nums[lg] + lc], lg, i);
      assert nums[lg := nums[lg] + lc][lg := nums[lg] + lc + 1] == nums[lg := nums[lg] + lc + 1];
      if arr[i - 1] != Nil { lc := lc + 1; }
      i := i + 1;
    }
  }

  /** Where the slices before `lg` end in an array part of size `n`. */
  function SliceEnd(lg: nat, n: nat): nat { if lg == 0 then 0 else if Pow2(lg - 1) <= n then Pow2(lg - 1) else n }

  lemma SliceEnds(lg: nat, n: nat)
    requires n <= MAXASIZE
    ensures SliceEnd(lg, n) <= n && SliceEnd(lg, n) <= SliceEnd(lg + 1, n)
            && SliceEnd(lg + 1, n) == (if Pow2(lg) > n then n else Pow2(lg))
    ensures lg > 0 ==> SliceEnd(lg, n) >= Pow2(lg - 1) || SliceEnd(lg, n) == n
    ensures lg > MAXBITS ==> SliceEnd(lg, n) == n
  {
    MaxASize(lg);
    if lg > 0 { Pow2Grows(lg - 1, lg); }
  }

  /** `numusearray` */
  method NumUseArray(arr: seq<Val>, nums: array<int>) returns (ause: nat)
    requires nums.Length == MAXBITS + 1 && |arr| <= MAXASIZE && forall l :: 0 <= l <= MAXBITS ==> nums[l] == 0
    modifies nums
    ensures Counted(nums[..], ArrKeys(arr, |arr|)) && ause == ArrRest(arr, 0)
  {
    NothingCounted(nums[..]);
    NoKeys(arr);
    ArrCount(arr, |arr|);
    ause := 0;
    var i, lg, ttlg := 1, 0, 1;
    assert ArrRest(arr, |arr|) == 0 && SliceEnd(0, |arr|) == 0;
    hide Counted, ArrKeys, ArrRest, SliceEnd;
    while lg <= MAXBITS
      invariant 0 <= lg <= MAXBITS + 1 && ttlg == Pow2(lg) && i == SliceEnd(lg, |arr|) + 1
      invariant i <= |arr| + 1 && Counted(nums[..], ArrKeys(arr, i - 1)) && ause == |ArrKeys(arr, i - 1)|
    {
      SliceEnds(lg, |arr|);
      var lim := ttlg;
      if lim > |arr| {
        lim := |arr|;
        if i > lim { return; }
      }
      ghost var sofar := nums[..];
      var lc, next := CountUpTo(arr, lg, i, lim, sofar);
      i := next;
      nums[lg] := nums[lg] + lc;
      assert nums[..] == sofar[lg := sofar[lg] + lc];
      ause := ause + lc;
      lg, ttlg := lg + 1, ttlg * 2;
    }
    SliceEnds(lg, |arr|);
  }

  // ---------------------------------------------------------------- the hash part

  predicate InArray(n: nat, k: Key) { k.Int? && 1 <= k.n <= n }

  /** How many of the first `i` nodes hold an entry whose key has no place in an array part of size `n`. */
  ghost function HashRest(nodes: seq<Node>, i: nat, n: nat): nat
    requires i <= |nodes|
  {
    if i == 0 then 0
    else (if nodes[i - 1].val != Nil && !(nodes[i - 1].key.Used? && InArray(n, nodes[i - 1].key.k)) then 1 else 0)
         + HashRest(nodes, i - 1, n)
  }

  ghost predicate LiveFrom(nodes: seq<Node>, i: int, k: Key) {
    exists j :: i <= j && HoldsKey(nodes, j, k) && nodes[j].val != Nil
  }

  /** The integer keys, fit for an array part, of the nodes from `i` on. */
  ghost function HashInts(nodes: seq<Node>, i: nat): set<int> {
    set k | 1 <= k <= MAXASIZE && LiveFrom(nodes, i, Int(k))
  }

  predicate Counts(n: Node) { n.val != Nil && n.key.Used? && InArray(MAXASIZE, n.key.k) }

  lemma HashIntsStep(nodes: seq<Node>, i: nat)
    requires KeysOk(nodes) && i < |nodes|
    ensures HashInts(nodes, i) == HashInts(nodes, i + 1) + (if Counts(nodes[i]) then {nodes[i].key.k.n} else {})
    ensures Counts(nodes[i]) ==> nodes[i].key.k.n !in HashInts(nodes, i + 1)
  {
    assert DeadOk(nodes, i);
    if Counts(nodes[i]) {
      assert HoldsKey(nodes, i, nodes[i].key.k);
      forall j | i + 1 <= j < |nodes| ensures !HoldsKey(nodes, j, nodes[i].key.k) { assert SameKeyOk(nodes, i, j); }
    }
    forall k | 1 <= k <= MAXASIZE && LiveFrom(nodes, i, Int(k))
      ensures LiveFrom(nodes, i + 1, Int(k)) || (Counts(nodes[i]) && nodes[i].key.k.n == k)
    {
      var j :| i <= j && HoldsKey(nodes, j, Int(k)) && nodes[j].val != Nil;
    }
  }

  lemma HashCountStep(nodes: seq<Node>, i: nat, n: nat)
    requires KeysOk(nodes) && i < |nodes| && n <= MAXASIZE
    ensures Count(HashInts(nodes, i), n) == Count(HashInts(nodes, i + 1), n) + if Counts(nodes[i])
            && nodes[i].key.k.n <= n then 1 else 0
  {
    HashIntsStep(nodes, i);
    var was, now := HashInts(nodes, i + 1), HashInts(nodes, i);
    hide HashInts;
    if Counts(nodes[i]) && nodes[i].key.k.n <= n {
      assert UpTo(now, n) == UpTo(was, n) + {nodes[i].key.k.n};
    } else {
      assert UpTo(now, n) == UpTo(was, n);
    }
  }

  lemma {:induction false} HashSplit(nodes: seq<Node>, i: nat, n: nat)
    requires KeysOk(nodes) && i <= |nodes| && n <= MAXASIZE && forall j :: FreeOk(nodes, j)
    ensures Count(HashInts(nodes, i), n) + HashRest(nodes, |nodes|, n) - HashRest(nodes, i, n)
            == HashRest(nodes, |nodes|, 0) - HashRest(nodes, i, 0)
    decreases |nodes| - i
  {
    if i == |nodes| {
      assert UpTo(HashInts(nodes, i), n) == {};
    } else {
      HashSplit(nodes, i + 1, n);
      HashCountStep(nodes, i, n);
      assert FreeOk(nodes, i);
    }
  }

  /** `countint` */
  method CountInt(key: Key, nums: array<int>, ghost K: set<int>) returns (c: nat)
    requires nums.Length == MAXBITS + 1 && Counted(nums[..], K) && (InArray(MAXASIZE, key) ==> key.n !in K)
    modifies nums
    ensures Counted(nums[..], if InArray(MAXASIZE, key) then K + {key.n} else K)
    ensures c == if InArray(MAXASIZE, key) then 1 else 0
  {
    if key.Int? && 0 < key.n <= MAXASIZE {
      CountOne(nums[..], K, key.n);
      assert nums[..][CeilLog2(key.n) := nums[CeilLog2(key.n)] + 1]
             == nums[..][CeilLog2(key.n) := nums[..][CeilLog2(key.n)] + 1];
      nums[CeilLog2(key.n)] := nums[CeilLog2(key.n)] + 1;
      return 1;
    }
    return 0;
  }

  lemma NewInt(nodes: seq<Node>, A: set<int>, i: nat)
    requires KeysOk(nodes) && i < |nodes| && A !! HashInts(nodes, 0)
    ensures Counts(nodes[i]) ==> nodes[i].key.k.n !in A + HashInts(nodes, i + 1)
    ensures A + HashInts(nodes, i) == if Counts(nodes[i]) then A + HashInts(nodes, i + 1) + {nodes[i].key.k.n}
            else A + HashInts(nodes, i + 1)
  {
    HashIntsStep(nodes, i);
    IntsAntitone(nodes, i);
  }

  /** The nodes from `i` on have been counted, after the keys of `A`. */
  ghost predicate Tally(nodes: seq<Node>, A: set<int>, i: nat, nums: seq<int>, totaluse: int, ause: int)
    requires i <= |nodes|
  {
    && Counted(nums, A + HashInts(nodes, i)) && ause == |HashInts(nodes, i)|
    && totaluse == HashRest(nodes, |nodes|, 0) - HashRest(nodes, i, 0)
  }

  lemma TallyIs(nodes: seq<Node>, A: set<int>, nums: seq<int>, totaluse: int, ause: int)
    requires Tally(nodes, A, 0, nums, totaluse, ause)
    ensures Counted(nums, A + HashInts(nodes, 0)) && ause == |HashInts(nodes, 0)|
            && totaluse == HashRest(nodes, |nodes|, 0)
  {
  }

  lemma TallyNone(nodes: seq<Node>, A: set<int>, nums: seq<int>)
    requires Counted(nums, A)
    ensures Tally(nodes, A, |nodes|, nums, 0, 0)
  {
    assert HashInts(nodes, |nodes|) == {} && A + {} == A;
  }

  lemma TallyStep(nodes: seq<Node>, A: set<int>, i: nat, nums: seq<int>, totaluse: int, ause: int, nums': seq<int>,
                  c: int)
    requires i < |nodes| && KeysOk(nodes) && FreeOk(nodes, i) && A !! HashInts(nodes, 0)
             && Tally(nodes, A, i + 1, nums, totaluse, ause)
    requires if nodes[i].val == Nil then nums' == nums && c == 0
             else c == (if Counts(nodes[i]) then 1 else 0) &&
                  Counted(nums', if Counts(nodes[i]) then A + HashInts(nodes, i + 1) + {nodes[i].key.k.n}
                    else A + HashInts(nodes, i + 1))
    ensures Tally(nodes, A, i, nums', totaluse + if nodes[i].val == Nil then 0 else 1, ause + c)
  {
    HashIntsStep(nodes, i);
    NewInt(nodes, A, i);
    hide Counted, HashInts, KeysOk;
  }

  /** One turn of the loop of `numusehash`. */
  method CountNode(nodes: seq<Node>, i: nat, nums: array<int>, ghost A: set<int>, ghost totaluse: int, ghost ause: int)
      returns (used: nat, c: nat)
    requires nums.Length == MAXBITS + 1 && KeysOk(nodes) && i < |nodes| && FreeOk(nodes, i) && A !! HashInts(nodes, 0)
    requires Tally(nodes, A, i + 1, nums[..], totaluse, ause)
    modifies nums
    ensures Tally(nodes, A, i, nums[..], totaluse + used, ause + c)
  {
    ghost var sofar := nums[..];
    NewInt(nodes, A, i);
    used, c := 0, 0;
    if nodes[i].val != Nil {
      used := 1;
      c := CountInt(nodes[i].key.k, nums, A + HashInts(nodes, i + 1));
    }
    TallyStep(nodes, A, i, sofar, totaluse, ause, nums[..], c);
  }

  /** `numusehash`; `A` holds the keys counted before. */
  method NumUseHash(nodes: seq<Node>, nums: array<int>, ghost A: set<int>) returns (totaluse: nat, ause: nat)
    requires nums.Length == MAXBITS + 1 && Counted(nums[..], A) && KeysOk(nodes) && forall j :: FreeOk(nodes, j)
    requires A !! HashInts(nodes, 0)
    modifies nums
    ensures Tally(nodes, A, 0, nums[..], totaluse, ause)
  {
    totaluse, ause := 0, 0;
    var i := |nodes|;
    TallyNone(nodes, A, nums[..]);
    hide HashInts, KeysOk, Counted, Tally;
    while i > 0
      invariant 0 <= i <= |nodes|
      invariant Tally(nodes, A, i, nums[..], totaluse, ause)
    {
      i := i - 1;
      assert FreeOk(nodes, i);
      var used, c := CountNode(nodes, i, nums, A, totaluse, ause);
      totaluse, ause := totaluse + used, ause + c;
    }
  }

  lemma IntsAntitone(nodes: seq<Node>, i: nat)
    ensures HashInts(nodes, i) <= HashInts(nodes, 0)
  {
    forall k | k in HashInts(nodes, i) ensures k in HashInts(nodes, 0) { assert LiveFrom(nodes, 0, Int(k)); }
  }
}
