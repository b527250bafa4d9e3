/** How a rehash chooses the size of the array part (lua/ltable.c:189-260, lua/lobject.c:54-69). */
module TableSizes {

  const MAXBITS := 26

  function Pow2(n: nat): (r: nat)
    ensures r >= 1
  {
    if n == 0 then 1 else 2 * Pow2(n - 1)
  }

  /** The largest size of the array part. */
  const MAXASIZE := 0x400_0000

  lemma {:induction false} Pow2Grows(m: nat, n: nat)
    requires m < n
    ensures 2 * Pow2(m) <= Pow2(n)
    decreases n
  {
    if m < n - 1 { Pow2Grows(m, n - 1); }
  }

  /** `MAXASIZE` is two to the power `MAXBITS`. */
  lemma MaxASize(n: nat)
    ensures if n <= MAXBITS then Pow2(n) <= MAXASIZE else Pow2(n - 1) >= MAXASIZE
  {
    assert Pow2(5) == 32;
    assert Pow2(10) == 1024;
    assert Pow2(15) == 32768;
    assert Pow2(20) == 1048576;
    assert Pow2(25) == 33554432;
    assert Pow2(26) == MAXASIZE;
    if n < 26 { Pow2Grows(n, 26); }
    if n > 27 { Pow2Grows(26, n - 1); }
  }

  // ---------------------------------------------------------------- logarithms

  /** The entries of the table `log_2`. */
  function BitLength(x: nat): nat { if x == 0 then 0 else 1 + BitLength(x / 2) }

  lemma {:induction false} BitLengthIs(x: nat)
    ensures x > 0 ==> Pow2(BitLength(x) - 1) <= x < Pow2(BitLength(x))
    decreases x
  {
    if x > 1 { BitLengthIs(x / 2); }
  }

  lemma {:induction false} BitLengthHalves(x: nat, k: nat)
    requires x >= Pow2(k)
    ensures BitLength(x) == k + BitLength(x / Pow2(k))
    decreases k
  {
    if k > 0 {
      assert x / 2 >= Pow2(k - 1);
      BitLengthHalves(x / 2, k - 1);
      assert x / 2 / Pow2(k - 1) == x / (2 * Pow2(k - 1)) by { DivTwice(x, Pow2(k - 1)); }
    }
  }

  lemma DivTwice(x: nat, d: nat)
    requires d > 0
    ensures x / 2 / d == x / (2 * d)
  {
    var q, r := x / (2 * d), x % (2 * d);
    assert x == 2 * d * q + r;
    assert x / 2 == d * q + r / 2 by { assert 2 * d * q == 2 * (d * q); }
    assert 0 <= r / 2 < d;
    QuotientIs(x / 2, d, q, r / 2);
  }

  lemma QuotientIs(x: nat, d: nat, q: nat, r: nat)
    requires d > 0 && x == d * q + r && r < d
    ensures x / d == q
  {
    if x / d < q {
      Scale(d, x / d + 1, q);
      assert false;
    }
    if x / d > q {
      Scale(d, q + 1, x / d);
      assert false;
    }
  }

  lemma Scale(d: nat, a: nat, b: nat)
    requires a <= b
    ensures d * a <= d * b
  {
  }

  /** `luaO_log2`, which is -1 for 0. */
  method Log2(x0: nat) returns (r: int)
    ensures r == BitLength(x0) - 1
    ensures x0 > 0 ==> r >= 0 && Pow2(r) <= x0 < Pow2(r + 1)
  {
    var l, x := -1, x0;
    while x >= 256
      invariant l + BitLength(x) == BitLength(x0) - 1
    {
      assert Pow2(8) == 256;
      BitLengthHalves(x, 8);
      l := l + 8;
      x := x / 256;
    }
    BitLengthIs(x0);
    return l + BitLength(x);
  }

  /** `ceillog2`. */
  function CeilLog2(x: nat): nat
    requires x > 0
  {
    BitLength(x - 1)
  }

  lemma CeilLog2Is(x: nat)
    requires x > 0
    ensures x <= Pow2(CeilLog2(x)) && (CeilLog2(x) > 0 ==> Pow2(CeilLog2(x) - 1) < x)
  {
    BitLengthIs(x - 1);
  }

  // ---------------------------------------------------------------- counting

  /** The members of `K` that are at most `n`. */
  function UpTo(K: set<int>, n: int): set<int> { set k | k in K && 1 <= k <= n }

  function Count(K: set<int>, n: int): nat { |UpTo(K, n)| }

  /** The members of `K` in the slice `lg`, from just above one power of two to the next. */
  function Slice(K: set<int>, lg: nat): set<int> {
    set k | k in K && 1 <= k <= Pow2(lg) && (lg > 0 ==> k > Pow2(lg - 1))
  }

  lemma {:induction false} CountAtMost(K: set<int>, n: nat)
    ensures Count(K, n) <= n
    decreases n
  {
    if n > 0 {
      CountAtMost(K, n - 1);
      assert UpTo(K, n) == UpTo(K, n - 1) + (if n in K then {n} else {});
    } else {
      assert UpTo(K, 0) == {};
    }
  }

  lemma CountSlice(K: set<int>, i: nat)
    ensures Count(K, Pow2(i)) == |Slice(K, i)| + if i > 0 then Count(K, Pow2(i - 1)) else 0
  {
    if i > 0 {
      Pow2Grows(i - 1, i);
      assert UpTo(K, Pow2(i)) == UpTo(K, Pow2(i - 1)) + Slice(K, i);
    } else {
      assert UpTo(K, 1) == Slice(K, 0);
    }
  }

  lemma CountWhole(K: set<int>, n: int)
    ensures Count(K, n) <= |K| && (Count(K, n) == |K| ==> UpTo(K, n) == K)
  {
    SubsetSize(UpTo(K, n), K);
  }

  lemma SubsetSize(A: set<int>, B: set<int>)
    requires A <= B
    ensures |A| <= |B|
    ensures |A| == |B| ==> A == B
  {
    assert B == A + (B - A);
    assert |B| == |A| + |B - A|;
    if |B - A| == 0 { assert B - A == {}; }
  }

  /** More than half of the indices up to `n` are in use. */
  ghost predicate Dense(K: set<int>, n: nat) { Count(K, n) > n / 2 }

  /** `n` is the largest power of two that is dense, or 0 if there is none; `na` counts the keys up to it. */
  ghost predicate BestSize(K: set<int>, n: nat, na: nat) {
    && na == Count(K, n)
    && (n == 0 || exists i :: n == Pow2(i) && Dense(K, n))
    && (forall i: nat :: Dense(K, Pow2(i)) ==> Pow2(i) <= n)
  }

  lemma TooSparse(K: set<int>, i: nat, j: nat)
    requires |K| <= Pow2(i) / 2 && i <= j
    ensures !Dense(K, Pow2(j))
  {
    CountWhole(K, Pow2(j));
    if i < j { Pow2Grows(i, j); }
  }

  lemma AllCounted(K: set<int>, i: nat, j: nat)
    requires Count(K, Pow2(i)) == |K| && i < j
    ensures !Dense(K, Pow2(j))
  {
    CountAtMost(K, Pow2(i));
    CountWhole(K, Pow2(j));
    Pow2Grows(i, j);
  }

  lemma EmptySlice(K: set<int>, i: nat)
    requires |Slice(K, i)| == 0
    ensures !Dense(K, Pow2(i))
  {
    CountSlice(K, i);
    if i > 0 { CountAtMost(K, Pow2(i - 1)); }
  }

  lemma {:induction false} FewBits(n: nat)
    requires Pow2(n) / 2 < MAXASIZE
    ensures n <= MAXBITS
  {
    MaxASize(n);
  }

  /** The candidates below `Pow2(i)` have been tried. */
  ghost predicate BestBelow(K: set<int>, i: nat, n: nat, na: nat) {
    && na == Count(K, n)
    && (n == 0 || exists j :: 0 <= j < i && n == Pow2(j) && Dense(K, n))
    && (forall j: nat :: j < i && Dense(K, Pow2(j)) ==> Pow2(j) <= n)
  }

  lemma NoneAbove(K: set<int>, i: nat, n: nat, na: nat)
    requires BestBelow(K, i, n, na) && forall j: nat :: j >= i ==> !Dense(K, Pow2(j))
    ensures BestSize(K, n, na)
  {
    forall j: nat | Dense(K, Pow2(j)) ensures Pow2(j) <= n { assert j < i; }
  }

  lemma NextBest(K: set<int>, i: nat, n: nat, na: nat)
    requires BestBelow(K, i, n, na)
    ensures Dense(K, Pow2(i)) ==> BestBelow(K, i + 1, Pow2(i), Count(K, Pow2(i)))
    ensures !Dense(K, Pow2(i)) ==> BestBelow(K, i + 1, n, na)
  {
    forall j: nat | j < i ensures Pow2(j) <= Pow2(i) { Pow2Grows(j, i); }
  }

  lemma DenseIs(K: set<int>, i: nat)
    ensures Dense(K, Pow2(i)) <==> Count(K, Pow2(i)) > Pow2(i) / 2
  {
  }

  /** `nums` holds how many members of `K` each slice has. */
  ghost predicate Counted(nums: seq<int>, K: set<int>) {
    |nums| == MAXBITS + 1 && forall l :: 0 <= l <= MAXBITS ==> nums[l] == |Slice(K, l)|
  }

  /** `computesizes`: `nums` counts the keys of each slice, `narray` all of them. */
  method ComputeSizes(nums: seq<int>, narray: nat, ghost K: set<int>) returns (na: nat, n: nat)
    requires Counted(nums, K) && narray == |K| && narray <= MAXASIZE
    requires forall k :: k in K ==> 1 <= k
    ensures BestSize(K, n, na)
  {
    var i, twotoi, a := 0, 1, 0;
    na, n := 0, 0;
    assert UpTo(K, 0) == {};
    assert BestBelow(K, 0, 0, 0);
    hide BestBelow, BestSize, Slice, UpTo, Count, Dense;
    while twotoi / 2 < narray
      invariant twotoi == Pow2(i) && a == if i > 0 then Count(K, Pow2(i - 1)) else 0
      invariant BestBelow(K, i, n, na) && i <= MAXBITS + 1
      decreases MAXBITS - i
    {
      FewBits(i);
      CountSlice(K, i);
      NextBest(K, i, n, na);
      DenseIs(K, i);
      if nums[i] > 0 {
        a := a + nums[i];
        if a > twotoi / 2 {
          n := twotoi;
          na := a;
        }
      } else {
        EmptySlice(K, i);
      }
      if a == narray {
        forall j: nat | j >= i + 1 ensures !Dense(K, Pow2(j)) { AllCounted(K, i, j); }
        NoneAbove(K, i + 1, n, na);
        return;
      }
      i, twotoi := i + 1, twotoi * 2;
    }
    forall j: nat | j >= i ensures !Dense(K, Pow2(j)) { TooSparse(K, i, j); }
    NoneAbove(K, i, n, na);
  }
}
