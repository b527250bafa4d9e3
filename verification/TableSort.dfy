/** `table.sort` (lua/ltablib.c:193-267): quicksort in place, which recurses on the smaller part and goes on with the
    larger. The slots are 0 to n + 1; those from 1 to n are sorted, and a scan for which no element stops it reads the
    slot beyond one of its ends. For every order function the elements are rearranged and calls are nested no deeper
    than the logarithm of their number. No array makes a scan leave its range exactly if the function is asymmetric.
    For a strict weak order the result is sorted. */
module TableSort {
  import opened TableSizes

  type Less<!T> = (T, T) -> bool

  ghost predicate Asymmetric<T(!new)>(lt: Less<T>) { forall x, y :: lt(x, y) ==> !lt(y, x) }

  ghost predicate StrictWeak<T(!new)>(lt: Less<T>) {
    && (forall x :: !lt(x, x))
    && (forall x, y, z :: lt(x, y) && lt(y, z) ==> lt(x, z))
    && (forall x, y, z :: !lt(x, y) && !lt(y, z) ==> !lt(x, z))
  }

  predicate In(l: int, k: int, u: int) { l <= k <= u }

  // ---------------------------------------------------------------- what the code does

  function Swap<T>(s: seq<T>, i: nat, j: nat): (r: seq<T>)
    requires i < |s| && j < |s|
    ensures |r| == |s|
  {
    s[i := s[j]][j := s[i]]
  }

  /** The middle element is put in order with the first and the last. */
  function OrderMiddle<T>(s: seq<T>, l: nat, i: nat, u: nat, lt: Less<T>): (r: seq<T>)
    requires l < i < u < |s|
    ensures |r| == |s|
  {
    if lt(s[i], s[l]) then Swap(s, i, l) else if lt(s[u], s[i]) then Swap(s, i, u) else s
  }

  /** The first, the middle and the last element are put in order. */
  function OrderThree<T>(s: seq<T>, l: nat, u: nat, lt: Less<T>): (r: seq<T>)
    requires l < u < |s|
    ensures |r| == |s|
  {
    var s1 := if lt(s[u], s[l]) then Swap(s, l, u) else s;
    if u - l == 1 then s1 else OrderMiddle(s1, l, (l + u) / 2, u, lt)
  }

  /** Where a scan stops, or that the check for an invalid order function raises an error. */
  datatype Scan = Stop(at: nat) | Raised

  /** `repeat ++i until a[i] >= P`, with the check that `i` has not passed `u`. */
  function Up<T>(s: seq<T>, i: nat, u: nat, x: T, lt: Less<T>): (r: Scan)
    requires i <= u && u + 1 < |s|
    ensures r.Stop? ==> i < r.at <= u + 1 && !lt(s[r.at], x)
    ensures forall k :: i < k <= u && (r.Stop? ==> k < r.at) ==> lt(s[k], x)
    decreases u - i
  {
    if !lt(s[i + 1], x) then Stop(i + 1) else if i + 1 > u then Raised else Up(s, i + 1, u, x, lt)
  }

  /** `repeat --j until a[j] <= P`, with the check that `j` has not passed `l`. */
  function Down<T>(s: seq<T>, j: nat, l: nat, x: T, lt: Less<T>): (r: Scan)
    requires 0 < l <= j < |s|
    ensures r.Stop? ==> l - 1 <= r.at < j && !lt(x, s[r.at])
    ensures forall k :: l <= k < j && (r.Stop? ==> r.at < k) ==> lt(x, s[k])
    decreases j
  {
    if !lt(x, s[j - 1]) then Stop(j - 1) else if j - 1 < l then Raised else Down(s, j - 1, l, x, lt)
  }

  /** `Invalid` if a check raises its error, `Strayed` if a scan stops outside its range. Both are preceded by a
      read outside the range. */
  datatype Status = Stayed | Invalid | Strayed

  datatype Division<T> = Division(s: seq<T>, i: nat, status: Status)

  /** The loop that divides the range; the pivot `x` is at `u - 1`. The part of a run after a scan has stopped
      outside the range is not described. */
  function Divide<T>(s: seq<T>, l: nat, u: nat, i: nat, j: nat, x: T, lt: Less<T>): (r: Division<T>)
    requires 0 < l <= i <= j < u && u + 1 < |s|
    ensures |r.s| == |s| && (r.status == Stayed ==> l < r.i <= u)
    decreases j - i
  {
    match Up(s, i, u, x, lt)
    case Raised => Division(s, i, Invalid)
    case Stop(i1) =>
      if i1 > u then Division(s, i, Strayed) else
      match Down(s, j, l, x, lt)
      case Raised => Division(s, i, Invalid)
      case Stop(j1) =>
        if j1 < l then Division(s, i, Strayed)
        else if j1 < i1 then Division(Swap(s, u - 1, i1), i1, Stayed)
        else Divide(Swap(s, i1, j1), l, u, i1, j1, x, lt)
  }

  /** One round on a range of more than three elements. */
  function Round<T>(s: seq<T>, l: nat, u: nat, lt: Less<T>): (r: Division<T>)
    requires 0 < l && l + 3 <= u && u + 1 < |s|
    ensures |r.s| == |s| && (r.status == Stayed ==> l < r.i <= u)
  {
    var s1 := Swap(OrderThree(s, l, u, lt), (l + u) / 2, u - 1);
    Divide(s1, l, u, l, u - 1, s1[u - 1], lt)
  }

  /** `depth` is how deeply calls were nested below this one. */
  datatype Sorted<T> = Sorted(s: seq<T>, status: Status, depth: nat)

  function Max(a: nat, b: nat): nat { if a < b then b else a }

  /** What is to be done after the smaller part: `fst` is its result. */
  function Rest<T>(fst: Sorted<T>, l: nat, u: nat, lt: Less<T>): (r: Sorted<T>)
    requires 0 < l <= u + 1 && u + 1 < |fst.s|
    ensures |r.s| == |fst.s|
    decreases u - l + 1, 1
  {
    if fst.status != Stayed then fst.(depth := fst.depth + 1)
    else
      var snd := AuxSort(fst.s, l, u, lt);
      snd.(depth := Max(fst.depth + 1, snd.depth))
  }

  /** `auxsort` */
  function AuxSort<T>(s: seq<T>, l: nat, u: nat, lt: Less<T>): (r: Sorted<T>)
    requires 0 < l <= u + 1 && u + 1 < |s|
    ensures |r.s| == |s|
    decreases u - l + 1, 0
  {
    if l >= u then Sorted(s, Stayed, 0)
    else if u - l <= 2 then Sorted(OrderThree(s, l, u, lt), Stayed, 0)
    else
      var d := Round(s, l, u, lt);
      if d.status != Stayed then Sorted(d.s, d.status, 0)
      else if d.i - l < u - d.i then Rest(AuxSort(d.s, l, d.i - 1, lt), d.i + 1, u, lt)
      else Rest(AuxSort(d.s, d.i + 1, u, lt), l, d.i - 1, lt)
  }

  /** `sort`: the slots 1 to n. */
  function SortAll<T>(s: seq<T>, lt: Less<T>): (r: Sorted<T>)
    requires |s| >= 2
    ensures |r.s| == |s|
  {
    AuxSort(s, 1, |s| - 2, lt)
  }

  // ---------------------------------------------------------------- rearranging, for every order function

  /** The elements of the range may have changed places. */
  ghost predicate Rearranged<T>(s: seq<T>, t: seq<T>, l: int, u: int) {
    |t| == |s| && multiset(t) == multiset(s) && forall k :: 0 <= k < |s| && !In(l, k, u) ==> t[k] == s[k]
  }

  lemma Swapped<T>(s: seq<T>, i: nat, j: nat, l: int, u: int)
    requires i < |s| && j < |s| && In(l, i, u) && In(l, j, u)
    ensures Rearranged(s, Swap(s, i, j), l, u)
  {
  }

  lemma Same<T>(s: seq<T>, l: int, u: int)
    ensures Rearranged(s, s, l, u)
  {
  }

  lemma Twice<T>(s: seq<T>, t: seq<T>, r: seq<T>, l: int, u: int)
    requires Rearranged(s, t, l, u) && Rearranged(t, r, l, u)
    ensures Rearranged(s, r, l, u)
  {
  }

  lemma Wider<T>(s: seq<T>, t: seq<T>, l: int, u: int, l0: int, u0: int)
    requires Rearranged(s, t, l, u) && l0 <= l && u <= u0
    ensures Rearranged(s, t, l0, u0)
  {
  }

  lemma OrderRearranges<T>(s: seq<T>, l: nat, u: nat, lt: Less<T>)
    requires l < u < |s|
    ensures Rearranged(s, OrderThree(s, l, u, lt), l, u)
  {
    hide Rearranged;
    var s1, m := if lt(s[u], s[l]) then Swap(s, l, u) else s, (l + u) / 2;
    Same(s, l, u);
    Swapped(s, l, u, l, u);
    if u - l > 1 {
      Same(s1, l, u);
      Swapped(s1, m, l, l, u);
      Swapped(s1, m, u, l, u);
      Twice(s, s1, OrderMiddle(s1, l, m, u, lt), l, u);
    }
  }

  lemma {:induction false} DivideRearranges<T>(s: seq<T>, l: nat, u: nat, i: nat, j: nat, x: T, lt: Less<T>)
    requires 0 < l <= i <= j < u && l < u - 1 && u + 1 < |s|
    ensures Rearranged(s, Divide(s, l, u, i, j, x, lt).s, l, u)
    decreases j - i
  {
    hide Rearranged, Swap;
    Same(s, l, u);
    var up := Up(s, i, u, x, lt);
    var down := Down(s, j, l, x, lt);
    if up.Stop? && up.at <= u && down.Stop? && down.at >= l {
      if down.at < up.at {
        Swapped(s, u - 1, up.at, l, u);
      } else {
        var t := Swap(s, up.at, down.at);
        Swapped(s, up.at, down.at, l, u);
        DivideRearranges(t, l, u, up.at, down.at, x, lt);
        Twice(s, t, Divide(t, l, u, up.at, down.at, x, lt).s, l, u);
      }
    }
  }

  lemma RoundRearranges<T>(s: seq<T>, l: nat, u: nat, lt: Less<T>)
    requires 0 < l && l + 3 <= u && u + 1 < |s|
    ensures Rearranged(s, Round(s, l, u, lt).s, l, u)
  {
    hide Rearranged, Swap, OrderThree, Divide;
    var s1 := OrderThree(s, l, u, lt);
    var s2 := Swap(s1, (l + u) / 2, u - 1);
    OrderRearranges(s, l, u, lt);
    Swapped(s1, (l + u) / 2, u - 1, l, u);
    Twice(s, s1, s2, l, u);
    DivideRearranges(s2, l, u, l, u - 1, s2[u - 1], lt);
    Twice(s, s2, Round(s, l, u, lt).s, l, u);
  }

  ghost function Length(l: int, u: int): nat { if l <= u then u - l + 1 else 1 }

  lemma Deeper(d: nat, n: nat)
    requires 1 <= n && Pow2(d) <= n
    ensures Pow2(d + 1) <= 2 * n
  {
  }

  /** Whatever the order function, the elements of the range are rearranged, and calls are nested no deeper than the
      logarithm of the length of the range. */
  lemma {:induction false} AuxRearranges<T>(s: seq<T>, l: nat, u: nat, lt: Less<T>)
    requires 0 < l <= u + 1 && u + 1 < |s|
    ensures var r := AuxSort(s, l, u, lt); Rearranged(s, r.s, l, u) && Pow2(r.depth) <= Length(l, u)
    decreases u - l + 1, 1
  {
    hide Rearranged, OrderThree, Round, Rest;
    Same(s, l, u);
    if l < u {
      OrderRearranges(s, l, u, lt);
      if u - l > 2 {
        RoundRearranges(s, l, u, lt);
        var d := Round(s, l, u, lt);
        if d.status == Stayed {
          if d.i - l < u - d.i {
            PartsRearrange(s, d.s, l, u, l, d.i - 1, d.i + 1, u, lt);
          } else {
            PartsRearrange(s, d.s, l, u, d.i + 1, u, l, d.i - 1, lt);
          }
        }
      }
    }
  }

  lemma {:induction false} PartsRearrange<T>(s: seq<T>, s1: seq<T>, l: nat, u: nat, l1: nat, u1: nat, l2: nat, u2: nat,
                                             lt: Less<T>)
    requires 0 < l && l + 3 <= u && u + 1 < |s| && Rearranged(s, s1, l, u) && |s1| == |s|
    requires l <= l1 <= u1 + 1 <= u + 1 && l <= l2 <= u2 + 1 <= u + 1 && (u1 - l1 + 1) + (u2 - l2 + 1) == u - l
    requires u1 - l1 <= u2 - l2
    ensures var r := Rest(AuxSort(s1, l1, u1, lt), l2, u2, lt);
            Rearranged(s, r.s, l, u) && Pow2(r.depth) <= Length(l, u)
    decreases u - l + 1, 0
  {
    hide Rearranged, AuxSort;
    var fst := AuxSort(s1, l1, u1, lt);
    AuxRearranges(s1, l1, u1, lt);
    Deeper(fst.depth, Length(l1, u1));
    Wider(s1, fst.s, l1, u1, l, u);
    Twice(s, s1, fst.s, l, u);
    if fst.status == Stayed {
      AuxRearranges(fst.s, l2, u2, lt);
      Wider(fst.s, AuxSort(fst.s, l2, u2, lt).s, l2, u2, l, u);
      Twice(s, fst.s, AuxSort(fst.s, l2, u2, lt).s, l, u);
    }
  }

  // ---------------------------------------------------------------- staying in the range

  /** What stops the scans: the pivot and the first element. */
  ghost predicate Stops<T>(s: seq<T>, l: nat, u: nat, x: T, lt: Less<T>)
    requires l < u < |s|
  {
    s[u - 1] == x && !lt(x, x) && !lt(x, s[l])
  }

  lemma OrderStops<T(!new)>(s: seq<T>, l: nat, u: nat, lt: Less<T>)
    requires Asymmetric(lt) && l + 2 <= u < |s|
    ensures var t := OrderThree(s, l, u, lt); !lt(t[(l + u) / 2], t[l])
  {
  }

  lemma {:induction false} DivideStays<T>(s: seq<T>, l: nat, u: nat, i: nat, j: nat, x: T, lt: Less<T>)
    requires 0 < l <= i <= j < u && i < u - 1 && l < j && u + 1 < |s| && Stops(s, l, u, x, lt)
    ensures var d := Divide(s, l, u, i, j, x, lt); d.status == Stayed && d.i < u
    decreases j - i
  {
    var up, down := Up(s, i, u, x, lt), Down(s, j, l, x, lt);
    assert up.Stop? && up.at <= u - 1;
    assert down.Stop? && down.at >= l;
    if up.at <= down.at { DivideStays(Swap(s, up.at, down.at), l, u, up.at, down.at, x, lt); }
  }

  lemma RoundStays<T(!new)>(s: seq<T>, l: nat, u: nat, lt: Less<T>)
    requires Asymmetric(lt) && 0 < l && l + 3 <= u && u + 1 < |s|
    ensures var d := Round(s, l, u, lt); d.status == Stayed && d.i < u
  {
    OrderStops(s, l, u, lt);
    hide OrderThree, Divide;
    var s1 := Swap(OrderThree(s, l, u, lt), (l + u) / 2, u - 1);
    assert !lt(s1[u - 1], s1[u - 1]);
    DivideStays(s1, l, u, l, u - 1, s1[u - 1], lt);
  }

  /** An asymmetric order function keeps every scan in its range, even if it is not transitive. */
  lemma {:induction false} AuxStays<T(!new)>(s: seq<T>, l: nat, u: nat, lt: Less<T>)
    requires Asymmetric(lt) && 0 < l <= u + 1 && u + 1 < |s|
    ensures AuxSort(s, l, u, lt).status == Stayed
    decreases u - l + 1
  {
    hide Asymmetric, OrderThree, Round;
    if u - l > 2 {
      RoundStays(s, l, u, lt);
      var d := Round(s, l, u, lt);
      AuxStays(d.s, l, d.i - 1, lt);
      AuxStays(d.s, d.i + 1, u, lt);
      AuxStays(AuxSort(d.s, l, d.i - 1, lt).s, d.i + 1, u, lt);
      AuxStays(AuxSort(d.s, d.i + 1, u, lt).s, l, d.i - 1, lt);
    }
  }

  /** An element that is less than itself: four of them make the first scan pass the last. */
  lemma ReflexiveLeaves<T>(below: T, x: T, above: T, lt: Less<T>)
    requires lt(x, x)
    ensures SortAll([below, x, x, x, x, above], lt).status == if lt(above, x) then Invalid else Strayed
  {
    var s := [below, x, x, x, x, above];
    assert Swap(s, 1, 4) == s && Swap(s, 2, 1) == s && Swap(s, 2, 3) == s;
    assert OrderThree(s, 1, 4, lt) == s;
    assert Up(s, 4, 4, x, lt) == if lt(above, x) then Raised else Stop(5);
    assert Up(s, 3, 4, x, lt) == Up(s, 4, 4, x, lt);
    assert Up(s, 2, 4, x, lt) == Up(s, 4, 4, x, lt);
    assert Up(s, 1, 4, x, lt) == Up(s, 4, 4, x, lt);
  }

  /** Two elements that are less than each other: the second scan passes the first element. */
  lemma SymmetricLeaves<T>(below: T, x: T, y: T, above: T, lt: Less<T>)
    requires lt(x, y) && lt(y, x) && !lt(x, x)
    ensures SortAll([below, x, y, y, x, above], lt).status == if lt(x, below) then Invalid else Strayed
  {
    var s := [below, x, y, y, x, above];
    var t := [below, y, y, x, x, above];
    assert OrderThree(s, 1, 4, lt) == [below, y, x, y, x, above];
    assert Swap([below, y, x, y, x, above], 2, 3) == t;
    assert Up(t, 2, 4, x, lt) == Stop(3);
    assert Up(t, 1, 4, x, lt) == Up(t, 2, 4, x, lt);
    assert Down(t, 1, 1, x, lt) == if lt(x, below) then Raised else Stop(0);
    assert Down(t, 2, 1, x, lt) == Down(t, 1, 1, x, lt);
    assert Down(t, 3, 1, x, lt) == Down(t, 2, 1, x, lt);
  }

  /** No array makes `sort` leave a range exactly if the order function is asymmetric. */
  lemma StaysExactly<T(!new)>(lt: Less<T>)
    ensures (forall s: seq<T> :: |s| >= 2 ==> SortAll(s, lt).status == Stayed) <==> Asymmetric(lt)
  {
    hide AuxSort;
    if Asymmetric(lt) {
      forall s: seq<T> | |s| >= 2 ensures SortAll(s, lt).status == Stayed { AuxStays(s, 1, |s| - 2, lt); }
    } else {
      var x, y :| lt(x, y) && lt(y, x);
      var s := if lt(x, x) then [x, x, x, x, x, x] else [x, x, y, y, x, x];
      assert SortAll(s, lt).status != Stayed by {
        if lt(x, x) { ReflexiveLeaves(x, x, x, lt); } else { SymmetricLeaves(x, x, y, x, lt); }
      }
    }
  }

  // ---------------------------------------------------------------- sorting, for strict weak orders

  ghost predicate SortedIn<T>(s: seq<T>, l: int, u: int, lt: Less<T>) {
    forall p, q :: 0 <= p < q < |s| && In(l, p, u) && In(l, q, u) ==> !lt(s[q], s[p])
  }

  ghost predicate AtMost<T>(s: seq<T>, l: int, u: int, x: T, lt: Less<T>) {
    forall k :: 0 <= k < |s| && In(l, k, u) ==> !lt(x, s[k])
  }

  ghost predicate AtLeast<T>(s: seq<T>, l: int, u: int, x: T, lt: Less<T>) {
    forall k :: 0 <= k < |s| && In(l, k, u) ==> !lt(s[k], x)
  }

  /** The range is divided at `i`. */
  ghost predicate Divided<T>(s: seq<T>, l: int, i: int, u: int, lt: Less<T>) {
    0 <= l < i < u < |s| && AtMost(s, l, i - 1, s[i], lt) && AtLeast(s, i + 1, u, s[i], lt)
  }

  lemma WeakIsAsymmetric<T(!new)>(lt: Less<T>)
    requires StrictWeak(lt)
    ensures Asymmetric(lt)
  {
    forall x, y | lt(x, y) ensures !lt(y, x) { }
  }

  /** What holds of all elements of a range still holds when it is rearranged. */
  lemma AllStill<T(!new)>(s: seq<T>, t: seq<T>, l: int, u: int, f: T -> bool)
    requires Rearranged(s, t, l, u) && 0 <= l && u < |s| && forall k :: In(l, k, u) ==> f(s[k])
    ensures forall k :: In(l, k, u) ==> f(t[k])
  {
    if l <= u {
      var a, b, c := s[..l], s[l..u + 1], s[u + 1..];
      var b' := t[l..u + 1];
      assert s == a + b + c;
      assert t == a + b' + c;
      forall x ensures multiset(b)[x] == multiset(b')[x] {
        assert multiset(s)[x] == multiset(a)[x] + multiset(b)[x] + multiset(c)[x];
        assert multiset(t)[x] == multiset(a)[x] + multiset(b')[x] + multiset(c)[x];
      }
      forall k | In(l, k, u) ensures f(t[k]) {
        assert t[k] == b'[k - l];
        assert t[k] in multiset(b');
        assert t[k] in b;
      }
    }
  }

  lemma StillAtMost<T(!new)>(s: seq<T>, t: seq<T>, l: int, u: int, x: T, lt: Less<T>)
    requires Rearranged(s, t, l, u) && 0 <= l && u < |s| && AtMost(s, l, u, x, lt)
    ensures AtMost(t, l, u, x, lt)
  {
    AllStill(s, t, l, u, y => !lt(x, y));
  }

  lemma StillAtLeast<T(!new)>(s: seq<T>, t: seq<T>, l: int, u: int, x: T, lt: Less<T>)
    requires Rearranged(s, t, l, u) && 0 <= l && u < |s| && AtLeast(s, l, u, x, lt)
    ensures AtLeast(t, l, u, x, lt)
  {
    AllStill(s, t, l, u, y => !lt(y, x));
  }

  /** When both parts of a divided range have been sorted, in either order, the range is. */
  lemma PartsSorted<T(!new)>(s: seq<T>, t: seq<T>, r: seq<T>, l: int, i: int, u: int, lt: Less<T>)
    requires StrictWeak(lt) && Divided(s, l, i, u, lt)
    requires || (Rearranged(s, t, l, i - 1) && SortedIn(t, l, i - 1, lt) && Rearranged(t, r, i + 1, u)
             && SortedIn(r, i + 1, u, lt))
             || (Rearranged(s, t, i + 1, u) && SortedIn(t, i + 1, u, lt) && Rearranged(t, r, l, i - 1)
                  && SortedIn(r, l, i - 1, lt))
    ensures SortedIn(r, l, u, lt)
  {
    assert AtMost(r, l, i - 1, s[i], lt) && AtLeast(r, i + 1, u, s[i], lt) && r[i] == s[i] by {
      if Rearranged(s, t, l, i - 1) && SortedIn(t, l, i - 1, lt) && Rearranged(t, r, i + 1, u)
        && SortedIn(r, i + 1, u, lt) {
        StillAtMost(s, t, l, i - 1, s[i], lt);
        StillAtLeast(t, r, i + 1, u, s[i], lt);
      } else {
        StillAtLeast(s, t, i + 1, u, s[i], lt);
        StillAtMost(t, r, l, i - 1, s[i], lt);
      }
    }
    hide Rearranged;
    assert SortedIn(r, l, i - 1, lt) && SortedIn(r, i + 1, u, lt) by { BothSorted(s, t, r, l, i, u, lt); }
    forall p, q | 0 <= p < q < |r| && In(l, p, u) && In(l, q, u) ensures !lt(r[q], r[p]) {
      assert !lt(r[i], r[p]) || p >= i;
      assert !lt(r[q], r[i]) || q <= i;
    }
  }

  lemma BothSorted<T(!new)>(s: seq<T>, t: seq<T>, r: seq<T>, l: int, i: int, u: int, lt: Less<T>)
    requires 0 <= l < i < u < |s|
    requires || (Rearranged(s, t, l, i - 1) && SortedIn(t, l, i - 1, lt) && Rearranged(t, r, i + 1, u)
             && SortedIn(r, i + 1, u, lt))
             || (Rearranged(s, t, i + 1, u) && SortedIn(t, i + 1, u, lt) && Rearranged(t, r, l, i - 1)
                  && SortedIn(r, l, i - 1, lt))
    ensures SortedIn(r, l, i - 1, lt) && SortedIn(r, i + 1, u, lt)
  {
  }

  lemma OrderSorts<T(!new)>(s: seq<T>, l: nat, u: nat, lt: Less<T>)
    requires StrictWeak(lt) && l < u < |s|
    ensures var t, m := OrderThree(s, l, u, lt), (l + u) / 2;
            !lt(t[u], t[l]) && (u - l >= 2 ==> !lt(t[m], t[l]) && !lt(t[u], t[m]))
  {
    WeakIsAsymmetric(lt);
    var s1 := if lt(s[u], s[l]) then Swap(s, l, u) else s;
    assert !lt(s1[u], s1[l]);
    if u - l >= 2 {
      var m := (l + u) / 2;
      assert l < m < u;
      MiddleSorts(s1, l, m, u, lt);
    }
  }

  lemma MiddleSorts<T(!new)>(s: seq<T>, l: nat, m: nat, u: nat, lt: Less<T>)
    requires StrictWeak(lt) && Asymmetric(lt) && l < m < u < |s| && !lt(s[u], s[l])
    ensures var t := OrderMiddle(s, l, m, u, lt); !lt(t[u], t[l]) && !lt(t[m], t[l]) && !lt(t[u], t[m])
  {
  }

  /** What has been passed is on the right side of the pivot. */
  lemma Scanned<T(!new)>(s: seq<T>, l: int, i0: int, i: int, j: int, j0: int, u: int, x: T, lt: Less<T>)
    requires Asymmetric(lt) && AtMost(s, l, i0, x, lt) && AtLeast(s, j0, u, x, lt) && 0 <= l && u < |s|
    requires forall k :: 0 <= k < |s| && i0 < k < i ==> lt(s[k], x)
    requires forall k :: 0 <= k < |s| && j < k < j0 ==> lt(x, s[k])
    ensures AtMost(s, l, i - 1, x, lt) && AtLeast(s, j + 1, u, x, lt)
  {
  }

  lemma AfterSwap<T>(s: seq<T>, l: nat, i: nat, j: nat, u: nat, x: T, lt: Less<T>)
    requires l < i <= j < u - 1 < u < |s| && AtMost(s, l, i - 1, x, lt) && AtLeast(s, j + 1, u, x, lt)
    requires !lt(s[i], x) && !lt(x, s[j])
    ensures var t := Swap(s, i, j);
            AtMost(t, l, i, x, lt) && AtLeast(t, j, u, x, lt) && t[u - 1] == s[u - 1] && t[l] == s[l]
  {
  }

  /** The scans have met. */
  lemma AfterScan<T>(s: seq<T>, l: nat, i: nat, j: nat, u: nat, lt: Less<T>)
    requires l < i < u < |s| && j < i && AtMost(s, l, i - 1, s[u - 1], lt) && AtLeast(s, j + 1, u, s[u - 1], lt)
    ensures Divided(Swap(s, u - 1, i), l, i, u, lt)
  {
  }

  lemma {:induction false} DivideDivides<T(!new)>(s: seq<T>, l: nat, u: nat, i: nat, j: nat, x: T, lt: Less<T>)
    requires 0 < l <= i <= j < u && i < u - 1 && l < j && u + 1 < |s| && Asymmetric(lt) && Stops(s, l, u, x, lt)
    requires AtMost(s, l, i, x, lt) && AtLeast(s, j, u, x, lt)
    ensures var d := Divide(s, l, u, i, j, x, lt); Divided(d.s, l, d.i, u, lt)
    decreases j - i
  {
    hide AtMost, AtLeast, Divided, Asymmetric;
    var up, down := Up(s, i, u, x, lt), Down(s, j, l, x, lt);
    assert up.Stop? && up.at <= u - 1;
    assert down.Stop? && down.at >= l;
    Scanned(s, l, i, up.at, down.at, j, u, x, lt);
    if down.at < up.at {
      AfterScan(s, l, up.at, down.at, u, lt);
    } else {
      AfterSwap(s, l, up.at, down.at, u, x, lt);
      DivideDivides(Swap(s, up.at, down.at), l, u, up.at, down.at, x, lt);
    }
  }

  lemma BeforeScan<T(!new)>(s: seq<T>, l: nat, u: nat, lt: Less<T>)
    requires StrictWeak(lt) && l + 3 <= u < |s| && !lt(s[u - 1], s[l]) && !lt(s[u], s[u - 1])
    ensures AtMost(s, l, l, s[u - 1], lt) && AtLeast(s, u - 1, u, s[u - 1], lt) && Stops(s, l, u, s[u - 1], lt)
  {
  }

  lemma PivotPut<T>(t: seq<T>, l: nat, m: nat, u: nat)
    requires l < m < u < |t|
    ensures var s := Swap(t, m, u - 1); s[u - 1] == t[m] && s[l] == t[l] && s[u] == t[u]
  {
  }

  /** After a round the pivot is where it belongs. */
  lemma RoundDivides<T(!new)>(s: seq<T>, l: nat, u: nat, lt: Less<T>)
    requires StrictWeak(lt) && 0 < l && l + 3 <= u && u + 1 < |s|
    ensures var d := Round(s, l, u, lt); Divided(d.s, l, d.i, u, lt)
  {
    hide StrictWeak, OrderThree, Divide, Divided, AtMost, AtLeast, Asymmetric, Stops, Swap;
    OrderSorts(s, l, u, lt);
    WeakIsAsymmetric(lt);
    var t := OrderThree(s, l, u, lt);
    var s1 := Swap(t, (l + u) / 2, u - 1);
    PivotPut(t, l, (l + u) / 2, u);
    BeforeScan(s1, l, u, lt);
    DivideDivides(s1, l, u, l, u - 1, s1[u - 1], lt);
  }

  lemma SmallSorted<T(!new)>(s: seq<T>, l: nat, u: nat, lt: Less<T>)
    requires StrictWeak(lt) && l < u <= l + 2 && u < |s|
    ensures SortedIn(OrderThree(s, l, u, lt), l, u, lt)
  {
    OrderSorts(s, l, u, lt);
    hide OrderThree, StrictWeak;
  }

  /** For a strict weak order the range is sorted. */
  lemma {:induction false} AuxSorts<T(!new)>(s: seq<T>, l: nat, u: nat, lt: Less<T>)
    requires StrictWeak(lt) && 0 < l <= u + 1 && u + 1 < |s|
    ensures SortedIn(AuxSort(s, l, u, lt).s, l, u, lt)
    decreases u - l + 1
  {
    hide StrictWeak, OrderThree, Round, SortedIn, Divided, Rearranged, Asymmetric;
    WeakIsAsymmetric(lt);
    if l >= u {
      OneSorted(s, l, u, lt);
    } else if u - l <= 2 {
      SmallSorted(s, l, u, lt);
    } else {
      var d := Round(s, l, u, lt);
      RoundStays(s, l, u, lt);
      RoundDivides(s, l, u, lt);
      AuxParts(s, l, u, lt);
      hide AuxSort;
      if d.i - l < u - d.i {
        var t := AuxSort(d.s, l, d.i - 1, lt);
        BothParts(d.s, l, d.i - 1, d.i + 1, u, lt);
        AuxSorts(d.s, l, d.i - 1, lt);
        AuxSorts(t.s, d.i + 1, u, lt);
        PartsSorted(d.s, t.s, AuxSort(t.s, d.i + 1, u, lt).s, l, d.i, u, lt);
      } else {
        var t := AuxSort(d.s, d.i + 1, u, lt);
        BothParts(d.s, d.i + 1, u, l, d.i - 1, lt);
        AuxSorts(d.s, d.i + 1, u, lt);
        AuxSorts(t.s, l, d.i - 1, lt);
        PartsSorted(d.s, t.s, AuxSort(t.s, l, d.i - 1, lt).s, l, d.i, u, lt);
      }
    }
  }

  lemma AuxParts<T>(s: seq<T>, l: nat, u: nat, lt: Less<T>)
    requires 0 < l && l + 3 <= u && u + 1 < |s|
    ensures var d := Round(s, l, u, lt);
            d.status == Stayed ==>
              AuxSort(s, l, u, lt) == if d.i - l < u - d.i then Rest(AuxSort(d.s, l, d.i - 1, lt), d.i + 1, u, lt)
                                      else Rest(AuxSort(d.s, d.i + 1, u, lt), l, d.i - 1, lt)
  {
    hide Rest, Round;
  }

  lemma OneSorted<T>(s: seq<T>, l: nat, u: nat, lt: Less<T>)
    requires l >= u
    ensures SortedIn(s, l, u, lt)
  {
  }

  lemma BothParts<T(!new)>(s: seq<T>, l1: nat, u1: nat, l2: nat, u2: nat, lt: Less<T>)
    requires Asymmetric(lt) && 0 < l1 <= u1 + 1 && u1 + 1 < |s| && 0 < l2 <= u2 + 1 && u2 + 1 < |s|
    ensures var t := AuxSort(s, l1, u1, lt);
            && t.status == Stayed && Rearranged(s, t.s, l1, u1) && Rearranged(t.s, AuxSort(t.s, l2, u2, lt).s, l2, u2)
            && Rest(t, l2, u2, lt).s == AuxSort(t.s, l2, u2, lt).s
  {
    hide Asymmetric, Rearranged, AuxSort;
    AuxStays(s, l1, u1, lt);
    AuxRearranges(s, l1, u1, lt);
    AuxRearranges(AuxSort(s, l1, u1, lt).s, l2, u2, lt);
  }

  // ---------------------------------------------------------------- in place

  /** `set2` with the values of the two slots exchanged. */
  method Exchange<T>(a: array<T>, i: nat, j: nat)
    requires i < a.Length && j < a.Length
    modifies a
    ensures a[..] == Swap(old(a[..]), i, j)
  {
    a[i], a[j] := a[j], a[i];
    assert a[..] == old(a[..])[i := old(a[j])][j := old(a[i])];
  }

  method PutInOrder<T>(a: array<T>, l: nat, u: nat, lt: Less<T>)
    requires l < u < a.Length
    modifies a
    ensures a[..] == OrderThree(old(a[..]), l, u, lt)
  {
    hide Swap;
    if lt(a[u], a[l]) { Exchange(a, l, u); }
    if u - l == 1 { return; }
    var i := (l + u) / 2;
    if lt(a[i], a[l]) {
      Exchange(a, i, l);
    } else if lt(a[u], a[i]) {
      Exchange(a, i, u);
    }
  }

  method ScanUp<T>(a: array<T>, from: nat, u: nat, pivot: T, lt: Less<T>) returns (r: Scan)
    requires from <= u && u + 1 < a.Length
    ensures r == Up(a[..], from, u, pivot, lt)
  {
    var i := from + 1;
    while lt(a[i], pivot)
      invariant from < i <= u + 1 && Up(a[..], from, u, pivot, lt) == Up(a[..], i - 1, u, pivot, lt)
      decreases u + 1 - i
    {
      if i > u { return Raised; }
      i := i + 1;
    }
    return Stop(i);
  }

  method ScanDown<T>(a: array<T>, from: nat, l: nat, pivot: T, lt: Less<T>) returns (r: Scan)
    requires 0 < l <= from < a.Length
    ensures r == Down(a[..], from, l, pivot, lt)
  {
    var j := from - 1;
    while lt(pivot, a[j])
      invariant l - 1 <= j < from && Down(a[..], from, l, pivot, lt) == Down(a[..], j + 1, l, pivot, lt)
      decreases j
    {
      if j < l { return Raised; }
      j := j - 1;
    }
    return Stop(j);
  }

  method DivideRange<T>(a: array<T>, l: nat, u: nat, lt: Less<T>) returns (i: nat, status: Status)
    requires 0 < l && l + 3 <= u && u + 1 < a.Length
    modifies a
    ensures Division(a[..], i, status) == Divide(old(a[..]), l, u, l, u - 1, old(a[u - 1]), lt)
  {
    hide Swap, Up, Down;
    var pivot, j := a[u - 1], u - 1;
    i := l;
    ghost var d := Divide(a[..], l, u, l, u - 1, pivot, lt);
    while true
      invariant l <= i <= j < u && d == Divide(a[..], l, u, i, j, pivot, lt)
      decreases j - i
    {
      var up := ScanUp(a, i, u, pivot, lt);
      if up.Raised? { return i, Invalid; }
      if up.at > u { return i, Strayed; }
      var down := ScanDown(a, j, l, pivot, lt);
      if down.Raised? { return i, Invalid; }
      if down.at < l { return i, Strayed; }
      i, j := up.at, down.at;
      if j < i { break; }
      Exchange(a, i, j);
    }
    Exchange(a, u - 1, i);
    status := Stayed;
  }

  /** `auxsort`: the loop goes on with the larger part. */
  method AuxSortInPlace<T>(a: array<T>, l0: nat, u0: nat, lt: Less<T>) returns (status: Status, ghost depth: nat)
    requires 0 < l0 <= u0 + 1 && u0 + 1 < a.Length
    modifies a
    ensures Sorted(a[..], status, depth) == AuxSort(old(a[..]), l0, u0, lt)
    decreases u0 - l0 + 1
  {
    hide OrderThree, Divide, Swap;
    var l, u := l0, u0;
    ghost var r := AuxSort(a[..], l0, u0, lt);
    depth := 0;
    while l < u
      invariant l0 <= l <= u + 1 && u <= u0
      invariant var rest := AuxSort(a[..], l, u, lt); r == rest.(depth := Max(depth, rest.depth))
      decreases u - l + 1
    {
      PutInOrder(a, l, u, lt);
      if u - l <= 2 { break; }
      Exchange(a, (l + u) / 2, u - 1);
      var i;
      i, status := DivideRange(a, l, u, lt);
      if status != Stayed { return; }
      ghost var d;
      if i - l < u - i {
        status, d := AuxSortInPlace(a, l, i - 1, lt);
        l := i + 1;
      } else {
        status, d := AuxSortInPlace(a, i + 1, u, lt);
        u := i - 1;
      }
      depth := Max(depth, d + 1);
      if status != Stayed { return; }
    }
    status := Stayed;
  }

  /** What `sort` does to any array, for any order function. */
  lemma SortAllIs<T(!new)>(s: seq<T>, lt: Less<T>)
    requires |s| >= 2
    ensures var r := SortAll(s, lt);
            && Rearranged(s, r.s, 1, |s| - 2) && Pow2(r.depth) <= Length(1, |s| - 2)
            && (Asymmetric(lt) ==> r.status == Stayed) && (StrictWeak(lt) ==> SortedIn(r.s, 1, |s| - 2, lt))
  {
    hide AuxSort, StrictWeak, Asymmetric, Rearranged, SortedIn;
    AuxRearranges(s, 1, |s| - 2, lt);
    if Asymmetric(lt) { AuxStays(s, 1, |s| - 2, lt); }
    if StrictWeak(lt) { AuxSorts(s, 1, |s| - 2, lt); }
  }

  lemma SortedSlots<T>(s: seq<T>, t: seq<T>, lt: Less<T>)
    requires |s| >= 2 && Rearranged(s, t, 1, |s| - 2)
    ensures multiset(t) == multiset(s) && |t| == |s| && t[0] == s[0] && t[|s| - 1] == s[|s| - 1]
    ensures SortedIn(t, 1, |s| - 2, lt) ==> forall p, q :: 1 <= p < q < |t| - 1 ==> !lt(t[q], t[p])
  {
  }

  /** `sort`: the slots 1 to n. */
  method Sort<T(!new)>(a: array<T>, lt: Less<T>) returns (status: Status, ghost depth: nat)
    requires a.Length >= 2
    modifies a
    ensures Sorted(a[..], status, depth) == SortAll(old(a[..]), lt)
    ensures multiset(a[..]) == multiset(old(a[..])) && a[0] == old(a[0]) && a[a.Length - 1] == old(a[a.Length - 1])
    ensures a.Length > 2 ==> Pow2(depth) <= a.Length - 2
    ensures Asymmetric(lt) ==> status == Stayed
    ensures StrictWeak(lt) ==> forall p, q :: 1 <= p < q < a.Length - 1 ==> !lt(a[q], a[p])
  {
    hide AuxSort, StrictWeak, Asymmetric, Rearranged, SortedIn;
    SortAllIs(a[..], lt);
    status, depth := AuxSortInPlace(a, 1, a.Length - 2, lt);
    SortedSlots(old(a[..]), a[..], lt);
    assert a[0] == a[..][0] && a[a.Length - 1] == a[..][a.Length - 1];
    assert StrictWeak(lt) ==> forall p, q :: 1 <= p < q < a.Length - 1 ==> !lt(a[..][q], a[..][p]);
  }
}
