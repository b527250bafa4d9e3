/** References (lua/lauxlib.c:481-512): a table whose unused slots form a free list that begins at slot 0. The list
    ends in nil, so the last free slot is empty; the length of the table is asked for only when no slot is free,
    and then it is the only border. */
module RefList {
  import opened TableNodes
  import opened TablePlacing
  import opened TableNext
  import opened TableSizes
  import opened Table

  const FREELIST_REF := 0
  const LUA_REFNIL := -1

  /** What the slot before the k-th free one holds. */
  function Link(free: seq<int>, k: nat): Val
    requires k <= |free|
  {
    if k == |free| then Nil else V(free[k])
  }

  function SlotBefore(free: seq<int>, k: nat): int
    requires k <= |free|
  {
    if k == 0 then FREELIST_REF else free[k - 1]
  }

  /** Every number from 1 to `n` is either a live reference or a free slot, and each free slot is listed once. */
  ghost predicate Split(live: map<int, Val>, free: seq<int>, n: nat) {
    && (forall i :: i in live || i in free <==> 1 <= i <= n)
    && (forall i :: !(i in live && i in free))
    && (forall a, b :: 0 <= a < b < |free| ==> free[a] != free[b])
  }

  function Field(s: Snap, i: int): Val { Value(s.arr, s.nodes, Int(i)) }

  /** Live references have their values, the free list is threaded through its slots, and nothing is above `n`. */
  ghost predicate Threaded(s: Snap, live: map<int, Val>, free: seq<int>, n: nat) {
    && (forall i :: i in live ==> Field(s, i) == live[i] != Nil)
    && (forall k :: 0 <= k <= |free| ==> Field(s, SlotBefore(free, k)) == Link(free, k))
    && (forall i :: i > n ==> Field(s, i) == Nil)
  }

  ghost predicate Managed(s: Snap, live: map<int, Val>, free: seq<int>, n: nat) {
    Split(live, free, n) && Threaded(s, live, free, n)
  }

  /** Slots other than `i` and `j` are the same. */
  ghost predicate SameSlots(s: Snap, s': Snap, i: int, j: int) {
    forall k :: k != i && k != j ==> Field(s', k) == Field(s, k)
  }

  lemma SplitPop(live: map<int, Val>, free: seq<int>, n: nat, v: Val)
    requires Split(live, free, n) && free != []
    ensures Split(live[free[0] := v], free[1..], n)
  {
    var live', free' := live[free[0] := v], free[1..];
    assert free == [free[0]] + free';
    assert free[0] in free;
    forall i ensures !(i in live' && i in free') {
      if i in free' { assert i in free && i != free[0]; }
    }
  }

  /** The first free slot leaves the list and becomes a live reference. */
  lemma Popped(s: Snap, s': Snap, live: map<int, Val>, free: seq<int>, n: nat, v: Val)
    requires Managed(s, live, free, n) && free != [] && v != Nil
    requires SameSlots(s, s', FREELIST_REF, free[0]) && Field(s', FREELIST_REF) == Field(s, free[0])
             && Field(s', free[0]) == v
    ensures Managed(s', live[free[0] := v], free[1..], n)
  {
    SplitPop(live, free, n, v);
    assert free[0] in free;
    forall k | 0 <= k <= |free[1..]| ensures Field(s', SlotBefore(free[1..], k)) == Link(free[1..], k) {
      assert Field(s, SlotBefore(free, k + 1)) == Link(free, k + 1);
      if k > 0 { assert free[k] in free; }
    }
  }

  lemma SplitPush(live: map<int, Val>, free: seq<int>, n: nat, ref: int)
    requires Split(live, free, n) && ref in live
    ensures Split(live - {ref}, [ref] + free, n)
  {
    var live', free' := live - {ref}, [ref] + free;
    assert ref !in free;
    forall i ensures (i in live' || i in free') <==> 1 <= i <= n {
      assert i in free' <==> i == ref || i in free;
    }
  }

  /** A reference becomes the first free slot. */
  lemma Pushed(s: Snap, s': Snap, live: map<int, Val>, free: seq<int>, n: nat, ref: int)
    requires Managed(s, live, free, n) && ref in live
    requires SameSlots(s, s', FREELIST_REF, ref) && Field(s', ref) == Field(s, FREELIST_REF)
             && Field(s', FREELIST_REF) == V(ref)
    ensures Managed(s', live - {ref}, [ref] + free, n)
  {
    SplitPush(live, free, n, ref);
    var free' := [ref] + free;
    forall k | 0 <= k <= |free'| ensures Field(s', SlotBefore(free', k)) == Link(free', k) {
      if k > 0 {
        assert Field(s, SlotBefore(free, k - 1)) == Link(free, k - 1);
        if k > 1 { assert free[k - 2] in free; }
      }
    }
  }

  /** There is a new slot. */
  lemma Extended(s: Snap, s': Snap, live: map<int, Val>, n: nat, v: Val)
    requires Managed(s, live, [], n) && v != Nil
    requires SameSlots(s, s', n + 1, n + 1) && Field(s', n + 1) == v
    ensures Managed(s', live[n + 1 := v], [], n + 1)
  {
    var none: seq<int> := [];
    assert Field(s, SlotBefore(none, 0)) == Link(none, 0);
    forall k | 0 <= k <= |none| ensures Field(s', SlotBefore(none, k)) == Link(none, k) { }
  }

  /** Slot 0 tells whether a slot is free, and which. */
  lemma FirstFree(s: Snap, live: map<int, Val>, free: seq<int>, n: nat)
    requires Managed(s, live, free, n)
    ensures Field(s, FREELIST_REF) == Link(free, 0) && (free != [] ==> free[0] > 0 && free[0] !in live)
  {
    assert Field(s, SlotBefore(free, 0)) == Link(free, 0);
    assert free != [] ==> free[0] in free;
  }

  /** If no slot is free, the table has one border. */
  lemma OnlyBorder(s: Snap, live: map<int, Val>, n: nat, j: nat)
    requires Managed(s, live, [], n) && (j == 0 || Field(s, j) != Nil) && Field(s, j + 1) == Nil
    ensures j == n && n + 1 !in live
  {
    assert forall i :: 1 <= i <= n ==> i in live && Field(s, i) != Nil;
  }

  class RefTable {
    const t: Table
    ghost var live: map<int, Val>
    ghost var free: seq<int>
    ghost var n: nat

    ghost predicate Valid()
      reads this, t
    {
      t.Valid() && Managed(t.Seen(), live, free, n)
    }

    /** Other fields of the table are not touched. */
    twostate predicate OthersSame()
      reads t
    {
      forall q: Key :: q.Other? || q.n < 0 ==> t.Lookup(q) == old(t.Lookup(q))
    }

    constructor (t: Table)
      requires t.Valid() && forall i :: i >= 0 ==> t.Lookup(Int(i)) == Nil
      ensures Valid() && this.t == t && live == map[]
    {
      this.t, live, free, n := t, map[], [], 0;
      new;
      forall i ensures i >= 0 ==> Field(t.Seen(), i) == Nil { assert i >= 0 ==> t.Lookup(Int(i)) == Nil; }
    }

    /** Taking a slot from the free list. */
    method TakeFree(ref: int, v: Val) returns (failed: bool)
      requires Valid() && v != Nil && free != [] && ref == free[0]
      modifies this, t
      ensures !failed ==>
                Valid() && live == old(live)[ref := v] && free == old(free)[1..] && n == old(n) && OthersSame()
      ensures if failed then old(t.Size()) >= MAXASIZE else t.Size() == old(t.Size())
    {
      hide Managed;
      FirstFree(t.Seen(), live, free, n);
      var next := t.Get(K(Int(ref)));
      var r := t.Put(K(Int(FREELIST_REF)), next);
      if r.Failed? { return true; }
      r := t.Put(K(Int(ref)), v);
      if r.Failed? { return true; }
      forall i | i != FREELIST_REF && i != ref
        ensures Field(t.Seen(), i) == Field(old(t.Seen()), i)
      {
        assert t.Lookup(Int(i)) == old(t.Lookup(Int(i)));
      }
      Popped(old(t.Seen()), t.Seen(), live, free, n, v);
      live, free := live[ref := v], free[1..];
      return false;
    }

    /** All slots up to the length are live, and there is one more. */
    method TakeNew(v: Val) returns (ref: int, failed: bool)
      requires Valid() && v != Nil && free == []
      modifies this, t
      ensures ref == old(n) + 1 && ref !in old(live)
      ensures !failed ==> Valid() && live == old(live)[ref := v] && free == [] && n == old(n) + 1 && OthersSame()
      ensures if failed then old(t.Size()) >= MAXASIZE else t.Size() == old(t.Size()) + 1
    {
      hide Managed;
      var border := t.GetN();
      OnlyBorder(t.Seen(), live, n, border);
      ref := border + 1;
      var r := t.Put(K(Int(ref)), v);
      if r.Failed? { return ref, true; }
      forall i | i != ref
        ensures Field(t.Seen(), i) == Field(old(t.Seen()), i)
      {
        assert t.Lookup(Int(i)) == old(t.Lookup(Int(i)));
      }
      Extended(old(t.Seen()), t.Seen(), live, n, v);
      live, n := live[ref := v], n + 1;
      return ref, false;
    }

    /** `luaL_ref`: the slot that was freed last is used first, and a new one only if none is free; only then does the
        table grow. It fails only if the table is full. */
    method Ref(v: Val) returns (ref: int, failed: bool)
      requires Valid()
      modifies this, t
      ensures v == Nil ==> ref == LUA_REFNIL && !failed && unchanged(this) && unchanged(t)
      ensures v != Nil && !failed ==>
                Valid() && ref > 0 && ref !in old(live) && live == old(live)[ref := v] && OthersSame()
      ensures v != Nil && !failed ==> if old(free) == [] then ref == n == old(n) + 1 && free == []
                                      else ref == old(free)[0] && free == old(free)[1..] && n == old(n)
      ensures failed ==> old(t.Size()) >= MAXASIZE
      ensures !failed ==> t.Size() == old(t.Size()) + if v != Nil && old(free) == [] then 1 else 0
    {
      if v == Nil { return LUA_REFNIL, false; }
      FirstFree(t.Seen(), live, free, n);
      hide Managed;
      var head := t.Get(K(Int(FREELIST_REF)));
      ref := if head.V? then head.v else 0;
      if ref != 0 {
        failed := TakeFree(ref, v);
      } else {
        ref, failed := TakeNew(v);
      }
    }

    /** `luaL_unref` of a live reference, or of one of the negative ones that stand for nil. */
    method Unref(ref: int) returns (failed: bool)
      requires Valid() && (ref >= 0 ==> ref in live)
      modifies this, t
      ensures ref < 0 ==> !failed && unchanged(this) && unchanged(t)
      ensures ref >= 0 && !failed ==>
                Valid() && live == old(live) - {ref} && free == [ref] + old(free) && n == old(n) && OthersSame()
      ensures if failed then old(t.Size()) >= MAXASIZE else t.Size() == old(t.Size())
    {
      if ref >= 0 {
        LiveIsPositive(t.Seen(), live, free, n, ref);
        hide Managed;
        var head := t.Get(K(Int(FREELIST_REF)));
        var r := t.Put(K(Int(ref)), head);
        if r.Failed? { return true; }
        r := t.Put(K(Int(FREELIST_REF)), V(ref));
        if r.Failed? { return true; }
        forall i | i != FREELIST_REF && i != ref
          ensures Field(t.Seen(), i) == Field(old(t.Seen()), i)
        {
          assert t.Lookup(Int(i)) == old(t.Lookup(Int(i)));
        }
        Pushed(old(t.Seen()), t.Seen(), live, free, n, ref);
        live, free := live - {ref}, [ref] + free;
      }
      return false;
    }

    /** `lua_rawgeti`: a live reference gives its value. */
    method Read(ref: int) returns (v: Val)
      requires Valid() && ref in live
      ensures v == live[ref] != Nil
    {
      v := t.Get(K(Int(ref)));
      assert v == Field(t.Seen(), ref);
    }
  }

  lemma LiveIsPositive(s: Snap, live: map<int, Val>, free: seq<int>, n: nat, ref: int)
    requires Managed(s, live, free, n) && ref in live
    ensures ref > 0
  {
  }

  /** What a program does with references: it takes one for a value, or releases the k-th that it holds. */
  datatype Use = Take(v: Val) | Release(k: nat)

  /** Over any run of uses, the references that are held are different and each still gives its value. */
  method UseAll(r: RefTable, uses: seq<Use>) returns (held: seq<(int, Val)>, failed: bool)
    requires r.Valid() && r.live == map[]
    modifies r, r.t
    ensures !failed ==> r.Valid() && forall a, b :: 0 <= a < b < |held| ==> held[a].0 != held[b].0
    ensures !failed ==> forall a :: 0 <= a < |held| ==> r.t.Lookup(Int(held[a].0)) == held[a].1
    ensures !failed ==> forall i :: i in r.live <==> exists a :: 0 <= a < |held| && held[a].0 == i
    ensures failed ==> old(r.t.Size()) + |uses| > MAXASIZE
  {
    held, failed := [], false;
    for u := 0 to |uses|
      invariant r.Valid() && HeldOk(r.live, held) && r.t.Size() <= old(r.t.Size()) + u
    {
      match uses[u]
      case Take(v) =>
        if v != Nil {
          ghost var before := r.live;
          var ref;
          ref, failed := r.Ref(v);
          if failed { return; }
          Added(before, held, ref, v);
          held := held + [(ref, v)];
        }
      case Release(k) =>
        if k < |held| {
          Dropped(r.live, held, k);
          failed := r.Unref(held[k].0);
          if failed { return; }
          held := held[..k] + held[k + 1..];
        }
    }
    forall a | 0 <= a < |held| ensures r.t.Lookup(Int(held[a].0)) == held[a].1 {
      assert Field(r.t.Seen(), held[a].0) == r.live[held[a].0];
    }
  }

  ghost predicate HeldOk(live: map<int, Val>, held: seq<(int, Val)>) {
    && (forall a, b :: 0 <= a < b < |held| ==> held[a].0 != held[b].0)
    && (forall a :: 0 <= a < |held| ==> held[a].0 in live && live[held[a].0] == held[a].1)
    && (forall i :: i in live ==> exists a :: 0 <= a < |held| && held[a].0 == i)
  }

  lemma Added(live: map<int, Val>, held: seq<(int, Val)>, ref: int, v: Val)
    requires HeldOk(live, held) && ref !in live
    ensures HeldOk(live[ref := v], held + [(ref, v)])
  {
    var held' := held + [(ref, v)];
    forall i | i in live || i == ref ensures exists a :: 0 <= a < |held'| && held'[a].0 == i {
      if i in live {
        var a :| 0 <= a < |held| && held[a].0 == i;
        assert held'[a].0 == i;
      } else {
        assert held'[|held|].0 == i;
      }
    }
  }

  lemma Dropped(live: map<int, Val>, held: seq<(int, Val)>, k: nat)
    requires HeldOk(live, held) && k < |held|
    ensures HeldOk(live - {held[k].0}, held[..k] + held[k + 1..])
  {
    var held' := held[..k] + held[k + 1..];
    forall a | 0 <= a < |held'| ensures held'[a] == held[if a < k then a else a + 1] { }
    forall i | i in live && i != held[k].0 ensures exists a :: 0 <= a < |held'| && held'[a].0 == i {
      var a :| 0 <= a < |held| && held[a].0 == i;
      assert held'[if a < k then a else a - 1].0 == i;
    }
  }
}
