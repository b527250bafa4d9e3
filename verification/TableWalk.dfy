/** A loop over a table that assigns to existing fields, while the collector kills keys of empty entries: the
    calls of `next` form a traversal (lua/lbaselib.c:226-235, lua/ltable.c:162-179). */
module TableWalk {
  import opened TableNodes
  import opened TablePlacing
  import opened TableNext
  import opened Table

  /** What may happen between two calls of `next`: an assignment to a field, or the death of the key of a node. */
  datatype Edit = Assign(k: Key, v: Val) | Kill(n: nat)

  /** An assignment creates no field, and only the key of an empty entry that is an object dies. */
  method EditOne(t: Table, e: Edit)
    requires t.Valid()
    modifies t
    ensures t.Valid() && t.co == old(t.co) && Assigned(old(t.Seen()), t.Seen())
  {
    match e
    case Assign(k, v) =>
      var c := t.Find(K(k));
      if !c.NoCell? {
        var r := t.Put(K(k), v);
      }
    case Kill(n) =>
      if n < |t.nodes| && t.nodes[n].key.Used? && t.nodes[n].val == Nil && t.nodes[n].key.k.Other? {
        t.KillKey(n);
      }
  }

  method EditAll(t: Table, edits: seq<Edit>)
    requires t.Valid()
    modifies t
    ensures t.Valid() && t.co == old(t.co) && Assigned(old(t.Seen()), t.Seen())
  {
    for i := 0 to |edits|
      invariant t.Valid() && t.co == old(t.co) && Assigned(old(t.Seen()), t.Seen())
    {
      ghost var before := t.Seen();
      EditOne(t, edits[i]);
      AssignedTrans(old(t.Seen()), before, t.Seen());
    }
  }

  lemma TraversalGrows(h: Hash, co: seq<Place>, ss: seq<Snap>, ys: seq<Key>, k: Key, s: Snap)
    requires Traversal(h, co, ss, ys) && |co| == |ss[|ys|].nodes| && Yields(ss[|ys|], co, ArgOf(ys, |ys|), k)
    requires SnapOk(h, co, s) && Assigned(ss[0], s)
    ensures Traversal(h, co, ss + [s], ys + [k])
  {
    var ss', ys' := ss + [s], ys + [k];
    forall i ensures StateOk(h, co, ss', i) { assert StateOk(h, co, ss, i); }
    forall i ensures CallOk(ss', co, ys', i) {
      if 0 <= i < |ys| { assert CallOk(ss, co, ys, i) && ArgOf(ys', i) == ArgOf(ys, i) && ss'[i] == ss[i]; }
    }
  }

  /** The whole loop. It ends, no key comes twice, no call fails, and every key that keeps a value comes. `ss` are
      the tables that the calls of `next` saw. */
  method Walk(t: Table, edits: nat -> seq<Edit>) returns (ys: seq<Key>, ghost ss: seq<Snap>)
    requires t.Valid()
    modifies t
    ensures t.Valid() && Traversal(t.h, old(t.co), ss, ys) && ss[0] == old(t.Seen())
    ensures |ys| <= Total(old(t.Seen())) && forall m, n :: 0 <= m < n < |ys| ==> ys[m] != ys[n]
    ensures forall n :: 0 <= n < |ys| ==> Value(ss[n].arr, ss[n].nodes, ys[n]) != Nil
    ensures forall k :: LiveThroughout(ss, k) ==> k in ys
  {
    ys, ss := [], [t.Seen()];
    ghost var co, s0 := t.co, t.Seen();
    Begun(t.h, co, s0);
    var r := t.Next(NilKey);
    while r.Entry?
      invariant t.Valid() && t.co == co && |ss| == |ys| + 1 && ss[0] == s0 && ss[|ys|] == t.Seen()
      invariant Traversal(t.h, co, ss, ys) && NextIs(t.Seen(), co, ArgOf(ys, |ys|), r)
      decreases Total(s0) - |ys|
    {
      NoKeyTwice(t.h, co, ss, ys);
      assert Yields(t.Seen(), co, ArgOf(ys, |ys|), r.k);
      assert StateOk(t.h, co, ss, |ys|);
      EditAll(t, edits(|ys|));
      AssignedTrans(s0, ss[|ys|], t.Seen());
      TraversalGrows(t.h, co, ss, ys, r.k, t.Seen());
      ys, ss := ys + [r.k], ss + [t.Seen()];
      NoKeyTwice(t.h, co, ss, ys);
      r := t.Next(K(ys[|ys| - 1]));
    }
    NoKeyTwice(t.h, co, ss, ys);
    AllKeysCome(t.h, co, ss, ys);
  }

  lemma Begun(h: Hash, co: seq<Place>, s: Snap)
    requires SnapOk(h, co, s)
    ensures Traversal(h, co, [s], [])
  {
    forall i ensures StateOk(h, co, [s], i) { }
  }
}
