/** The queue of userdata that wait for their finalizers (lua/lgc.c:127-158, 444-470; lua/lstring.c:95-110; section
    2.10.1 of the Lua 5.1 Reference Manual): new userdata come first in their list, the queue is filled in the order of
    that
    list and served from its head. */
module GcFinalizers {
  import opened GcHeap
  import opened GcCollector
  import opened GcState
  import opened GcStateMark
  import opened GcClear
  import opened GcAllocate
  import opened GcAwaiting
  import opened GcSteps
  import opened GcReferences

  /** The members of `s`, in the order of the list. */
  function Picked(us: seq<Id>, s: set<Id>): seq<Id> {
    if us == [] then [] else (if us[0] in s then [us[0]] else []) + Picked(us[1..], s)
  }

  lemma {:induction false} PickedAlike(us: seq<Id>, s: set<Id>, s': set<Id>)
    requires forall u :: u in us ==> (u in s <==> u in s')
    ensures Picked(us, s) == Picked(us, s')
    decreases |us|
  {
    if us != [] {
      assert forall u :: u in us[1..] ==> u in us;
      PickedAlike(us[1..], s, s');
    }
  }

  lemma {:induction false} PickedHas(us: seq<Id>, s: set<Id>, u: Id)
    ensures u in Picked(us, s) <==> u in us && u in s
    decreases |us|
  {
    if us != [] {
      assert us == [us[0]] + us[1..];
      PickedHas(us[1..], s, u);
    }
  }

  lemma {:induction false} SeparateInOrder(m: Marking, us: seq<Id>)
    requires NoDup(us)
    ensures var r := Separate(m, us);
            r.moved == Picked(us, Ids(r.moved)) && r.kept == Picked(us, Ids(us) - Ids(r.moved))
    decreases |us|
  {
    if us != [] {
      var m1 := SetFinalized(m, us[0]);
      var r, r1 := Separate(m, us), Separate(m1, us[1..]);
      assert us[0] !in us[1..] && NoDup(us[1..]);
      hide NoDup;
      SeparateInOrder(m1, us[1..]);
      forall u | u in us[1..] ensures u in Ids(r.moved) <==> u in Ids(r1.moved) { }
      forall u | u in r1.moved ensures u in us[1..] { SeparateMoved(m1, us[1..], u); }
      PickedAlike(us[1..], Ids(r.moved), Ids(r1.moved));
      PickedAlike(us[1..], Ids(us) - Ids(r.moved), Ids(us[1..]) - Ids(r1.moved));
    }
  }

  lemma CountTwo(us: seq<Id>, i: nat, j: nat)
    requires i < j < |us| && us[i] == us[j]
    ensures multiset(us)[us[i]] >= 2
  {
    assert us == us[..j] + us[j..];
    assert us[i] in us[..j] && us[j] in us[j..];
  }

  lemma UdataNoDup(g: G)
    requires UdataOk(g, {})
    ensures NoDup(g.udata)
  {
    forall i, j | 0 <= i < j < |g.udata| ensures g.udata[i] != g.udata[j] {
      if g.udata[i] == g.udata[j] { CountTwo(g.udata, i, j); }
    }
  }

  /** The atomic step appends the userdata that it takes out of their list to the queue, in the order in which they
      stood
      in the list, and leaves the others in their order. */
  lemma QueuedInOrder(g: G)
    requires Inv(g) && g.phase == Propagating
    ensures var g' := Atomic(g);
            var gone := Ids(g.udata) - Ids(g'.udata);
            g'.tmudata == g.tmudata + Picked(g.udata, gone) && g'.udata == Picked(g.udata, Ids(g'.udata))
  {
    hide Inv, Atomic, Finish, UdataOk, NoDup, ToFinalize, SetFinalized;
    UdataOfMarking(g);
    UdataNoDup(g);
    AtomicIs(g);
    var r := Separate(Finish(g), g.udata);
    SeparateInOrder(Finish(g), g.udata);
    forall u ensures u in r.kept <==> u in g.udata && u !in r.moved {
      PickedHas(g.udata, Ids(g.udata) - Ids(r.moved), u);
    }
    hide Separate;
    PickedAlike(g.udata, Ids(r.moved), Ids(g.udata) - Ids(r.kept));
    PickedAlike(g.udata, Ids(r.kept), Ids(g.udata) - Ids(r.moved));
  }

  lemma UdataOfMarking(g: G)
    requires Inv(g) && g.phase == Propagating
    ensures UdataOk(g, {})
  {
    MarkPhase(g);
  }

  /** A new userdata comes before all older ones. */
  lemma CreatedFirst(g: G, id: Id, mt: Val, env: Val)
    ensures Allocate(g, id, Udata(mt, env)).udata == [id] + g.udata
  {
  }

  /** The finalizer that the head of the queue has now, and the userdata as its argument, go on the stack of the running
      thread; the userdata returns to the head of its list. */
  lemma FirstIsServed(g: G)
    requires Inv(g) && g.tmudata != []
    ensures var g', u := Gctm(g), g.tmudata[0];
            && g'.tmudata == g.tmudata[1..] && g'.udata == [u] + g.udata
            && u in g.m.objs && g.m.objs[u].Udata? && g.cur in g.m.objs && g.m.objs[g.cur].Thread?
            && (forall f :: HasField(g.m.objs, g.m.objs[u].mt, g.m.names.gc, f) ==>
                  g'.m.objs == g.m.objs[g.cur := g.m.objs[g.cur].(stack := g.m.objs[g.cur].stack + [f, Ref(u)])])
            && ((forall f :: !HasField(g.m.objs, g.m.objs[u].mt, g.m.names.gc, f)) ==> g'.m.objs == g.m.objs)
  {
    var g', u := Gctm(g), g.tmudata[0];
    StructIs(g, {});
    GctmUdata(g);
    hide Inv, HasField, MetaField, StructBut;
    var tm := MetaField(g.m.objs, g.m.objs[u].mt, g.m.names.gc);
    if tm != Nil { MetaFieldIs(g.m.objs, g.m.objs[u].mt, g.m.names.gc, tm); }
    forall f | HasField(g.m.objs, g.m.objs[u].mt, g.m.names.gc, f) ensures f == tm {
      FieldIsValue(g.m.objs, g.m.objs[u].mt, g.m.names.gc, f);
      MetaFieldIs(g.m.objs, g.m.objs[u].mt, g.m.names.gc, f);
    }
  }
}
