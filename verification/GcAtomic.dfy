/** The atomic end of the mark phase (lua/lgc.c:525-560): when it is over, no object that is not white
    refers to a white one. */
module GcAtomic {
  import opened GcHeap
  import opened GcMark
  import opened GcCollector

  // ---------------------------------------------------------------- what the mark phase changes

  /** Objects only leave white, and lose keys of empty entries. */
  ghost predicate Advanced(m: Marking, m': Marking) {
    && m'.cw == m.cw && m'.names == m.names && Tidied(m.objs, m'.objs) && m'.marks.Keys == m.marks.Keys
    && forall id :: id in m.marks ==> AdvancedAt(m.marks[id], m'.marks[id])
  }

  predicate AdvancedAt(k: Mark, k': Mark) { k'.fixed == k.fixed && (k'.colour.White? ==> k'.colour == k.colour) }

  lemma AdvancedTwice(m0: Marking, m1: Marking, m2: Marking)
    requires Advanced(m0, m1) && Advanced(m1, m2)
    ensures Advanced(m0, m2)
  {
    TidiedTwice(m0.objs, m1.objs, m2.objs);
    forall id | id in m0.marks ensures AdvancedAt(m0.marks[id], m2.marks[id]) {
      assert AdvancedAt(m0.marks[id], m1.marks[id]) && AdvancedAt(m1.marks[id], m2.marks[id]);
    }
  }

  lemma AdvancedSelf(m: Marking)
    ensures Advanced(m, m)
  {
  }

  lemma StaysMarked(m: Marking, m': Marking, x: Id)
    requires Advanced(m, m') && !IsWhite(m, x)
    ensures !IsWhite(m', x)
  {
    if x in m.marks { assert AdvancedAt(m.marks[x], m'.marks[x]); }
  }

  lemma HasMark(m: Marking, q: set<Id>, debt: seq<Val>, stage: nat)
    requires MarkInv(m, q, debt, stage)
    ensures m.marks.Keys == m.objs.Keys
  {
  }

  lemma MarkAllAdvanced(m: Marking, vs: seq<Val>)
    ensures Advanced(m, MarkAll(m, vs))
  {
    MarkAllMarked(m, vs);
    forall id | id in m.marks ensures AdvancedAt(m.marks[id], MarkAll(m, vs).marks[id]) {
      assert MarkedAt(m, MarkAll(m, vs), id);
    }
  }

  lemma OpenedAdvanced(m: Marking, o: Id)
    ensures Advanced(m, Opened(m, o))
  {
    OpenedTidied(m, o);
    hide Opened, Tidied, WayOf;
  }

  lemma PropagateAdvanced(m: Marking)
    requires m.gray != []
    ensures Advanced(m, Propagate(m))
  {
    var o, m0 := m.gray[0], m.(gray := m.gray[1..]);
    OpenedAdvanced(m0, o);
    MarkAllAdvanced(Opened(m0, o), StrongFields(m.objs, m.names, o));
    AdvancedTwice(m, Opened(m0, o), Propagate(m));
  }

  lemma {:induction false} PropagateAllInv(m: Marking, q: set<Id>, stage: nat)
    requires MarkInv(m, q, [], stage)
    ensures MarkInv(PropagateAll(m), q, [], stage) && PropagateAll(m).gray == [] && Advanced(m, PropagateAll(m))
    decreases |Whites(m)| + |m.gray|
  {
    hide MarkInv;
    if m.gray == [] {
      assert Advanced(m, m);
    } else {
      PropagateShrinks(m);
      PropagateInv(m, q, stage);
      PropagateAdvanced(m);
      PropagateAllInv(Propagate(m), q, stage);
      AdvancedTwice(m, Propagate(m), PropagateAll(Propagate(m)));
    }
  }

  // ---------------------------------------------------------------- the stages

  lemma MoreDebt(m: Marking, q: set<Id>, debt: seq<Val>, debt': seq<Val>, stage: nat)
    requires MarkInv(m, q, debt, stage) && forall v :: v in debt ==> v in debt'
    ensures MarkInv(m, q, debt', stage)
  {
  }

  /** Marking anything at all keeps the invariant. */
  lemma MarkMoreInv(m: Marking, q: set<Id>, vs: seq<Val>, stage: nat)
    requires MarkInv(m, q, [], stage)
    ensures MarkInv(MarkAll(m, vs), q, [], stage)
  {
    MoreDebt(m, q, [], vs, stage);
    assert vs + [] == vs;
    MarkAllInv(m, q, vs, [], stage);
  }

  /** The values of gray upvalues. */
  function GrayVals(m: Marking, uvs: seq<Id>): seq<Val>
    decreases |uvs|
  {
    if uvs == [] then []
    else (if IsGray(m, uvs[0]) && uvs[0] in m.objs
         && m.objs[uvs[0]].Upval? then [HomeVal(m.objs, m.objs[uvs[0]].home)] else [])
         + GrayVals(m, uvs[1..])
  }

  lemma {:induction false} InGrayVals(m: Marking, uvs: seq<Id>, u: Id)
    requires u in uvs && IsGray(m, u) && u in m.objs && m.objs[u].Upval?
    ensures HomeVal(m.objs, m.objs[u].home) in GrayVals(m, uvs)
    decreases |uvs|
  {
    if u != uvs[0] { InGrayVals(m, uvs[1..], u); }
  }

  lemma {:induction false} GrayValsGrow(m: Marking, vs: seq<Val>, uvs: seq<Id>, v: Val)
    requires v in GrayVals(m, uvs)
    ensures v in GrayVals(MarkAll(m, vs), uvs)
    decreases |uvs|
  {
    MarkAllMarked(m, vs);
    if uvs[0] in m.marks { assert MarkedAt(m, MarkAll(m, vs), uvs[0]); }
    if v in GrayVals(m, uvs[1..]) { GrayValsGrow(m, vs, uvs[1..], v); }
  }

  lemma {:induction false} RemarkRest(m: Marking, q: set<Id>, uvs: seq<Id>)
    requires MarkInv(m, q, GrayVals(m, uvs), 1)
    ensures MarkInv(Remark(m, uvs), q, [], 1) && Advanced(m, Remark(m, uvs))
    decreases |uvs|
  {
    hide MarkInv;
    if uvs != [] {
      var u := uvs[0];
      if IsGray(m, u) && u in m.objs && m.objs[u].Upval? {
        var vs := [HomeVal(m.objs, m.objs[u].home)];
        var m1 := MarkAll(m, vs);
        MarkAllInv(m, q, vs, GrayVals(m, uvs[1..]), 1);
        forall v | v in GrayVals(m, uvs[1..]) ensures v in GrayVals(m1, uvs[1..]) { GrayValsGrow(m, vs, uvs[1..], v); }
        MoreDebt(m1, q, GrayVals(m, uvs[1..]), GrayVals(m1, uvs[1..]), 1);
        RemarkRest(m1, q, uvs[1..]);
        MarkAllAdvanced(m, vs);
        AdvancedTwice(m, m1, Remark(m1, uvs[1..]));
      } else {
        assert GrayVals(m, uvs) == GrayVals(m, uvs[1..]);
        RemarkRest(m, q, uvs[1..]);
      }
    } else {
      assert Advanced(m, m);
    }
  }

  /** Every gray upvalue is in the list of open upvalues. */
  ghost predicate UpvalsListed(m: Marking, uvs: seq<Id>) {
    forall u :: u in m.objs && m.objs[u].Upval? && IsGray(m, u) ==> u in uvs
  }

  /** After `remarkupvals`, gray upvalues are settled too. */
  lemma RemarkInv(m: Marking, q: set<Id>, uvs: seq<Id>)
    requires MarkInv(m, q, [], 0) && UpvalsListed(m, uvs)
    ensures MarkInv(Remark(m, uvs), q, [], 1) && Advanced(m, Remark(m, uvs))
  {
    forall j, x | j in m.objs && j !in q && Settled(m, j, 1) && Due(m, j, x) && IsWhite(m, x)
      ensures Ref(x) in GrayVals(m, uvs)
    {
      if !IsBlack(m, j) { InGrayVals(m, uvs, j); }
    }
    RemarkRest(m, q, uvs);
  }

  /** Nothing but the lists has changed. */
  predicate Relisted(m: Marking, m': Marking) { m' == m.(gray := m'.gray, weak := m'.weak, grayagain := m'.grayagain) }

  lemma RelistedLists(m: Marking, m': Marking)
    requires ListsOk(m) && Relisted(m, m') && (forall id :: Count(m', id) == Count(m, id))
    requires forall id :: id in m'.weak ==> id in m.weak
    ensures ListsOk(m')
  {
  }

  lemma WeakStage(m: Marking, q: set<Id>)
    requires MarkInv(m, q, [], 1) && m.gray == []
    ensures MarkInv(m.(gray := m.weak, weak := []), q, [], 2)
  {
    hide KindsOk, ListsOk, Due;
    var m1 := m.(gray := m.weak, weak := []);
    RelistedLists(m, m1);
    SameKinds(m, m1);
    forall j, x | j in m1.objs && j !in q && Settled(m1, j, 2) && Due(m1, j, x) && IsWhite(m1, x) ensures Ref(x) in [] {
      SameDue(m, m1, j, x);
      assert Settled(m, j, 1);
    }
  }

  lemma SameKinds(m: Marking, m': Marking)
    requires KindsOk(m) && m'.objs == m.objs && m'.marks == m.marks
    ensures KindsOk(m')
  {
  }

  lemma SameDue(m: Marking, m': Marking, j: Id, x: Id)
    requires Due(m', j, x) && m'.objs == m.objs && m'.marks == m.marks && m'.names == m.names
    ensures Due(m, j, x)
  {
  }

  lemma AgainStage(m: Marking, q: set<Id>)
    requires MarkInv(m, q, [], 2) && m.gray == []
    ensures MarkInv(m.(gray := m.grayagain, grayagain := []), q, [], 3)
  {
    hide KindsOk, ListsOk, Due;
    var m1 := m.(gray := m.grayagain, grayagain := []);
    RelistedLists(m, m1);
    SameKinds(m, m1);
    forall j, x | j in m1.objs && j !in q && Settled(m1, j, 3) && Due(m1, j, x) && IsWhite(m1, x) ensures Ref(x) in [] {
      SameDue(m, m1, j, x);
      assert Settled(m, j, 2);
    }
  }

  /** The three rounds of `atomic`. */
  lemma FinishInv(g: G, q: set<Id>)
    requires MarkInv(g.m, q, [], 0) && UpvalsListed(g.m, g.uvhead)
    ensures var m := Finish(g);
            MarkInv(m, q, [], 3) && m.gray == [] && Advanced(g.m, m)
    ensures forall x :: x in g.m.objs && Ref(x) in [Ref(g.cur)] + g.mts ==> !IsWhite(Finish(g), x)
  {
    hide MarkInv;
    var m0 := Remark(g.m, g.uvhead);
    RemarkInv(g.m, q, g.uvhead);
    PropagateAllInv(m0, q, 1);
    var m1 := PropagateAll(m0);
    AdvancedTwice(g.m, m0, m1);
    WeakStage(m1, q);
    var m2, roots := m1.(gray := m1.weak, weak := []), [Ref(g.cur)] + g.mts;
    assert Advanced(m1, m2);
    AdvancedTwice(g.m, m1, m2);
    MarkMoreInv(m2, q, roots, 2);
    MarkAllAdvanced(m2, roots);
    MarkAllMarked(m2, roots);
    var m3 := MarkAll(m2, roots);
    AdvancedTwice(g.m, m2, m3);
    PropagateAllInv(m3, q, 2);
    var m4 := PropagateAll(m3);
    AdvancedTwice(g.m, m3, m4);
    AgainStage(m4, q);
    var m5 := m4.(gray := m4.grayagain, grayagain := []);
    assert Advanced(m4, m5);
    PropagateAllInv(m5, q, 3);
    AdvancedTwice(m4, m5, PropagateAll(m5));
    AdvancedTwice(m3, m4, PropagateAll(m5));
    AdvancedTwice(g.m, m4, PropagateAll(m5));
    forall x | x in g.m.objs && Ref(x) in roots ensures !IsWhite(Finish(g), x) {
      assert x in m2.objs && !IsWhite(m3, x);
      StaysMarked(m3, Finish(g), x);
    }
  }

  /** The marks are closed: what a marked object refers to strongly is marked. */
  ghost predicate StrongClosed(m: Marking) {
    forall id, x {:trigger StronglyRefers(m.objs, m.names, id, x)} ::
      id in m.objs && !IsWhite(m, id) && StronglyRefers(m.objs, m.names, id, x) ==> !IsWhite(m, x)
  }

  /** When nothing is to be traversed any more, what a marked object refers to strongly is marked. */
  lemma DoneMarks(m: Marking, q: set<Id>, id: Id, x: Id)
    requires MarkInv(m, q, [], 3) && m.gray == [] && id in m.objs && id !in q && !IsWhite(m, id)
    requires StronglyRefers(m.objs, m.names, id, x)
    ensures !IsWhite(m, x)
  {
    assert Count(m, id) > 0 ==> id in m.grayagain || id in m.weak;
    assert Settled(m, id, 3) by { if !IsBlack(m, id) { assert IsGray(m, id); } }
    StrongIsLess(m.objs, m.names, id, x);
    assert Due(m, id, x);
  }

  lemma DoneIsClosed(m: Marking)
    requires MarkInv(m, {}, [], 3) && m.gray == []
    ensures StrongClosed(m)
  {
    forall id, x | id in m.objs && !IsWhite(m, id) && StronglyRefers(m.objs, m.names, id, x) ensures !IsWhite(m, x) {
      DoneMarks(m, {}, id, x);
    }
  }

  // ---------------------------------------------------------------- userdata to be finalized

  /** Only the finalized bits of some white objects differ. */
  ghost predicate SameColours(m: Marking, m': Marking) {
    && m' == m.(marks := m'.marks) && m'.marks.Keys == m.marks.Keys
    && forall id ::
          id in m.marks ==>
            SameBits(m.marks[id], m'.marks[id]) && (m'.marks[id] == m.marks[id] || m.marks[id].colour.White?)
  }

  predicate SameBits(k: Mark, k': Mark) {
    k'.colour == k.colour && k'.fixed == k.fixed && k'.weakKey == k.weakKey && k'.weakVal == k.weakVal
  }

  lemma FinalizedColours(m: Marking, u: Id)
    ensures SameColours(m, SetFinalized(m, u))
  {
  }

  lemma ColoursShape(m: Marking, m': Marking, stage: nat)
    requires KindsOk(m) && ListsOk(m) && WeakOk(m, stage) && SameColours(m, m')
    ensures KindsOk(m') && ListsOk(m') && Advanced(m, m')
    ensures forall id ::
              IsWhite(m', id) == IsWhite(m, id) && IsBlack(m', id) == IsBlack(m, id) && IsGray(m', id) == IsGray(m, id)
  {
    forall id
      ensures IsWhite(m', id) == IsWhite(m, id) && IsGray(m', id) == IsGray(m, id) && IsBlack(m', id) == IsBlack(m, id)
    {
    }
    forall id ensures Count(m', id) == Count(m, id) { }
    assert KindsOk(m') && Advanced(m, m');
    hide Count, IsWhite, IsGray, Traversed, KindsOk, Advanced;
  }

  lemma ColoursWeak(m: Marking, m': Marking, stage: nat)
    requires WeakOk(m, stage) && SameColours(m, m')
    ensures WeakOk(m', stage)
  {
    hide WeakKeys, WeakValues;
  }

  lemma ColoursInv(m: Marking, q: set<Id>, m': Marking, stage: nat)
    requires MarkInv(m, q, [], stage) && SameColours(m, m')
    ensures MarkInv(m', q, [], stage) && Advanced(m, m')
  {
    ColoursShape(m, m', stage);
    ColoursWeak(m, m', stage);
    hide WeakOk, KindsOk, Advanced, IsWhite, IsGray, IsBlack, ListsOk, Holds;
    forall j, x | j in m'.objs && j !in q && Settled(m', j, stage) && Due(m', j, x) && IsWhite(m', x)
      ensures Ref(x) in []
    {
      assert Settled(m, j, stage) && Due(m, j, x) && IsWhite(m, x);
    }
  }

  lemma SetFinalizedInv(m: Marking, q: set<Id>, u: Id, stage: nat)
    requires MarkInv(m, q, [], stage)
    ensures MarkInv(SetFinalized(m, u), q, [], stage) && Advanced(m, SetFinalized(m, u))
            && SetFinalized(m, u).gray == m.gray
    ensures forall x :: IsWhite(SetFinalized(m, u), x) <==> IsWhite(m, x)
    ensures SetFinalized(m, u).objs == m.objs
  {
    FinalizedColours(m, u);
    hide MarkInv, Advanced;
    ColoursInv(m, q, SetFinalized(m, u), stage);
  }

  /** Separating userdata splits their list and only sets marks of white ones. */
  lemma {:induction false} SeparateInv(m: Marking, q: set<Id>, us: seq<Id>, stage: nat)
    requires MarkInv(m, q, [], stage)
    ensures var s := Separate(m, us);
      && MarkInv(s.m, q, [], stage) && Advanced(m, s.m) && s.m.objs == m.objs && s.m.gray == m.gray
      && (forall id :: multiset(s.kept)[id] + multiset(s.moved)[id] == multiset(us)[id])
      && (forall id :: id in s.moved ==> IsWhite(m, id) && HasFinalizer(m.objs, m.names, id))
      && (forall x :: IsWhite(s.m, x) <==> IsWhite(m, x))
    decreases |us|
  {
    hide MarkInv, Advanced, MetaField;
    if us != [] {
      var m1 := SetFinalized(m, us[0]);
      SetFinalizedInv(m, q, us[0], stage);
      SeparateInv(m1, q, us[1..], stage);
      AdvancedTwice(m, m1, Separate(m1, us[1..]).m);
      assert us == [us[0]] + us[1..];
    } else {
      AdvancedSelf(m);
    }
  }

  lemma WhitenLists(m: Marking, u: Id, w: bool)
    requires ListsOk(m) && u in m.objs && m.objs[u].Udata?
    ensures ListsOk(SetColour(m, u, White(w)))
  {
    var m' := SetColour(m, u, White(w));
    forall id ensures Count(m', id) == if id in m'.objs && IsGray(m', id) && Traversed(m'.objs[id]) then 1 else 0 {
      assert Count(m', id) == Count(m, id);
    }
  }

  lemma WhitenKinds(m: Marking, u: Id, stage: nat)
    requires KindsOk(m) && ListsOk(m) && WeakOk(m, stage) && u in m.objs && m.objs[u].Udata?
    ensures var m' := SetColour(m, u, White(m.cw));
            KindsOk(m') && WeakOk(m', stage) && u !in m.weak && u !in m.grayagain
  {
    assert Count(m, u) == 0;
    hide Count, ListsOk, WeakKeys, WeakValues;
  }

  lemma WhitenInv(m: Marking, q: set<Id>, u: Id, stage: nat)
    requires MarkInv(m, q, [], stage) && u in m.objs && m.objs[u].Udata?
    ensures MarkInv(SetColour(m, u, White(m.cw)), q - {u}, [Ref(u)], stage)
  {
    hide Count, ListsOk, KindsOk, WeakOk;
    var m1 := SetColour(m, u, White(m.cw));
    WhitenLists(m, u, m.cw);
    WhitenKinds(m, u, stage);
    forall j, x | j in m1.objs && j !in q - {u} && Settled(m1, j, stage) && Due(m1, j, x) && IsWhite(m1, x)
      ensures Ref(x) in [Ref(u)]
    {
      assert Settled(m, j, stage) && Due(m, j, x);
    }
  }

  lemma TmuAdvanced(m: Marking, u: Id)
    requires u in m.objs && u in m.marks && m.objs[u].Udata?
    ensures var m2 := MarkAll(SetColour(m, u, White(m.cw)), [Ref(u)]);
            Advanced(m, m2) && !IsWhite(m2, u) && m2.objs == m.objs
  {
    var m1 := SetColour(m, u, White(m.cw));
    var m2 := MarkAll(m1, [Ref(u)]);
    MarkAllMarked(m1, [Ref(u)]);
    assert m1.objs == m.objs && m1.marks.Keys == m.marks.Keys && m1.cw == m.cw && m1.names == m.names;
    hide MarkAll;
    forall id | id in m.marks ensures AdvancedAt(m.marks[id], m2.marks[id]) { assert MarkedAt(m1, m2, id); }
    assert Tidied(m.objs, m2.objs);
  }

  lemma TmuStep(m: Marking, q: set<Id>, u: Id, stage: nat)
    requires MarkInv(m, q, [], stage) && u in m.objs && m.objs[u].Udata?
    ensures var m2 := MarkAll(SetColour(m, u, White(m.cw)), [Ref(u)]);
            MarkInv(m2, q - {u}, [], stage) && Advanced(m, m2) && !IsWhite(m2, u) && m2.objs == m.objs
  {
    hide MarkInv, Advanced, SetColour;
    var m1 := SetColour(m, u, White(m.cw));
    HasMark(m, q, [], stage);
    WhitenInv(m, q, u, stage);
    assert [Ref(u)] + [] == [Ref(u)];
    MarkAllInv(m1, q - {u}, [Ref(u)], [], stage);
    TmuAdvanced(m, u);
  }

  lemma {:induction false} MarkTmuInv(m: Marking, q: set<Id>, us: seq<Id>, stage: nat)
    requires MarkInv(m, q, [], stage) && (forall u :: u in us ==> u in m.objs && m.objs[u].Udata?)
    ensures MarkInv(MarkTmu(m, us), q - Ids(us), [], stage) && Advanced(m, MarkTmu(m, us))
    ensures forall u :: u in us ==> !IsWhite(MarkTmu(m, us), u)
    decreases |us|
  {
    hide MarkInv, Advanced;
    if us != [] {
      var m2 := MarkAll(SetColour(m, us[0], White(m.cw)), [Ref(us[0])]);
      TmuStep(m, q, us[0], stage);
      MarkTmuInv(m2, q - {us[0]}, us[1..], stage);
      AdvancedTwice(m, m2, MarkTmu(m2, us[1..]));
      StaysMarked(m2, MarkTmu(m2, us[1..]), us[0]);
      assert us == [us[0]] + us[1..];
      assert q - {us[0]} - Ids(us[1..]) == q - Ids(us);
    } else {
      assert q - Ids(us) == q;
      AdvancedSelf(m);
    }
  }
}
