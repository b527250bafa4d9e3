/** Which objects a full collection leaves (lua/lgc.c:337-375, 407-428, 636-659). */
module GcExact {
  import opened GcHeap
  import opened GcMark
  import opened GcCollector
  import opened GcAtomic
  import opened GcClear
  import opened GcStateMark
  import opened GcStrings

  // ---------------------------------------------------------------- marking stays inside

  /** What members of `S` refer to strongly is in `S`. */
  ghost predicate ClosedSet(objs: Heap, names: Names, S: set<Id>) {
    forall o, x {:trigger StronglyRefers(objs, names, o, x)} ::
      o in S && StronglyRefers(objs, names, o, x) && x in objs ==> x in S
  }

  ghost predicate Within(m: Marking, S: set<Id>) { forall id :: id in m.marks && !IsWhite(m, id) ==> id in S }

  ghost predicate ValsWithin(m: Marking, vs: seq<Val>, S: set<Id>) {
    forall id :: Ref(id) in vs && id in m.objs ==> id in S
  }

  lemma InnerWithin(m: Marking, id: Id, S: set<Id>)
    requires ClosedSet(m.objs, m.names, S) && id in S && id in m.objs
    ensures ValsWithin(m, Inner(m.objs, m.objs[id]), S)
  {
    forall x | Ref(x) in Inner(m.objs, m.objs[id]) && x in m.objs ensures x in S {
      assert StronglyRefers(m.objs, m.names, id, x);
    }
  }

  lemma {:induction false} MarkAllWithin(m: Marking, vs: seq<Val>, S: set<Id>)
    requires Within(m, S) && ValsWithin(m, vs, S) && ClosedSet(m.objs, m.names, S)
    ensures Within(MarkAll(m, vs), S)
    decreases |Whites(m)|, |vs|
  {
    if vs != [] {
      assert vs == [vs[0]] + vs[1..];
      if Markable(m, vs[0]) {
        InnerWithin(m, vs[0].id, S);
        hide ClosedSet;
        assert MarkOne(m, vs[0].id).objs == m.objs && MarkOne(m, vs[0].id).names == m.names;
        MarkAllWithin(MarkOne(m, vs[0].id), Inner(m.objs, m.objs[vs[0].id]) + vs[1..], S);
      } else {
        hide ClosedSet;
        MarkAllWithin(m, vs[1..], S);
      }
    }
  }

  lemma TidyClosed(objs: Heap, objs': Heap, names: Names, S: set<Id>)
    requires Tidied(objs, objs') && ClosedSet(objs, names, S)
    ensures ClosedSet(objs', names, S)
  {
    forall o, x | o in S && StronglyRefers(objs', names, o, x) && x in objs' ensures x in S {
      TidyRefers(objs, objs', names, o);
      assert StronglyRefers(objs, names, o, x);
    }
  }

  /** Marks stay in `S`, and no black table is weak. */
  ghost predicate Inside(m: Marking, S: set<Id>) {
    Within(m, S) && ClosedSet(m.objs, m.names, S) && BlackStrong(m)
  }

  ghost predicate BlackStrong(m: Marking) {
    forall id ::
      id in m.objs && m.objs[id].Table? && IsBlack(m, id) ==>
        !WeakKeys(m.objs, m.names, id) && !WeakValues(m.objs, m.names, id)
  }

  lemma MarkAllInside(m: Marking, vs: seq<Val>, S: set<Id>)
    requires Inside(m, S) && ValsWithin(m, vs, S)
    ensures Inside(MarkAll(m, vs), S)
  {
    var m' := MarkAll(m, vs);
    MarkAllMarked(m, vs);
    assert m'.objs == m.objs && m'.names == m.names;
    forall id | id in m'.objs && m'.objs[id].Table? && IsBlack(m', id)
      ensures IsBlack(m, id)
    {
      assert MarkedAt(m, m', id);
    }
    hide ClosedSet, WeakKeys, WeakValues, Within, ValsWithin;
    assert Within(m', S) by { MarkAllWithin(m, vs, S); }
  }

  lemma OpenedInside(m: Marking, o: Id, S: set<Id>)
    requires Inside(m, S) && o in m.objs && IsGray(m, o)
    ensures Inside(Opened(m, o), S)
  {
    var m' := Opened(m, o);
    OpenedTidied(m, o);
    PlacedMarks(m, o, WayOf(m, o));
    assert m'.names == m.names;
    assert WayOf(m, o) == Darken ==> !WeakKeys(m.objs, m.names, o) && !WeakValues(m.objs, m.names, o);
    hide Opened, WayOf, Placed;
    TidyClosed(m.objs, m'.objs, m.names, S);
    forall id | id in m'.objs && m'.objs[id].Table? && IsBlack(m', id)
      ensures !WeakKeys(m'.objs, m.names, id) && !WeakValues(m'.objs, m.names, id)
    {
      TidyWeak(m.objs, m'.objs, m.names, id);
      assert TidiedAt(m.objs[id], m'.objs[id]);
    }
    assert Within(m', S) by { OpenedWithin(m, o, S); }
  }

  lemma OpenedWithin(m: Marking, o: Id, S: set<Id>)
    requires Within(m, S) && IsGray(m, o)
    ensures Within(Opened(m, o), S)
  {
  }

  lemma PropagateInside(m: Marking, S: set<Id>)
    requires Inside(m, S) && m.gray != [] && ListsOk(m) && m.marks.Keys == m.objs.Keys
    ensures Inside(Propagate(m), S)
  {
    var o, m0 := m.gray[0], m.(gray := m.gray[1..]);
    HeadGray(m);
    assert o in S;
    assert Inside(m0, S);
    assert ValsWithin(m, StrongFields(m.objs, m.names, o), S) by {
      forall x | Ref(x) in StrongFields(m.objs, m.names, o) && x in m.objs
        ensures x in S
      {
        assert StronglyRefers(m.objs, m.names, o, x);
      }
    }
    OpenedTidied(m0, o);
    hide Inside, Opened, ListsOk;
    OpenedInside(m0, o, S);
    MarkAllInside(Opened(m0, o), StrongFields(m.objs, m.names, o), S);
  }

  lemma {:induction false} PropagateAllInside(m: Marking, q: set<Id>, S: set<Id>, stage: nat)
    requires Inside(m, S) && MarkInv(m, q, [], stage)
    ensures Inside(PropagateAll(m), S)
    decreases |Whites(m)| + |m.gray|
  {
    hide Inside, MarkInv;
    if m.gray != [] {
      PropagateShrinks(m);
      ListsOfInv(m, q, stage);
      HasMark(m, q, [], stage);
      PropagateInside(m, S);
      PropagateInv(m, q, stage);
      PropagateAllInside(Propagate(m), q, S, stage);
    }
  }

  lemma {:induction false} RemarkInside(m: Marking, uvs: seq<Id>, S: set<Id>)
    requires Inside(m, S)
    ensures Inside(Remark(m, uvs), S)
    decreases |uvs|
  {
    if uvs != [] {
      var u := uvs[0];
      if IsGray(m, u) && u in m.objs && m.objs[u].Upval? {
        var vs := [HomeVal(m.objs, m.objs[u].home)];
        forall x | Ref(x) in vs && x in m.objs ensures x in S { assert StronglyRefers(m.objs, m.names, u, x); }
        hide Inside;
        MarkAllInside(m, vs, S);
        RemarkInside(MarkAll(m, vs), uvs[1..], S);
      } else {
        RemarkInside(m, uvs[1..], S);
      }
    }
  }

  lemma Relist(m: Marking, m': Marking, S: set<Id>)
    requires Inside(m, S) && Relisted(m, m')
    ensures Inside(m', S)
  {
    assert m'.objs == m.objs && m'.names == m.names && m'.marks == m.marks;
    hide ClosedSet, WeakKeys, WeakValues;
  }

  lemma FinishInside(g: G, q: set<Id>, S: set<Id>)
    requires MarkInv(g.m, q, [], 0) && UpvalsListed(g.m, g.uvhead) && Inside(g.m, S)
             && forall x :: Ref(x) in [Ref(g.cur)] + g.mts && x in g.m.objs ==> x in S
    ensures Inside(Finish(g), S)
  {
    hide MarkInv, Inside;
    var m0 := Remark(g.m, g.uvhead);
    RemarkInv(g.m, q, g.uvhead);
    RemarkInside(g.m, g.uvhead, S);
    PropagateAllInv(m0, q, 1);
    PropagateAllInside(m0, q, S, 1);
    var m1 := PropagateAll(m0);
    WeakStage(m1, q);
    var m2, roots := m1.(gray := m1.weak, weak := []), [Ref(g.cur)] + g.mts;
    Relist(m1, m2, S);
    assert m2.objs.Keys == g.m.objs.Keys by { AdvancedTidied(g.m, m0); AdvancedTidied(m0, m1); }
    MarkMoreInv(m2, q, roots, 2);
    MarkAllInside(m2, roots, S);
    var m3 := MarkAll(m2, roots);
    PropagateAllInv(m3, q, 2);
    PropagateAllInside(m3, q, S, 2);
    FinishLast(PropagateAll(m3), q, S);
  }

  lemma FinishLast(m: Marking, q: set<Id>, S: set<Id>)
    requires MarkInv(m, q, [], 2) && m.gray == [] && Inside(m, S)
    ensures Inside(PropagateAll(m.(gray := m.grayagain, grayagain := [])), S)
  {
    hide MarkInv, Inside;
    AgainStage(m, q);
    Relist(m, m.(gray := m.grayagain, grayagain := []), S);
    PropagateAllInside(m.(gray := m.grayagain, grayagain := []), q, S, 3);
  }

  lemma AdvancedNames(m: Marking, m': Marking)
    requires Advanced(m, m')
    ensures m'.names == m.names
  {
  }

  // ---------------------------------------------------------------- strings in weak tables

  predicate IsWeak(objs: Heap, names: Names, h: Id) { WeakKeys(objs, names, h) || WeakValues(objs, names, h) }

  /** A key that is garbage if `S` are the objects that are kept. */
  predicate GarbageKey(objs: Heap, S: set<Id>, v: Val) { v.Ref? && v.id in objs && !objs[v.id].Str? && v.id !in S }

  /** `s` is a value in the array part of a table with weak values, a key of an entry, or the value of an entry
      whose key is not garbage. */
  ghost predicate FoundIn(objs: Heap, S: set<Id>, t: Obj, weakVal: bool, s: Id)
    requires t.Table?
  {
    || (weakVal && Ref(s) in t.arr)
    || exists i :: 0 <= i < |t.nodes| && FoundAt(objs, S, t.nodes[i], s)
  }

  predicate FoundAt(objs: Heap, S: set<Id>, n: Node, s: Id) {
    n.val != Nil && (KeyVal(n.key) == Ref(s) || (n.val == Ref(s) && !GarbageKey(objs, S, KeyVal(n.key))))
  }

  /** `s` is a string that `cleartable` finds in a weak table of `S`. */
  ghost predicate FoundWeakly(objs: Heap, names: Names, S: set<Id>, s: Id) {
    && s in objs && objs[s].Str?
    && exists h :: h in S && IsWeak(objs, names, h) && FoundIn(objs, S, objs[h], WeakValues(objs, names, h), s)
  }

  lemma {:induction false} VisitsNodes(m: Marking, S: set<Id>, nodes: seq<Node>, s: Id)
    requires m.marks.Keys == m.objs.Keys && forall x :: x in m.objs ==> (x in S <==> !IsWhite(m, x))
    ensures Ref(s) in NodeVisits(m, nodes) <==> exists i :: 0 <= i < |nodes| && FoundAt(m.objs, S, nodes[i], s)
    decreases |nodes|
  {
    if nodes != [] {
      var n, rest := nodes[|nodes| - 1], nodes[..|nodes| - 1];
      VisitsNodes(m, S, rest, s);
      assert Cleared(m, KeyVal(n.key), true) == GarbageKey(m.objs, S, KeyVal(n.key));
      if Ref(s) in NodeVisits(m, rest) {
        var i :| 0 <= i < |rest| && FoundAt(m.objs, S, rest[i], s);
        assert FoundAt(m.objs, S, nodes[i], s);
      }
      if FoundAt(m.objs, S, n, s) { assert FoundAt(m.objs, S, nodes[|nodes| - 1], s); }
      if exists i :: 0 <= i < |nodes| && FoundAt(m.objs, S, nodes[i], s) {
        var i :| 0 <= i < |nodes| && FoundAt(m.objs, S, nodes[i], s);
        if i < |nodes| - 1 { assert FoundAt(m.objs, S, rest[i], s); }
      }
    }
  }

  lemma VisitsAre(m: Marking, S: set<Id>, t: Obj, wv: bool, s: Id)
    requires t.Table? && m.marks.Keys == m.objs.Keys && forall x :: x in m.objs ==> (x in S <==> !IsWhite(m, x))
    ensures Ref(s) in Visits(m, t, wv) <==> FoundIn(m.objs, S, t, wv, s)
  {
    VisitsNodes(m, S, t.nodes, s);
  }

  lemma {:induction false} MarkStringsWhite(m: Marking, vs: seq<Val>, x: Id)
    ensures IsWhite(MarkStrings(m, vs), x) <==> IsWhite(m, x) && !(Ref(x) in vs && IsStr(m, x))
    ensures MarkStrings(m, vs).objs == m.objs
    decreases |vs|
  {
    if vs != [] {
      assert vs == [vs[0]] + vs[1..];
      MarkStringsWhite(if Markable(m, vs[0])
        && m.objs[vs[0].id].Str? then SetColour(m, vs[0].id, Gray) else m, vs[1..], x);
    }
  }

  lemma SameCleared(m: Marking, m': Marking, v: Val, isKey: bool)
    requires OnlyStrings(m, m')
    ensures Cleared(m', v, isKey) == Cleared(m, v, isKey)
  {
    if v.Ref? && v.id in m.objs && v.id in m.marks {
      assert m'.objs[v.id] == m.objs[v.id] || (m.objs[v.id].Table? && m'.objs[v.id].Table?);
      assert m'.marks[v.id] == m.marks[v.id] || StringMarked(m, m', v.id);
    }
  }

  lemma {:induction false} SameVisits(m: Marking, m': Marking, nodes: seq<Node>)
    requires OnlyStrings(m, m')
    ensures NodeVisits(m', nodes) == NodeVisits(m, nodes)
    decreases |nodes|
  {
    if nodes != [] {
      SameCleared(m, m', KeyVal(nodes[|nodes| - 1].key), true);
      SameVisits(m, m', nodes[..|nodes| - 1]);
    }
  }

  /** The string has been found in one of the tables. */
  ghost predicate FoundBy(m: Marking, hs: seq<Id>, x: Id) {
    exists h ::
      h in hs && h in m.objs && m.objs[h].Table? && h in m.marks && Ref(x) in Visits(m, m.objs[h], m.marks[h].weakVal)
  }

  lemma ClearTableWhite(m: Marking, h: Id, x: Id)
    requires h in m.objs && m.objs[h].Table? && h in m.marks
    ensures IsWhite(ClearTable(m, h), x) <==>
              IsWhite(m, x) && !(Ref(x) in Visits(m, m.objs[h], m.marks[h].weakVal) && IsStr(m, x))
  {
    MarkStringsWhite(m, Visits(m, m.objs[h], m.marks[h].weakVal), x);
  }

  lemma VisitsStay(m: Marking, m': Marking, h: Id)
    requires OnlyStrings(m, m') && h in m.objs && m.objs[h].Table? && h in m.marks && m'.objs[h] == m.objs[h]
    ensures h in m'.objs && h in m'.marks
            && Visits(m', m'.objs[h], m'.marks[h].weakVal) == Visits(m, m.objs[h], m.marks[h].weakVal)
  {
    SameVisits(m, m', m.objs[h].nodes);
    assert m'.marks[h] == m.marks[h] || StringMarked(m, m', h);
  }

  /** Exactly the strings that are found are marked. */
  lemma {:induction false} ClearTablesWhite(m: Marking, hs: seq<Id>, x: Id)
    requires NoDup(hs) && forall h :: h in hs ==> h in m.objs && m.objs[h].Table? && h in m.marks
    ensures IsWhite(ClearTables(m, hs), x) <==> IsWhite(m, x) && !(FoundBy(m, hs, x) && IsStr(m, x))
    decreases |hs|
  {
    hide OnlyStrings, ClearTable, Visits;
    if hs != [] {
      var m1 := ClearTable(m, hs[0]);
      ClearTableOnly(m, hs[0]);
      ClearTableWhite(m, hs[0], x);
      assert hs == [hs[0]] + hs[1..] && hs[0] !in hs[1..];
      forall h | h in hs[1..]
        ensures h in m1.objs && m1.objs[h] == m.objs[h] && h in m1.marks
                && Visits(m1, m1.objs[h], m1.marks[h].weakVal) == Visits(m, m.objs[h], m.marks[h].weakVal)
      {
        VisitsStay(m, m1, h);
      }
      ClearTablesWhite(m1, hs[1..], x);
      assert IsStr(m1, x) == IsStr(m, x) by { StrStays(m, m1, x); }
      FoundFirst(m, m1, hs, x);
    }
  }

  lemma StrStays(m: Marking, m': Marking, x: Id)
    requires OnlyStrings(m, m')
    ensures IsStr(m', x) == IsStr(m, x)
  {
    if x in m.objs { assert m'.objs[x] == m.objs[x] || (m.objs[x].Table? && m'.objs[x].Table?); }
  }

  lemma FoundFirst(m: Marking, m1: Marking, hs: seq<Id>, x: Id)
    requires hs != [] && forall h :: h in hs ==> h in m.objs && m.objs[h].Table? && h in m.marks
    requires forall h ::
               h in hs[1..] ==>
                 h in m1.objs && m1.objs[h] == m.objs[h] && h in m1.marks
                 && Visits(m1, m1.objs[h], m1.marks[h].weakVal) == Visits(m, m.objs[h], m.marks[h].weakVal)
    ensures FoundBy(m, hs, x) <==> FoundBy(m1, hs[1..], x) || Ref(x) in Visits(m, m.objs[hs[0]], m.marks[hs[0]].weakVal)
  {
    hide Visits;
    assert hs == [hs[0]] + hs[1..];
  }
}
