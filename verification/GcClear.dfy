/** Weak tables (lua/lgc.c:329-375): `cleartable` removes exactly the entries that hold garbage, and
    afterwards no marked object refers to a white one, weakly or strongly. */
module GcClear {
  import opened GcHeap
  import opened GcMark
  import opened GcCollector

  // ---------------------------------------------------------------- entries

  lemma {:induction false} InNodeVals(nodes: seq<Node>, v: Val) returns (i: nat)
    requires v in NodeVals(nodes, false, false)
    ensures i < |nodes| && nodes[i].val != Nil && (v == KeyVal(nodes[i].key) || v == nodes[i].val)
    decreases |nodes|
  {
    if v in EntryVals(nodes[|nodes| - 1], false, false) { i := |nodes| - 1; }
    else { i := InNodeVals(nodes[..|nodes| - 1], v); }
  }

  lemma {:induction false} VisitHas(m: Marking, nodes: seq<Node>, i: nat)
    requires i < |nodes| && nodes[i].val != Nil
    ensures KeyVal(nodes[i].key) in NodeVisits(m, nodes)
    ensures !Cleared(m, KeyVal(nodes[i].key), true) ==> nodes[i].val in NodeVisits(m, nodes)
    decreases |nodes|
  {
    if i < |nodes| - 1 { VisitHas(m, nodes[..|nodes| - 1], i); }
  }

  /** Marks change only in that strings become gray. */
  ghost predicate OnlyStrings(m: Marking, m': Marking) {
    && m'.marks.Keys == m.marks.Keys && m'.objs.Keys == m.objs.Keys
    && m' == m.(objs := m'.objs, marks := m'.marks)
    && (forall id :: id in m.marks ==> m'.marks[id] == m.marks[id] || StringMarked(m, m', id))
    && (forall id :: id in m.objs ==> m'.objs[id] == m.objs[id] || (m.objs[id].Table? && m'.objs[id].Table?))
  }

  ghost predicate StringMarked(m: Marking, m': Marking, id: Id)
    requires id in m.marks && id in m'.marks
  {
    id in m.objs && m.objs[id].Str? && IsWhite(m, id) && m'.marks[id] == m.marks[id].(colour := Gray)
  }

  lemma OnlyStringsTwice(m0: Marking, m1: Marking, m2: Marking)
    requires OnlyStrings(m0, m1) && OnlyStrings(m1, m2)
    ensures OnlyStrings(m0, m2)
  {
    forall id | id in m0.marks ensures m2.marks[id] == m0.marks[id] || StringMarked(m0, m2, id) {
      assert m1.marks[id] == m0.marks[id] || StringMarked(m0, m1, id);
      assert m2.marks[id] == m1.marks[id] || StringMarked(m1, m2, id);
      if id in m0.objs { assert m1.objs[id] == m0.objs[id] || (m0.objs[id].Table? && m1.objs[id].Table?); }
    }
  }

  lemma {:induction false} MarkStringsOnly(m: Marking, vs: seq<Val>)
    ensures OnlyStrings(m, MarkStrings(m, vs)) && MarkStrings(m, vs).objs == m.objs
    ensures forall x :: Ref(x) in vs && x in m.objs && m.objs[x].Str? ==> !IsWhite(MarkStrings(m, vs), x)
    decreases |vs|
  {
    if vs != [] {
      var m1 := if Markable(m, vs[0]) && m.objs[vs[0].id].Str? then SetColour(m, vs[0].id, Gray) else m;
      assert OnlyStrings(m, m1);
      MarkStringsOnly(m1, vs[1..]);
      OnlyStringsTwice(m, m1, MarkStrings(m, vs));
      forall x | Ref(x) in vs && x in m.objs && m.objs[x].Str? ensures !IsWhite(MarkStrings(m, vs), x) {
        assert vs == [vs[0]] + vs[1..];
        if IsWhite(MarkStrings(m, vs), x) { assert MarkStrings(m, vs).marks[x] == m1.marks[x]; }
      }
    }
  }

  lemma ClearTableOnly(m: Marking, h: Id)
    ensures OnlyStrings(m, ClearTable(m, h))
    ensures forall id :: id in m.objs && id != h ==> ClearTable(m, h).objs[id] == m.objs[id]
  {
    if h in m.objs && m.objs[h].Table? && h in m.marks {
      MarkStringsOnly(m, Visits(m, m.objs[h], m.marks[h].weakVal));
    }
  }

  // ---------------------------------------------------------------- one table

  /** What the table holds strongly, according to its own bits, is marked. */
  ghost predicate BitsClosed(m: Marking, h: Id) {
    h in m.objs && h in m.marks ==>
      forall x :: Ref(x) in Fields(m.objs, m.objs[h], m.marks[h].weakKey, m.marks[h].weakVal) ==> !IsWhite(m, x)
  }

  /** Everything the object refers to exists and is marked. */
  ghost predicate ClosedAt(m: Marking, id: Id) {
    forall x :: Refers(m.objs, id, x) ==> x in m.objs && !IsWhite(m, x)
  }

  ghost predicate RefsExist(m: Marking, id: Id) { forall x :: Refers(m.objs, id, x) ==> x in m.objs }

  /** A value that stays where it is visited is marked. */
  lemma KeptMarked(m: Marking, m': Marking, vs: seq<Val>, v: Val, isKey: bool)
    requires v in vs && v.Ref? && v.id in m.objs && m.marks.Keys == m.objs.Keys && !Cleared(m, v, isKey)
    requires m'.marks == MarkStrings(m, vs).marks
    ensures !IsWhite(m', v.id)
  {
    MarkStringsOnly(m, vs);
    assert MarkStrings(m, vs).marks[v.id] == m.marks[v.id] || StringMarked(m, MarkStrings(m, vs), v.id);
  }

  lemma EntryKept(m: Marking, h: Id, x: Id)
    requires m.marks.Keys == m.objs.Keys && h in m.objs && m.objs[h].Table? && RefsExist(m, h)
    requires Ref(x) in NodeVals(ClearNodes(m, m.objs[h].nodes), false, false)
    ensures x in m.objs && !IsWhite(ClearTable(m, h), x)
  {
    var t, m' := m.objs[h], ClearTable(m, h);
    var vs := Visits(m, t, m.marks[h].weakVal);
    var i := InNodeVals(ClearNodes(m, t.nodes), Ref(x));
    var n := t.nodes[i];
    assert ClearNodes(m, t.nodes)[i] == ClearNode(m, n) == n;
    VisitHas(m, t.nodes, i);
    EntryHeld(t.nodes, i);
    assert Refers(m.objs, h, x);
    if Ref(x) == n.val { KeptMarked(m, m', vs, Ref(x), false); } else { KeptMarked(m, m', vs, Ref(x), true); }
  }

  lemma SlotKept(m: Marking, h: Id, x: Id)
    requires m.marks.Keys == m.objs.Keys && h in m.objs && m.objs[h].Table? && RefsExist(m, h) && BitsClosed(m, h)
    requires Ref(x) in ClearedTable(m, m.objs[h], m.marks[h].weakVal).arr
    ensures x in m.objs && !IsWhite(ClearTable(m, h), x)
  {
    var t, m', wv := m.objs[h], ClearTable(m, h), m.marks[h].weakVal;
    ClearTableOnly(m, h);
    if wv {
      var i :| 0 <= i < |t.arr| && ClearArray(m, t.arr)[i] == Ref(x);
      assert t.arr[i] == Ref(x);
      assert Refers(m.objs, h, x);
      KeptMarked(m, m', Visits(m, t, wv), Ref(x), false);
    } else {
      assert Ref(x) in Backward(t.arr) && Refers(m.objs, h, x);
      assert m'.marks[x] == m.marks[x] || StringMarked(m, m', x);
    }
  }

  /** A table that has been cleared refers to marked objects only. */
  lemma ClearTableClosed(m: Marking, h: Id)
    requires m.marks.Keys == m.objs.Keys && h in m.objs && m.objs[h].Table? && RefsExist(m, h) && BitsClosed(m, h)
    ensures ClosedAt(ClearTable(m, h), h)
  {
    var t, m' := m.objs[h], ClearTable(m, h);
    var t' := ClearedTable(m, t, m.marks[h].weakVal);
    ClearTableOnly(m, h);
    assert m'.objs[h] == t';
    forall x | Refers(m'.objs, h, x) ensures x in m'.objs && !IsWhite(m', x) {
      if Ref(x) == t.mt {
        assert Refers(m.objs, h, x) && !IsWhite(m, x);
        assert m'.marks[x] == m.marks[x] || StringMarked(m, m', x);
      } else if Ref(x) in t'.arr {
        SlotKept(m, h, x);
      } else {
        EntryKept(m, h, x);
      }
    }
  }

  // ---------------------------------------------------------------- all tables

  lemma FieldsSame(m: Marking, m': Marking, id: Id, wk: bool, wv: bool)
    requires OnlyStrings(m, m') && id in m.objs && m'.objs[id] == m.objs[id]
    ensures Fields(m'.objs, m'.objs[id], wk, wv) == Fields(m.objs, m.objs[id], wk, wv)
  {
    match m.objs[id]
    case Upval(Open(th, _)) => if th in m.objs { assert m'.objs[th] == m.objs[th] || m.objs[th].Table?; }
    case _ =>
  }

  lemma StillMarked(m: Marking, m': Marking, x: Id)
    requires OnlyStrings(m, m') && !IsWhite(m, x)
    ensures !IsWhite(m', x)
  {
    if x in m.marks { assert m'.marks[x] == m.marks[x] || StringMarked(m, m', x); }
  }

  lemma StillClosed(m: Marking, m': Marking, id: Id)
    requires OnlyStrings(m, m') && id in m.objs && m'.objs[id] == m.objs[id]
    ensures ClosedAt(m, id) ==> ClosedAt(m', id)
    ensures RefsExist(m, id) ==> RefsExist(m', id)
    ensures m.objs[id].Table? && BitsClosed(m, id) ==> BitsClosed(m', id)
  {
    FieldsSame(m, m', id, false, false);
    forall x | !IsWhite(m, x) ensures !IsWhite(m', x) { StillMarked(m, m', x); }
    if m.objs[id].Table? && id in m.marks {
      FieldsSame(m, m', id, m.marks[id].weakKey, m.marks[id].weakVal);
      assert m'.marks[id] == m.marks[id];
    }
  }

  predicate NoDup(l: seq<Id>) { forall i, j :: 0 <= i < j < |l| ==> l[i] != l[j] }

  lemma {:induction false} ClearTablesClosed(m: Marking, hs: seq<Id>)
    requires m.marks.Keys == m.objs.Keys && NoDup(hs)
    requires forall h :: h in hs ==> h in m.objs && m.objs[h].Table? && RefsExist(m, h) && BitsClosed(m, h)
    ensures OnlyStrings(m, ClearTables(m, hs))
    ensures forall h :: h in hs ==> ClosedAt(ClearTables(m, hs), h)
    ensures forall id :: id in m.objs && id !in hs ==> ClearTables(m, hs).objs[id] == m.objs[id]
    decreases |hs|
  {
    hide OnlyStrings, ClosedAt, RefsExist, BitsClosed, ClearTable;
    if hs != [] {
      var m1 := ClearTable(m, hs[0]);
      ClearTableOnly(m, hs[0]);
      ClearTableClosed(m, hs[0]);
      SameKeys(m, m1);
      assert hs == [hs[0]] + hs[1..] && hs[0] !in hs[1..];
      forall h | h in hs[1..] ensures h in m1.objs && m1.objs[h].Table? && RefsExist(m1, h) && BitsClosed(m1, h) {
        StillClosed(m, m1, h);
      }
      ClearTablesClosed(m1, hs[1..]);
      OnlyStringsTwice(m, m1, ClearTables(m, hs));
      StillClosed(m1, ClearTables(m1, hs[1..]), hs[0]);
    } else {
      ClearNothing(m);
    }
  }

  lemma SameKeys(m: Marking, m': Marking)
    requires OnlyStrings(m, m')
    ensures m'.marks.Keys == m.marks.Keys && m'.objs.Keys == m.objs.Keys
  {
  }

  lemma ClearNothing(m: Marking)
    ensures OnlyStrings(m, m)
  {
  }
}
