/** Marking does not depend on when it happens: values may be marked one by one while the object that holds them
    changes its colour, its entries and its place in the lists (lua/lgc.c:69-112, 158-320). */
module GcOrder {
  import opened GcHeap
  import opened GcMark
  import opened GcCollector
  import opened GcAtomic
  import opened GcState
  import opened GcClear
  import opened GcStateMark

  lemma {:induction false} MarkAllAppend(m: Marking, xs: seq<Val>, ys: seq<Val>)
    ensures MarkAll(m, xs + ys) == MarkAll(MarkAll(m, xs), ys)
    decreases |Whites(m)|, |xs|
  {
    if xs == [] {
      assert xs + ys == ys;
    } else {
      assert (xs + ys)[1..] == xs[1..] + ys;
      if Markable(m, xs[0]) {
        var inner := Inner(m.objs, m.objs[xs[0].id]);
        assert inner + (xs[1..] + ys) == (inner + xs[1..]) + ys;
        MarkAllAppend(MarkOne(m, xs[0].id), inner + xs[1..], ys);
      } else {
        MarkAllAppend(m, xs[1..], ys);
      }
    }
  }

  lemma MarkingOne(m: Marking, v: Val)
    ensures MarkAll(m, []) == m
    ensures MarkAll(m, [v]) == if Markable(m, v) then MarkAll(MarkOne(m, v.id), Inner(m.objs, m.objs[v.id])) else m
  {
    if Markable(m, v) { assert Inner(m.objs, m.objs[v.id]) + [v][1..] == Inner(m.objs, m.objs[v.id]); }
  }

  lemma OneWhiteLess(m: Marking, m': Marking, id: Id)
    requires IsWhite(m, id) && Whites(m') == Whites(m) - {id}
    ensures |Whites(m')| < |Whites(m)|
  {
    assert id in Whites(m);
  }

  /** What `reallymarkobject` does to the object itself, kind by kind. */
  lemma MarkingKinds(m: Marking, id: Id)
    requires id in m.objs && IsWhite(m, id)
    ensures var m1, t, o := MarkOne(m, id), SetColour(m, id, Gray), m.objs[id];
            && t.objs == m.objs && |Whites(t)| < |Whites(m)| && |Whites(m1)| < |Whites(m)|
            && match o
               case Str(_) => m1 == t && Inner(m.objs, o) == []
               case Udata(mt, env) => m1 == SetColour(t, id, Black) && Inner(m.objs, o) == [mt, env]
               case Upval(h) =>
                 && Inner(m.objs, o) == [HomeVal(m.objs, h)]
                 && if h.Open? then m1 == t
                      else id in m1.objs && id in m1.marks && m1.marks[id].colour.Black? && t == SetColour(m1, id, Gray)
               case _ => m1 == t.(gray := [id] + t.gray) && Inner(m.objs, o) == []
  {
    var t, k := SetColour(m, id, Gray), m.marks[id];
    assert Whites(t) == Whites(m) - {id};
    OneWhiteLess(m, t, id);
    OneWhiteLess(m, MarkOne(m, id), id);
    assert m.marks[id := k.(colour := Gray)][id := k.(colour := Black)] == m.marks[id := k.(colour := Black)];
    assert m.marks[id := k.(colour := Black)][id := k.(colour := Gray)] == m.marks[id := k.(colour := Gray)];
  }

  /** `x` with the contents and the mark of `o`, and the lists of tables and threads, from `t`. */
  function Over(x: Marking, o: Id, t: Marking): Marking
    requires o in t.objs && o in t.marks
  {
    x.(objs := x.objs[o := t.objs[o]], marks := x.marks[o := t.marks[o]], weak := t.weak, grayagain := t.grayagain)
  }

  /** `o` is not to be marked in either, and only the entries of a table may differ. */
  ghost predicate Alike(x: Marking, o: Id, t: Marking) {
    && o in x.objs && o in x.marks && !IsWhite(x, o) && o in t.objs && o in t.marks && !IsWhite(t, o)
    && (t.objs[o] == x.objs[o] || (t.objs[o].Table? && x.objs[o].Table?))
  }

  lemma OverOne(m: Marking, o: Id, t: Marking, id: Id)
    requires Alike(m, o, t) && id in m.objs && IsWhite(m, id)
    ensures id in Over(m, o, t).objs && IsWhite(Over(m, o, t), id)
            && MarkOne(Over(m, o, t), id) == Over(MarkOne(m, id), o, t)
    ensures Inner(Over(m, o, t).objs, Over(m, o, t).objs[id]) == Inner(m.objs, m.objs[id])
            && Alike(MarkOne(m, id), o, t)
  {
    var k := m.marks[id].(colour := MarkedColour(m.objs[id]));
    assert m.marks[o := t.marks[o]][id := k] == m.marks[id := k][o := t.marks[o]];
  }

  lemma {:induction false} MarkAllOver(m: Marking, o: Id, t: Marking, vs: seq<Val>)
    requires Alike(m, o, t)
    ensures MarkAll(Over(m, o, t), vs) == Over(MarkAll(m, vs), o, t) && Alike(MarkAll(m, vs), o, t)
    decreases |Whites(m)|, |vs|
  {
    if vs != [] {
      assert Markable(Over(m, o, t), vs[0]) == Markable(m, vs[0]);
      if Markable(m, vs[0]) {
        OverOne(m, o, t, vs[0].id);
        MarkAllOver(MarkOne(m, vs[0].id), o, t, Inner(m.objs, m.objs[vs[0].id]) + vs[1..]);
      } else {
        MarkAllOver(m, o, t, vs[1..]);
      }
    }
  }

  lemma {:induction false} WhitesOnlyLess(m: Marking, vs: seq<Val>)
    ensures |Whites(MarkAll(m, vs))| <= |Whites(m)|
    decreases |Whites(m)|, |vs|
  {
    if vs != [] {
      if Markable(m, vs[0]) {
        WhitesOnlyLess(MarkOne(m, vs[0].id), Inner(m.objs, m.objs[vs[0].id]) + vs[1..]);
      } else {
        WhitesOnlyLess(m, vs[1..]);
      }
    }
  }

  /** A closed upvalue may become black after its value has been marked. */
  lemma ClosedLast(m1: Marking, id: Id, t: Marking, v: Val)
    requires id in m1.objs && id in m1.marks && m1.marks[id].colour.Black? && t == SetColour(m1, id, Gray)
    ensures SetColour(MarkAll(t, [v]), id, Black) == MarkAll(m1, [v])
  {
    hide MarkAll;
    var b := MarkAll(m1, [v]);
    assert t == Over(m1, id, t);
    MarkAllOver(m1, id, t, [v]);
    MarkAllMarked(m1, [v]);
    assert b.marks[id] == m1.marks[id] && b.objs[id] == t.objs[id];
    assert b.marks[id := t.marks[id]][id := m1.marks[id]] == b.marks;
    assert b.objs[id := t.objs[id]] == b.objs;
  }

  /** `t` is what marking `done` has made of `m`, apart from `o`. */
  ghost predicate Amid(m: Marking, done: seq<Val>, o: Id, t: Marking) {
    Alike(m, o, t) && t == Over(MarkAll(m, done), o, t)
  }

  lemma AmidStep(m: Marking, done: seq<Val>, o: Id, t: Marking, vs: seq<Val>)
    requires Amid(m, done, o, t)
    ensures var t' := MarkAll(t, vs);
            Amid(m, done + vs, o, t') && t'.objs == t.objs && t'.marks[o] == t.marks[o] && t'.weak == t.weak
              && t'.grayagain == t.grayagain
  {
    var b := MarkAll(m, done);
    MarkAllOver(m, o, t, done);
    MarkAllOver(b, o, t, vs);
    MarkAllAppend(m, done, vs);
    MarkAllMarked(t, vs);
  }

  lemma {:induction false} ListsMarkAll(m: Marking, vs: seq<Val>)
    requires ListsOk(m)
    ensures ListsOk(MarkAll(m, vs))
    decreases |Whites(m)|, |vs|
  {
    hide ListsOk;
    if vs != [] {
      if Markable(m, vs[0]) {
        MarkOneLists(m, vs[0].id);
        ListsMarkAll(MarkOne(m, vs[0].id), Inner(m.objs, m.objs[vs[0].id]) + vs[1..]);
      } else {
        ListsMarkAll(m, vs[1..]);
      }
    }
  }

  lemma ListsPropagate(m: Marking)
    requires ListsOk(m) && m.gray != []
    ensures ListsOk(Propagate(m))
  {
    hide MarkAll, StrongFields;
    OpenedLists(m);
    ListsMarkAll(Opened(m.(gray := m.gray[1..]), m.gray[0]), StrongFields(m.objs, m.names, m.gray[0]));
  }

  /** What traversing `o` does to it and to the lists, in terms of `Amid`. */
  lemma Traversal(m: Marking, o: Id, t: Marking)
    requires o in m.objs && o in m.marks && !IsWhite(m, o) && Traversed(m.objs[o])
    requires var e := Opened(m, o);
             Amid(m, StrongFields(m.objs, m.names, o), o, t) && t.objs[o] == e.objs[o] && t.marks[o] == e.marks[o]
               && t.weak == e.weak && t.grayagain == e.grayagain
    ensures t == MarkAll(Opened(m, o), StrongFields(m.objs, m.names, o))
  {
    var e := Opened(m, o);
    assert e == Over(m, o, e);
    MarkAllOver(m, o, e, StrongFields(m.objs, m.names, o));
  }

  /** The nodes from `i` on have been visited: empty ones are cleaned. */
  ghost predicate Swept(nodes: seq<Node>, now: seq<Node>, i: int) {
    |now| == |nodes| && forall k :: 0 <= k < |nodes| ==> now[k] == if k >= i then CleanNode(nodes[k]) else nodes[k]
  }

  lemma SweptAll(nodes: seq<Node>, now: seq<Node>)
    requires Swept(nodes, now, 0)
    ensures now == CleanNodes(nodes)
  {
  }

  lemma NodeValsStep(nodes: seq<Node>, i: nat, wk: bool, wv: bool)
    requires i < |nodes|
    ensures NodeVals(nodes[..i + 1], wk, wv) == EntryVals(nodes[i], wk, wv) + NodeVals(nodes[..i], wk, wv)
  {
    assert nodes[..i + 1][..i] == nodes[..i];
  }

  lemma AmidChanged(m: Marking, done: seq<Val>, o: Id, t: Marking, t': Marking)
    requires Amid(m, done, o, t) && o in t'.marks && o in t'.objs && t' == Over(t, o, t') && Alike(m, o, t')
    ensures Amid(m, done, o, t')
  {
    hide MarkAll;
    var b := MarkAll(m, done);
    assert t == Over(b, o, t);
    assert b.objs[o := t.objs[o]][o := t'.objs[o]] == b.objs[o := t'.objs[o]];
    assert b.marks[o := t.marks[o]][o := t'.marks[o]] == b.marks[o := t'.marks[o]];
  }

  /** The values that a table holds strongly, in the order of `traversetable`. */
  lemma TableFields(objs: Heap, names: Names, h: Id)
    requires h in objs && objs[h].Table?
    ensures var t, wk, wv := objs[h], WeakKeys(objs, names, h), WeakValues(objs, names, h);
            StrongFields(objs, names, h) == ([t.mt] + if wv then [] else Backward(t.arr)) + if wk && wv then []
              else NodeVals(t.nodes, wk, wv)
  {
  }

  lemma TableOpened(m: Marking, h: Id)
    requires h in m.objs && m.objs[h].Table? && h in m.marks
    ensures var e, t, wk, wv := Opened(m, h), m.objs[h], WeakKeys(m.objs, m.names, h), WeakValues(m.objs, m.names, h);
            && h in e.objs && h in e.marks && e.grayagain == m.grayagain
            && e.objs[h] == (if wk && wv then t else t.(nodes := CleanNodes(t.nodes)))
            && e.marks[h]
                 == (if wk || wv then m.marks[h].(weakKey := wk, weakVal := wv) else m.marks[h].(colour := Black))
            && e.weak == if wk || wv then [h] + m.weak else m.weak
  {
    hide WeakKeys, WeakValues, CleanNodes;
  }

  lemma BeginAmid(m: Marking, h: Id, t: Marking)
    requires h in t.objs && h in t.marks && t.marks[h].colour.Black? && m == SetColour(t, h, Gray)
    ensures Amid(m, [], h, t)
  {
    MarkingOne(m, Nil);
    hide MarkAll;
    assert t.marks[h := m.marks[h]][h := t.marks[h]] == t.marks;
    assert t.objs[h := t.objs[h]] == t.objs;
  }

  /** The bits of a weak table are set, and it goes on the list of weak tables. */
  lemma NowWeak(m: Marking, done: seq<Val>, h: Id, t: Marking, wk: bool, wv: bool)
    requires Amid(m, done, h, t)
    ensures Amid(m, done, h, t.(marks := t.marks[h := t.marks[h].(weakKey := wk, weakVal := wv)], weak := [h] + t.weak))
  {
    hide MarkAll;
    var t' := t.(marks := t.marks[h := t.marks[h].(weakKey := wk, weakVal := wv)], weak := [h] + t.weak);
    assert t'.objs == t.objs[h := t'.objs[h]];
    AmidChanged(m, done, h, t, t');
  }

  /** A table has been traversed; a weak one becomes gray again. */
  lemma TableDone(m: Marking, h: Id, t: Marking)
    requires h in m.objs && m.objs[h].Table? && h in m.marks && m.marks[h].colour.Gray?
    requires Amid(m, StrongFields(m.objs, m.names, h), h, t) && t.grayagain == m.grayagain
    requires var o, wk, wv := m.objs[h], WeakKeys(m.objs, m.names, h), WeakValues(m.objs, m.names, h);
             && t.objs[h] == (if wk && wv then o else o.(nodes := CleanNodes(o.nodes)))
             && t.marks[h]
                  == (if wk || wv then m.marks[h].(colour := Black, weakKey := wk, weakVal := wv)
                  else m.marks[h].(colour := Black))
             && t.weak == if wk || wv then [h] + m.weak else m.weak
    ensures var c := if WeakKeys(m.objs, m.names, h) || WeakValues(m.objs, m.names, h) then Gray else Black;
            SetColour(t, h, c) == MarkAll(Opened(m, h), StrongFields(m.objs, m.names, h))
  {
    hide MarkAll, WeakKeys, WeakValues, CleanNodes, StrongFields;
    var c := if WeakKeys(m.objs, m.names, h) || WeakValues(m.objs, m.names, h) then Gray else Black;
    var t' := SetColour(t, h, c);
    TableOpened(m, h);
    hide Opened;
    assert t'.objs == t.objs[h := t'.objs[h]];
    AmidChanged(m, StrongFields(m.objs, m.names, h), h, t, t');
    Traversal(m, h, t');
  }

  /** What opening an object that is not a table does, and what it holds, in the order of the source. */
  lemma PlainOpened(m: Marking, o: Id)
    requires o in m.objs && Traversed(m.objs[o]) && !m.objs[o].Table?
    ensures Opened(m, o) == if m.objs[o].Thread? then m.(grayagain := [o] + m.grayagain) else SetColour(m, o, Black)
    ensures var vs := StrongFields(m.objs, m.names, o);
            match m.objs[o]
            case Closure(env, p, ups) => vs == [env, p] + ups
            case Thread(gt, stack, _) => vs == [gt] + stack
            case Proto(source, k, names, ps, locals) => vs == [source] + k + names + ps + locals
            case _ => true
  {
  }

  lemma Recoloured(m: Marking, o: Id, c: Colour)
    requires o in m.marks
    ensures m.marks[o].colour == c ==> SetColour(m, o, c) == m
    ensures forall d :: SetColour(SetColour(m, o, d), o, c) == SetColour(m, o, c)
  {
    assert m.marks[o].colour == c ==> m.marks[o := m.marks[o].(colour := c)] == m.marks;
    forall d ensures SetColour(SetColour(m, o, d), o, c) == SetColour(m, o, c) {
      assert m.marks[o := m.marks[o].(colour := d)][o := m.marks[o].(colour := c)]
             == m.marks[o := m.marks[o].(colour := c)];
    }
  }

  lemma PropagateAllStep(m: Marking)
    ensures m.gray == [] ==> PropagateAll(m) == m
    ensures m.gray != [] ==>
              PropagateAll(m) == PropagateAll(Propagate(m))
              && |Whites(Propagate(m))| + |Propagate(m).gray| < |Whites(m)| + |m.gray|
  {
    if m.gray != [] { PropagateShrinks(m); }
  }

  lemma OnGray(m: Marking, o: Id)
    requires ListsOk(m) && o in m.gray
    ensures o in m.objs && o in m.marks && m.marks[o].colour.Gray? && Traversed(m.objs[o])
  {
    OnList(m, o);
  }

  lemma ColourLast(m: Marking, o: Id, gray: seq<Id>, c: Colour)
    ensures o in m.marks ==> o in SetColour(m, o, c).marks && SetColour(m, o, c).marks[o].colour == c
    ensures SetColour(m, o, c).(gray := gray) == SetColour(m.(gray := gray), o, c)
    ensures SetColour(m, o, c).objs == m.objs
  {
  }

  lemma ThreadGray(m: Marking, o: Id)
    requires o in m.marks && m.marks[o].colour.Gray?
    ensures SetColour(SetColour(m, o, Black).(grayagain := [o] + m.grayagain), o, Gray)
            == m.(grayagain := [o] + m.grayagain)
  {
    assert m.marks[o := m.marks[o].(colour := Black)][o := m.marks[o].(colour := Gray)] == m.marks;
  }

  // ---------------------------------------------------------------- the end of the mark phase

  lemma Relisted(m: Marking)
    requires ListsOk(m) && m.gray == []
    ensures ListsOk(m.(gray := m.weak, weak := [])) && ListsOk(m.(gray := m.grayagain, grayagain := []))
  {
    var w, a := m.(gray := m.weak, weak := []), m.(gray := m.grayagain, grayagain := []);
    forall id ensures Count(w, id) == Count(m, id) && Count(a, id) == Count(m, id) { }
  }

  lemma {:induction false} RemarkStep(m: Marking, uvs: seq<Id>)
    requires uvs != []
    ensures var u := uvs[0];
            Remark(m, uvs)
              == Remark(if IsGray(m, u) && u in m.objs
              && m.objs[u].Upval? then MarkAll(m, [HomeVal(m.objs, m.objs[u].home)]) else m, uvs[1..])
  {
  }

  lemma FinalizedLists(m: Marking, u: Id)
    requires ListsOk(m)
    ensures ListsOk(SetFinalized(m, u))
  {
    var m' := SetFinalized(m, u);
    forall id ensures Count(m', id) == if id in m'.objs && IsGray(m', id) && Traversed(m'.objs[id]) then 1 else 0 {
      assert Count(m', id) == Count(m, id);
    }
  }

  /** `luaC_separateudata` looks at one userdata. */
  lemma SeparateStep(m: Marking, us: seq<Id>, kept: seq<Id>, moved: seq<Id>)
    requires us != []
    ensures var u, r := us[0], Separate(m, us); var r' := Separate(SetFinalized(m, u), us[1..]);
            && r.m == r'.m
            && kept + r.kept == (if ToFinalize(m, u) then kept else kept + [u]) + r'.kept
            && moved + r.moved == (if ToFinalize(m, u) then moved + [u] else moved) + r'.moved
  {
  }

  lemma {:induction false} SeparateLists(m: Marking, us: seq<Id>)
    requires ListsOk(m)
    ensures ListsOk(Separate(m, us).m) && Separate(m, us).m.objs == m.objs
    ensures forall u :: u in Separate(m, us).moved ==> u in m.objs && m.objs[u].Udata?
    decreases |us|
  {
    hide ListsOk;
    if us != [] {
      FinalizedLists(m, us[0]);
      SeparateLists(SetFinalized(m, us[0]), us[1..]);
    }
  }

  lemma {:induction false} TmuLists(m: Marking, us: seq<Id>)
    requires ListsOk(m) && AllUdata(m, us)
    ensures ListsOk(MarkTmu(m, us)) && MarkTmu(m, us).objs == m.objs
    decreases |us|
  {
    hide ListsOk, MarkAll;
    if us != [] {
      var m1 := SetColour(m, us[0], White(m.cw));
      WhitenLists(m, us[0], m.cw);
      ListsMarkAll(m1, [Ref(us[0])]);
      MarkAllMarked(m1, [Ref(us[0])]);
      TmuLists(MarkAll(m1, [Ref(us[0])]), us[1..]);
    }
  }

  lemma {:induction false} PropagateAllTidied(m: Marking)
    ensures Tidied(m.objs, PropagateAll(m).objs)
    decreases |Whites(m)| + |m.gray|
  {
    hide Propagate, Tidied;
    if m.gray == [] {
      AdvancedSelf(m);
    } else {
      PropagateShrinks(m);
      PropagateAdvanced(m);
      PropagateAllTidied(Propagate(m));
      TidiedTwice(m.objs, Propagate(m).objs, PropagateAll(m).objs);
    }
  }

  lemma {:induction false} RemarkObjs(m: Marking, uvs: seq<Id>)
    ensures Remark(m, uvs).objs == m.objs
    decreases |uvs|
  {
    if uvs != [] {
      var u := uvs[0];
      if IsGray(m, u) && u in m.objs && m.objs[u].Upval? {
        MarkAllMarked(m, [HomeVal(m.objs, m.objs[u].home)]);
        RemarkObjs(MarkAll(m, [HomeVal(m.objs, m.objs[u].home)]), uvs[1..]);
      } else {
        RemarkObjs(m, uvs[1..]);
      }
    }
  }

  ghost predicate AllUdata(m: Marking, us: seq<Id>) { forall u :: u in us ==> u in m.objs && m.objs[u].Udata? }

  /** Userdata are what they were when the marks are complete. */
  lemma FinishUdata(g: G, us: seq<Id>)
    requires AllUdata(g.m, us)
    ensures AllUdata(Finish(g), us)
  {
    hide PropagateAll, Remark, MarkAll, Tidied;
    var m0 := Remark(g.m, g.uvhead);
    var m1 := PropagateAll(m0);
    var m2 := MarkAll(m1.(gray := m1.weak, weak := []), [Ref(g.cur)] + g.mts);
    var m3 := PropagateAll(m2);
    RemarkObjs(g.m, g.uvhead);
    PropagateAllTidied(m0);
    MarkAllMarked(m1.(gray := m1.weak, weak := []), [Ref(g.cur)] + g.mts);
    PropagateAllTidied(m2);
    PropagateAllTidied(m3.(gray := m3.grayagain, grayagain := []));
    TidiedTwice(m0.objs, m1.objs, m3.objs);
    TidiedTwice(m0.objs, m3.objs, Finish(g).objs);
    forall u | u in us
      ensures u in Finish(g).objs && Finish(g).objs[u].Udata?
    {
      TidiedUdata(g.m.objs, Finish(g).objs, u);
    }
  }

  lemma TmuOne(m: Marking, us: seq<Id>)
    requires us != []
    ensures MarkTmu(m, us) == MarkTmu(MarkAll(SetColour(m, us[0], White(m.cw)), [Ref(us[0])]), us[1..])
  {
  }

  // ---------------------------------------------------------------- clearing weak tables

  lemma {:induction false} MarkStringsAppend(m: Marking, xs: seq<Val>, ys: seq<Val>)
    ensures MarkStrings(m, xs + ys) == MarkStrings(MarkStrings(m, xs), ys)
    decreases |xs|
  {
    if xs == [] {
      assert xs + ys == ys;
    } else {
      assert (xs + ys)[1..] == xs[1..] + ys;
      MarkStringsAppend(if Markable(m, xs[0])
        && m.objs[xs[0].id].Str? then SetColour(m, xs[0].id, Gray) else m, xs[1..], ys);
    }
  }

  lemma {:induction false} MarkStringsObjs(m: Marking, h: Id, t: Obj, vs: seq<Val>)
    requires h in m.objs && m.objs[h].Table? && t.Table?
    ensures MarkStrings(m.(objs := m.objs[h := t]), vs) == MarkStrings(m, vs).(objs := m.objs[h := t])
    decreases |vs|
  {
    if vs != [] {
      MarkStringsObjs(if Markable(m, vs[0])
        && m.objs[vs[0].id].Str? then SetColour(m, vs[0].id, Gray) else m, h, t, vs[1..]);
    }
  }

  /** `t` is what marking the strings of `done` has made of `m`, apart from the entries of the table `h`. */
  ghost predicate Clearing(m: Marking, done: seq<Val>, h: Id, t: Marking) {
    && h in m.objs && m.objs[h].Table? && h in t.objs && t.objs[h].Table?
    && t == MarkStrings(m, done).(objs := m.objs[h := t.objs[h]])
  }

  lemma ClearingOne(m: Marking, v: Val)
    ensures MarkStrings(m, []) == m
    ensures MarkStrings(m, [v]) == if Markable(m, v) && m.objs[v.id].Str? then SetColour(m, v.id, Gray) else m
  {
  }

  lemma BeginClearing(m: Marking, h: Id)
    requires h in m.objs && m.objs[h].Table?
    ensures Clearing(m, [], h, m)
  {
    assert m.objs[h := m.objs[h]] == m.objs;
  }

  lemma ClearingStep(m: Marking, done: seq<Val>, h: Id, t: Marking, v: Val)
    requires Clearing(m, done, h, t)
    ensures Clearing(m, done + [v], h, MarkStrings(t, [v])) && MarkStrings(t, [v]).objs == t.objs
    ensures forall isKey :: Cleared(t, v, isKey) == Cleared(m, v, isKey)
  {
    var b := MarkStrings(m, done);
    StringsOnly(m, done);
    assert t == b.(objs := b.objs[h := t.objs[h]]);
    MarkStringsAppend(m, done, [v]);
    MarkStringsObjs(b, h, t.objs[h], [v]);
    StringsOnly(b, [v]);
  }

  /** Only strings are marked, so nothing else is cleared for it. */
  lemma {:induction false} StringsOnly(m: Marking, vs: seq<Val>)
    ensures var m' := MarkStrings(m, vs);
            && m' == m.(marks := m'.marks) && m'.marks.Keys == m.marks.Keys
            && forall id :: id in m.marks ==> m'.marks[id] == m.marks[id] || (id in m.objs && m.objs[id].Str?)
    decreases |vs|
  {
    if vs != [] {
      StringsOnly(if Markable(m, vs[0]) && m.objs[vs[0].id].Str? then SetColour(m, vs[0].id, Gray) else m, vs[1..]);
    }
  }

  /** The elements from `i` on have been seen to. */
  ghost predicate ArrayCleared(m: Marking, arr: seq<Val>, now: seq<Val>, i: int) {
    |now| == |arr| && forall k :: 0 <= k < |arr| ==> now[k] == if k >= i then ClearVal(m, arr[k]) else arr[k]
  }

  ghost predicate NodesCleared(m: Marking, nodes: seq<Node>, now: seq<Node>, i: int) {
    |now| == |nodes| && forall k :: 0 <= k < |nodes| ==> now[k] == if k >= i then ClearNode(m, nodes[k]) else nodes[k]
  }

  lemma AllSeen(m: Marking, arr: seq<Val>, now: seq<Val>, nodes: seq<Node>, now': seq<Node>)
    ensures ArrayCleared(m, arr, now, 0) ==> now == ClearArray(m, arr)
    ensures NodesCleared(m, nodes, now', 0) ==> now' == ClearNodes(m, nodes)
  {
  }

  function VisitsOf(m: Marking, n: Node): seq<Val> {
    if n.val == Nil then [] else [KeyVal(n.key)] + if Cleared(m, KeyVal(n.key), true) then [] else [n.val]
  }

  lemma VisitsStep(m: Marking, nodes: seq<Node>, i: nat)
    requires i < |nodes|
    ensures NodeVisits(m, nodes[..i + 1]) == VisitsOf(m, nodes[i]) + NodeVisits(m, nodes[..i])
  {
    assert nodes[..i + 1][..i] == nodes[..i];
  }

  lemma BackwardStep(arr: seq<Val>, i: nat)
    requires i < |arr|
    ensures Backward(arr[..i + 1]) == [arr[i]] + Backward(arr[..i])
  {
    assert arr[..i + 1][..i] == arr[..i];
  }

  // ---------------------------------------------------------------- the sweep

  lemma SweptOthers(m: Marking, x: Id, y: Id)
    requires x != y
    ensures IsDead(SweepMark(m, x), y) == IsDead(m, y)
  {
  }

  lemma SweepNone(m: Marking)
    ensures SweepObjs(m, []) == m && Survivors(m, []) == [] && DeadOnes(m, []) == []
  {
  }

  lemma SweepFirst(m: Marking, ids: seq<Id>)
    requires ids != []
    ensures SweepObjs(m, ids) == SweepObjs(SweepMark(m, ids[0]), ids[1..])
    ensures Survivors(m, ids) == (if IsDead(m, ids[0]) then [] else [ids[0]]) + Survivors(m, ids[1..])
    ensures DeadOnes(m, ids) == (if IsDead(m, ids[0]) then [ids[0]] else []) + DeadOnes(m, ids[1..])
  {
    hide SweepMark, IsDead;
  }

  lemma Longer(front: seq<Id>, first: seq<Id>, rest: seq<Id>)
    ensures front + (first + rest) == (front + first) + rest && front + [] == front
  {
  }

  /** `sweeplist` looks at one object. */
  lemma SweepNext(m0: Marking, m: Marking, ids: seq<Id>, kept: seq<Id>, dead: seq<Id>)
    requires ids != [] && IsDead(m, ids[0]) == IsDead(m0, ids[0])
    ensures SweepObjs(m, ids) == SweepObjs(SweepMark(m, ids[0]), ids[1..])
    ensures kept + Survivors(m0, ids) == (if IsDead(m, ids[0]) then kept else kept + [ids[0]]) + Survivors(m0, ids[1..])
    ensures dead + DeadOnes(m0, ids) == (if IsDead(m, ids[0]) then dead + [ids[0]] else dead) + DeadOnes(m0, ids[1..])
  {
    hide SweepMark, IsDead, SweepObjs, Survivors, DeadOnes;
    SweepFirst(m, ids);
    SweepFirst(m0, ids);
    var gone := IsDead(m, ids[0]);
    Longer(kept, if gone then [] else [ids[0]], Survivors(m0, ids[1..]));
    Longer(dead, if gone then [ids[0]] else [], DeadOnes(m0, ids[1..]));
  }

  /** `luaF_close` takes an upvalue from the list each time. */
  lemma CloseShorter(g: G, th: Id)
    requires OpenList(g.m, th) != []
    ensures |OpenList(CloseFirst(g, th).m, th)| < |OpenList(g.m, th)|
  {
    hide MarkAll;
    var uv := OpenList(g.m, th)[0];
    var g1 := g.(m := SetOpen(g.m, th, OpenList(g.m, th)[1..]), uvhead := Without(g.uvhead, uv));
    assert OpenList(g1.m, th) == OpenList(g.m, th)[1..];
    if !(IsDead(g1.m, uv) || uv !in g1.m.objs || !g1.m.objs[uv].Upval?) {
      var v := UpvalVal(g.m, uv);
      LinkedObjs(g1.(m := SetObj(g1.m, uv, Upval(Closed(v)))), uv, v);
    }
  }

  lemma LinkedObjs(g: G, uv: Id, v: Val)
    ensures LinkUpval(g, uv, v).m.objs == g.m.objs
  {
    var m := SetColour(Link(g, uv).m, uv, Black);
    MarkAllMarked(m, [v]);
    hide MarkAll;
  }

  lemma OpenNoDup(m: Marking, th: Id)
    requires ThreadsOk(m)
    ensures NoDup(OpenList(m, th))
  {
    if th in m.objs && m.objs[th].Thread? {
      assert OpenListOk(m, th);
      OnceIsNoDup(OpenList(m, th));
    }
  }

  lemma StringsNoDup(g: G, b: nat)
    requires StringsOk(g) && b < |g.strt|
    ensures NoDup(g.strt[b])
  {
    forall id
      ensures multiset(g.strt[b])[id] <= 1
    {
      assert multiset(g.strt[b])[id] == if InStringList(g, id, b) then 1 else 0;
    }
    OnceIsNoDup(g.strt[b]);
  }

  lemma StringStepIs(g: G)
    ensures SweepStringStep(g) ==
            if g.sweepstr < |g.strt| then
              var l := g.strt[g.sweepstr];
              var kept := Survivors(g.m, l);
              g.(m := SweepObjs(g.m, l), strt := g.strt[g.sweepstr := kept], nuse := g.nuse - (|l| - |kept|),
                sweepstr := g.sweepstr + 1,
                 phase := if g.sweepstr + 1 >= |g.strt| then Sweep else g.phase)
            else g.(phase := Sweep)
  {
    hide SweepObjs, Survivors;
  }
}
