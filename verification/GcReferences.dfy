/** What refers to what, kind by kind (lua/lgc.c:160-263, 501-514; sections 2.8 and 2.10.2 of the Lua 5.1 Reference
    Manual). The results on the collector speak of references; here they are listed. */
module GcReferences {
  import opened GcHeap
  import opened GcCollector
  import opened GcState

  /** A non-empty entry has `x` as its key, or as its value. */
  ghost predicate KeyIn(nodes: seq<Node>, x: Id) {
    exists i :: 0 <= i < |nodes| && nodes[i].val != Nil && nodes[i].key == Live(Ref(x))
  }

  ghost predicate ValueIn(nodes: seq<Node>, x: Id) { exists i :: 0 <= i < |nodes| && nodes[i].val == Ref(x) }

  /** The references of a table: those to its metatable are always strong. */
  ghost predicate TableRefers(o: Obj, weakKey: bool, weakVal: bool, x: Id)
    requires o.Table?
  {
    || o.mt == Ref(x)
    || (!weakVal && (Ref(x) in o.arr || ValueIn(o.nodes, x)))
    || (!weakKey && KeyIn(o.nodes, x))
  }

  ghost predicate OtherRefers(objs: Heap, o: Obj, x: Id)
    requires !o.Table?
  {
    match o
    case Str(_) => false
    case Udata(mt, env) => mt == Ref(x) || env == Ref(x)
    case Upval(Closed(v)) => v == Ref(x)
    case Upval(Open(th, level)) =>
      th in objs && objs[th].Thread? && level < |objs[th].stack| && objs[th].stack[level] == Ref(x)
    case Closure(env, p, ups) => env == Ref(x) || p == Ref(x) || Ref(x) in ups
    case Thread(gt, stack, _) => gt == Ref(x) || Ref(x) in stack
    case Proto(source, k, names, ps, locals) =>
      source == Ref(x) || Ref(x) in k || Ref(x) in names || Ref(x) in ps || Ref(x) in locals
  }

  lemma {:induction false} NodesHold(nodes: seq<Node>, weakKey: bool, weakVal: bool, x: Id)
    ensures Ref(x) in NodeVals(nodes, weakKey, weakVal) <==>
            (!weakKey && KeyIn(nodes, x)) || (!weakVal && ValueIn(nodes, x))
    decreases |nodes|
  {
    if nodes != [] {
      var n, front := nodes[|nodes| - 1], nodes[..|nodes| - 1];
      NodesHold(front, weakKey, weakVal, x);
      assert Ref(x) in EntryVals(n, weakKey, weakVal) <==>
             n.val != Nil && ((!weakKey && n.key == Live(Ref(x))) || (!weakVal && n.val == Ref(x)));
      assert KeyIn(nodes, x) <==> KeyIn(front, x) || (n.val != Nil && n.key == Live(Ref(x))) by {
        if KeyIn(front, x) {
          var i :| 0 <= i < |front| && front[i].val != Nil && front[i].key == Live(Ref(x));
          assert nodes[i] == front[i];
        }
      }
      assert ValueIn(nodes, x) <==> ValueIn(front, x) || n.val == Ref(x) by {
        if ValueIn(front, x) {
          var i :| 0 <= i < |front| && front[i].val == Ref(x);
          assert nodes[i] == front[i];
        }
      }
    }
  }

  lemma TableFields(objs: Heap, o: Obj, weakKey: bool, weakVal: bool, x: Id)
    requires o.Table?
    ensures Ref(x) in Fields(objs, o, weakKey, weakVal) <==> TableRefers(o, weakKey, weakVal, x)
  {
    NodesHold(o.nodes, weakKey, weakVal, x);
    hide NodeVals, KeyIn, ValueIn;
  }

  lemma OtherFields(objs: Heap, o: Obj, weakKey: bool, weakVal: bool, x: Id)
    requires !o.Table?
    ensures Ref(x) in Fields(objs, o, weakKey, weakVal) <==> OtherRefers(objs, o, x)
  {
  }

  /** An object refers to exactly the objects that it holds, and strongly to those that are not a weak key or value of
      it. */
  lemma RefersExactly(objs: Heap, names: Names, o: Id, x: Id)
    requires o in objs
    ensures Refers(objs, o, x) <==>
            if objs[o].Table? then TableRefers(objs[o], false, false, x) else OtherRefers(objs, objs[o], x)
    ensures StronglyRefers(objs, names, o, x) <==>
            if objs[o].Table?
            then TableRefers(objs[o], WeakKeys(objs, names, o), WeakValues(objs, names, o), x)
            else OtherRefers(objs, objs[o], x)
  {
    hide Fields, TableRefers, OtherRefers, WeakKeys, WeakValues;
    var wk, wv := WeakKeys(objs, names, o), WeakValues(objs, names, o);
    if objs[o].Table? {
      TableFields(objs, objs[o], false, false, x);
      TableFields(objs, objs[o], wk, wv, x);
    } else {
      OtherFields(objs, objs[o], false, false, x);
      OtherFields(objs, objs[o], wk, wv, x);
    }
  }

  // ---------------------------------------------------------------- metatables

  /** The first non-empty entry with the key. */
  ghost predicate EntryAt(nodes: seq<Node>, key: Val, i: nat) {
    && i < |nodes| && nodes[i].key == Live(key) && nodes[i].val != Nil
    && forall j :: 0 <= j < i ==> !(nodes[j].key == Live(key) && nodes[j].val != Nil)
  }

  lemma {:induction false} LookupFinds(nodes: seq<Node>, key: Val)
    ensures Lookup(nodes, key) != Nil <==> exists i: nat :: EntryAt(nodes, key, i)
    ensures forall i: nat :: EntryAt(nodes, key, i) ==> Lookup(nodes, key) == nodes[i].val
    decreases |nodes|
  {
    if nodes != [] && !EntryAt(nodes, key, 0) {
      LookupFinds(nodes[1..], key);
      forall i: nat | i > 0 ensures EntryAt(nodes, key, i) <==> EntryAt(nodes[1..], key, i - 1) {
        assert forall j :: 0 <= j < i - 1 && j < |nodes[1..]| ==> nodes[1..][j] == nodes[j + 1];
      }
      if Lookup(nodes[1..], key) != Nil {
        var i: nat :| EntryAt(nodes[1..], key, i);
        assert EntryAt(nodes, key, i + 1);
      }
    }
  }

  /** The character stands in the string, before any zero. */
  ghost predicate Mentions(s: string, c: char) { exists i: nat :: MentionsAt(s, c, i) }

  predicate MentionsAt(s: string, c: char, i: nat) { i < |s| && s[i] == c && '\0' !in s[..i + 1] }

  lemma {:induction false} HasCharMeans(s: string, c: char)
    ensures HasChar(s, c) <==> Mentions(s, c)
    decreases |s|
  {
    if s != [] && s[0] != '\0' {
      if s[0] == c {
        assert s[..1] == [s[0]] && MentionsAt(s, c, 0);
      } else {
        HasCharMeans(s[1..], c);
        if Mentions(s[1..], c) {
          var i: nat :| MentionsAt(s[1..], c, i);
          assert s[..i + 2] == [s[0]] + s[1..][..i + 1] && MentionsAt(s, c, i + 1);
        }
        if Mentions(s, c) {
          var i: nat :| MentionsAt(s, c, i);
          assert i > 0 && s[..i + 1] == [s[0]] + s[1..][..i];
          assert MentionsAt(s[1..], c, i - 1);
        }
      }
    } else if s != [] {
      forall i: nat | i < |s| ensures !MentionsAt(s, c, i) { assert s[..i + 1][0] == '\0'; }
    }
  }

  /** A field of the metatable. */
  ghost predicate HasField(objs: Heap, mt: Val, name: Id, v: Val) {
    && mt.Ref? && mt.id in objs && objs[mt.id].Table? && v != Nil
    && exists i: nat :: EntryAt(objs[mt.id].nodes, Ref(name), i) && objs[mt.id].nodes[i].val == v
  }

  lemma MetaFieldIs(objs: Heap, mt: Val, name: Id, v: Val)
    requires v != Nil
    ensures MetaField(objs, mt, name) == v <==> HasField(objs, mt, name, v)
  {
    if mt.Ref? && mt.id in objs && objs[mt.id].Table? { LookupFinds(objs[mt.id].nodes, Ref(name)); }
    hide Lookup, EntryAt;
  }

  /** The field `__mode` of the metatable is a string with the character. */
  ghost predicate ModeMentions(objs: Heap, names: Names, mt: Val, c: char) {
    exists s :: HasField(objs, mt, names.mode, Ref(s)) && s in objs && objs[s].Str? && Mentions(objs[s].text, c)
  }

  lemma WeakByMeans(objs: Heap, names: Names, mt: Val, c: char)
    ensures WeakBy(objs, names, mt, c) <==> ModeMentions(objs, names, mt, c)
  {
    hide HasField, MetaField, Mentions, HasChar;
    var mode := MetaField(objs, mt, names.mode);
    if mode.Ref? && mode.id in objs && objs[mode.id].Str? {
      MetaFieldIs(objs, mt, names.mode, mode);
      HasCharMeans(objs[mode.id].text, c);
    }
    if ModeMentions(objs, names, mt, c) {
      var s :| HasField(objs, mt, names.mode, Ref(s)) && s in objs && objs[s].Str? && Mentions(objs[s].text, c);
      MetaFieldIs(objs, mt, names.mode, Ref(s));
    }
  }

  /** Keys are weak if the field `__mode` of the metatable is a string with a `k`, values if it is one with a `v`. A
      userdata has a finalizer if its metatable has a field `__gc`. */
  lemma MetatablesMean(objs: Heap, names: Names, o: Id)
    requires o in objs
    ensures WeakKeys(objs, names, o) <==> objs[o].Table? && ModeMentions(objs, names, objs[o].mt, 'k')
    ensures WeakValues(objs, names, o) <==> objs[o].Table? && ModeMentions(objs, names, objs[o].mt, 'v')
    ensures HasFinalizer(objs, names, o) <==> objs[o].Udata? && exists v :: HasField(objs, objs[o].mt, names.gc, v)
  {
    hide HasField, MetaField, WeakBy, ModeMentions;
    if objs[o].Table? {
      WeakByMeans(objs, names, objs[o].mt, 'k');
      WeakByMeans(objs, names, objs[o].mt, 'v');
    }
    if objs[o].Udata? {
      var v := MetaField(objs, objs[o].mt, names.gc);
      if v != Nil { MetaFieldIs(objs, objs[o].mt, names.gc, v); }
      if w :| HasField(objs, objs[o].mt, names.gc, w) {
        FieldIsValue(objs, objs[o].mt, names.gc, w);
        MetaFieldIs(objs, objs[o].mt, names.gc, w);
      }
    }
  }

  lemma FieldIsValue(objs: Heap, mt: Val, name: Id, v: Val)
    requires HasField(objs, mt, name, v)
    ensures v != Nil
  {
  }

  /** What the program reaches directly: the main thread, the running one, the registry and the metatables of the basic
      types. */
  lemma RootsAre(g: G, x: Id)
    ensures Ref(x) in RootVals(g) <==> x == g.main || x == g.cur || g.registry == Ref(x) || Ref(x) in g.mts
  {
  }
}
