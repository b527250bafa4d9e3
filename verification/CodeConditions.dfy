/** Conditions: `luaK_goiftrue`, `luaK_goiffalse` and `codenot`. */
module CodeConditions {
  import opened Wrappers
  import opened CodeMachine
  import opened CodeGen
  import opened CodeFlow
  import opened CodeState
  import opened CodeSteps

  ghost function WithExit(e: Exp, cond: bool, list: seq<nat>): Exp {
    if cond then e.(t := e.t + list) else e.(f := e.f + list)
  }

  ghost function Otherwise(cond: bool): Mode { if cond then IsFalse else IsTrue }

  // ---------------------------------------------------------------- tests

  /** The register that a test looks at, and whether it looks for the negation of the value. */
  predicate Tests(fs: FS, k: Kind, i: Instr, cond: bool) {
    match k
    case VNonReloc(r) => i == TestSet(None, r, cond)
    case VReloc(pc) => pc < |fs.code| && fs.code[pc].NotI? && i == Test(fs.code[pc].b, !cond)
    case _ => false
  }

  lemma TestStep(env: Env, fs: FS, e: Exp, i: Instr, cond: bool, base: nat, a: Option<Way>, c: Option<Value>, R: Regs,
                 R': Regs, fs': FS, n: nat)
    requires KindOk(env, fs, e.k, base, a, c, R, R') && Tests(fs, e.k, i, cond)
    requires |fs'.code| == n + 2 && fs'.code[n] == i && fs'.code[n + 1] == Jump(None) && fs'.jpc == []
    ensures Yields(env, fs', WithExit(e, cond, [n + 1]), Otherwise(cond), base, TestWay(cond, i.TestSet?, a), R,
            Exec(env, fs'.code, n, R'))
  {
    var w := a.value.w;
    assert Exec(env, fs'.code, n, R') == if Truthy(w) == cond then Exit(n + 1, R', i.TestSet?) else Reach(R');
    assert Truthy(w) != cond ==> Arrived(base, TestWay(cond, i.TestSet?, a), None, R, R', w);
  }

  lemma TestCode(fs0: FS, fs: FS, e: Exp, i: Instr, cond: bool)
    requires CodeOk(fs0, fs, e, AsValue) && Tests(fs, e.k, i, cond)
    ensures var j, body := CondJump(fs.(code := Body(fs, e, AsValue)), i), Body(fs, e, AsValue);
            && CodeOk(fs0, j.fs, WithExit(e, cond, j.list), Otherwise(cond)) && Continues(body, fs.jpc, j.fs.code)
            && j.fs.jpc == [] && j.fs.freereg == fs.freereg && j.fs.nactvar == fs.nactvar && j.fs.K == fs.K
            && j.list == [|body| + 1]
            && |j.fs.code| == |body| + 2 && j.fs.code[|body|] == i && j.fs.code[|body| + 1] == Jump(None)
  {
    var body := Body(fs, e, AsValue);
    var j := CondJump(fs.(code := body), i);
    var e', mode', body' := WithExit(e, cond, j.list), Otherwise(cond), j.fs.code;
    assert body' == PatchList(body, fs.jpc, |body|, None, |body|) + [i] + [Jump(None)];
    assert body'[..|body|] == PatchList(body, fs.jpc, |body|, None, |body|);
    assert j.list == [|body| + 1];
    Appended(fs0, fs, e, AsValue, j.fs, e', mode');
  }

  /** A test with its jump leaves the expression when the truth value is as `cond` says. */
  lemma TestSound(env: Env, fs0: FS, fs: FS, e: Exp, i: Instr, cond: bool, m: Meaning)
    requires Sound(env, fs0, fs, e, AsValue, m)
    requires fs.K <= env.K
    requires Tests(fs, e.k, i, cond)
    ensures var j := CondJump(fs.(code := Body(fs, e, AsValue)), i);
            && Sound(env, fs0, j.fs, WithExit(e, cond, j.list), Otherwise(cond),
                 Via(m, a => TestWay(cond, i.TestSet?, a)))
            && j.fs.jpc == [] && j.fs.freereg == fs.freereg && j.fs.nactvar == fs.nactvar && j.fs.K == fs.K
  {
    var body, f := Body(fs, e, AsValue), a => TestWay(cond, i.TestSet?, a);
    var j := CondJump(fs.(code := body), i);
    var e', mode', body' := WithExit(e, cond, j.list), Otherwise(cond), j.fs.code;
    hide CodeOk, Means, Continues, CondJump, KindOk, Yields;
    TestCode(fs0, fs, e, i, cond);
    assert Body(j.fs, e', mode') == body';
    forall a, c, R, R' | FallOk(env, fs, e, AsValue, fs0.freereg, a, c, R, R')
      ensures Yields(env, j.fs, e', mode', fs0.freereg, f(a), R, Exec(env, body', |body|, R'))
    {
      TestStep(env, fs, e, i, cond, fs0.freereg, a, c, R, R', j.fs, |body|);
    }
    MeansAfter(env, fs0, fs, e, AsValue, j.fs, e', mode', m, f);
  }

  lemma JumpOnCondIs(fs: FS, e: Exp, cond: bool)
    requires !e.k.VReloc? && !e.k.VJmp? && !e.k.VLocal?
    ensures var g := Discharge2AnyReg(fs, e);
            && g.e.k.VNonReloc?
            && JumpOnCond(fs, e, cond) == CondJump(FreeExp(g.fs, g.e), TestSet(None, g.e.k.r, cond))
            && JumpOnCond(fs, e, cond).fs.K == g.fs.K
  {
  }

  /** For a test and for a NOT it does not matter whether the jumps before have been discharged already. */
  lemma SettledFirst(m: Meaning, m1: Meaning, f: Option<Way> -> Option<Way>)
    requires m1 == m || m1 == Via(m, Settled)
    requires forall w, c :: f(Some(Falls(w, c))) == f(Some(Falls(w, None)))
    ensures SameWays(Via(m1, f), Via(m, f))
  {
    var m2, m3 := Via(m1, f), Via(m, f);
    forall R, c ensures m3(R, c) == m2(R, c) {
      var a := m(R, c);
      if a.Some? && a.value.Falls? { assert f(Some(Falls(a.value.w, a.value.c))) == f(Some(Falls(a.value.w, None))); }
    }
  }

  lemma JumpOnRegister(env: Env, fs0: FS, fs: FS, e: Exp, cond: bool, m: Meaning)
    requires Ok(env, fs0, fs, e, AsValue, m) && !e.k.VLocal? && !Unfinished(e.k)
    requires JumpOnCond(fs, e, cond).fs.K <= env.K
    ensures var j := JumpOnCond(fs, e, cond);
            Ok(env, fs0, j.fs, WithExit(e, cond, j.list), Otherwise(cond), Via(m, a => TestWay(cond, true, a)))
  {
    var g := Discharge2AnyReg(fs, e);
    var fs1 := FreeExp(g.fs, g.e);
    JumpOnCondIs(fs, e, cond);
    Discharge2AnyRegSound(env, fs0, fs, e, m);
    var m1 := if e.k.VNonReloc? then m else Via(m, Settled);
    var i := TestSet(None, g.e.k.r, cond);
    var j := CondJump(fs1, i);
    hide Sound;
    SameCode(env, fs0, g.fs, fs1, g.e, g.e, AsValue, m1);
    TestSound(env, fs0, fs1, g.e, i, cond, m1);
    SameCode(env, fs0, j.fs, j.fs, WithExit(g.e, cond, j.list), WithExit(e, cond, j.list), Otherwise(cond),
      Via(m1, a => TestWay(cond, true, a)));
    SettledFirst(m, m1, a => TestWay(cond, true, a));
    SameMeaning(env, fs0, j.fs, WithExit(e, cond, j.list), Otherwise(cond), Via(m1, a => TestWay(cond, true, a)),
      Via(m, a => TestWay(cond, true, a)));
  }

  lemma JumpOnCondOk(env: Env, fs0: FS, fs: FS, e: Exp, cond: bool, m: Meaning)
    requires Ok(env, fs0, fs, e, AsValue, m) && !e.k.VLocal? && !e.k.VJmp?
    requires JumpOnCond(fs, e, cond).fs.K <= env.K
    ensures var j := JumpOnCond(fs, e, cond);
            Ok(env, fs0, j.fs, WithExit(e, cond, j.list), Otherwise(cond), Via(m, a => TestWay(cond, !e.k.VReloc?, a)))
  {
    if e.k.VReloc? {
      var i := Test(fs.code[e.k.pc].b, !cond);
      TestSound(env, fs0, fs, e, i, cond, m);
      var j := JumpOnCond(fs, e, cond);
      hide Sound;
      SameMeaning(env, fs0, j.fs, WithExit(e, cond, j.list), Otherwise(cond), Via(m, a => TestWay(cond, i.TestSet?, a)),
        Via(m, a => TestWay(cond, false, a)));
    } else {
      JumpOnRegister(env, fs0, fs, e, cond, m);
      var j := JumpOnCond(fs, e, cond);
      hide Sound;
      SameMeaning(env, fs0, j.fs, WithExit(e, cond, j.list), Otherwise(cond), Via(m, a => TestWay(cond, true, a)),
        Via(m, a => TestWay(cond, !e.k.VReloc?, a)));
    }
  }

  // ---------------------------------------------------------------- comparisons and constants

  lemma ComparisonStep(env: Env, fs: FS, e: Exp, cond: bool, base: nat, a: Option<Way>, c: Option<Value>, R: Regs,
                       R': Regs, fs': FS)
    requires e.k.VJmp? && 1 <= e.k.pc == |fs.code| - 1 && fs.code[e.k.pc - 1].Cmp? && fs.code[e.k.pc] == Jump(None)
             && fs.jpc == []
    requires KindOk(env, fs, e.k, base, a, c, R, R') && fs' == if cond then fs else InvertJump(fs, e.k.pc)
    ensures Yields(env, fs', WithExit(e, cond, [e.k.pc]), Otherwise(cond), base, TestWay(cond, false, a), R,
            Exec(env, fs'.code, |fs.code| - 2, R'))
  {
    var i, n := fs.code[e.k.pc - 1], |fs.code| - 2;
    var r := env.cmp(i.op, Operand(env, i.x, R'), Operand(env, i.y, R'));
    if r.Some? {
      var w := Bool(r.value == i.accept);
      assert Arrived(base, a, c, R, R', w);
      assert Exec(env, fs'.code, n, R') == if Truthy(w) == cond then Exit(n + 1, R', false) else Reach(R');
      assert Truthy(w) != cond ==> Arrived(base, TestWay(cond, false, a), None, R, R', w);
    }
  }

  /** A comparison becomes an exit of the expression; `InvertJump` exchanges the outcomes. */
  lemma ComparisonSound(env: Env, fs0: FS, fs: FS, e: Exp, cond: bool, m: Meaning)
    requires Sound(env, fs0, fs, e, AsValue, m) && e.k.VJmp?
    ensures var fs' := if cond then fs else InvertJump(fs, e.k.pc);
            Sound(env, fs0, fs', WithExit(e, cond, [e.k.pc]), Otherwise(cond), Via(m, a => TestWay(cond, false, a)))
  {
    var fs', f := if cond then fs else InvertJump(fs, e.k.pc), a => TestWay(cond, false, a);
    var e', mode' := WithExit(e, cond, [e.k.pc]), Otherwise(cond);
    var body, body' := Body(fs, e, AsValue), fs'.code;
    assert PatchList(body, [], |body|, None, |body|) == body == body'[..|body|];
    Appended(fs0, fs, e, AsValue, fs', e', mode');
    forall a, c, R, R' | FallOk(env, fs, e, AsValue, fs0.freereg, a, c, R, R')
      ensures Yields(env, fs', e', mode', fs0.freereg, f(a), R, Exec(env, body', |body|, R'))
    {
      ComparisonStep(env, fs, e, cond, fs0.freereg, a, c, R, R', fs');
    }
    MeansAfter(env, fs0, fs, e, AsValue, fs', e', mode', m, f);
  }

  predicate ConstKind(k: Kind) { k.VTrue? || k.VFalse? || k.VKNum? }

  function ConstValue(k: Kind): Value {
    match k
    case VTrue => Bool(true)
    case VKNum(n) => Num(n)
    case _ => Bool(false)
  }

  /** A constant needs no code if it is as the condition wants it. */
  lemma ConstantSound(env: Env, fs0: FS, fs: FS, e: Exp, mode: Mode, m: Meaning)
    requires Sound(env, fs0, fs, e, AsValue, m)
    requires mode == (if e.k.VFalse? then IsFalse else IsTrue) && ConstKind(e.k)
    ensures Sound(env, fs0, fs, e, mode, m)
  {
    forall q, R | Entry(fs0, q)
      ensures Yields(env, fs, e, mode, fs0.freereg, WayFrom(m, fs0, q, R), R, Take(env, fs.code, q, R))
    {
      var a := WayFrom(m, fs0, q, R);
      assert Yields(env, fs, e, AsValue, fs0.freereg, a, R, Take(env, fs.code, q, R));
      assert forall c, R' ::
               KindOk(env, fs, e.k, fs0.freereg, a, c, R, R') ==> Arrived(fs0.freereg, a, c, R, R', ConstValue(e.k));
    }
  }

  lemma DistinctAppend(l1: seq<nat>, l2: seq<nat>)
    requires Distinct(l1) && Distinct(l2) && Apart(l1, l2)
    ensures Distinct(l1 + l2)
  {
    assert forall i :: 0 <= i < |l1| ==> l1[i] in l1;
    assert forall i :: 0 <= i < |l2| ==> l2[i] in l2;
  }

  lemma ArmCode(fs0: FS, fs: FS, e: Exp, cond: bool)
    requires CodeOk(fs0, fs, e, AsValue) && e.k == (if cond then VTrue else VFalse)
    ensures var j := EmitJump(fs);
            && CodeOk(fs0, j.fs, WithExit(e, cond, j.list), Otherwise(cond))
            && Extends(fs.code, j.fs.code) && WellFormed(j.fs.code)
  {
    var j := EmitJump(fs);
    var code', J0 := j.fs.code, Jumps(fs0.jpc);
    forall i | 0 <= i < |code'| ensures FitsAt(code', i) {
      if i < |fs.code| { assert FitsAt(fs.code, i); }
    }
    assert Later(fs.code, code', {});
    LaterTwice(fs0.code, J0, fs.code, {}, code');
    var l := if cond then e.t else e.f;
    DistinctAppend([|fs.code|], fs.jpc);
    DistinctAppend(l, j.list);
  }

  lemma ArmOutcome(env: Env, fs: FS, e: Exp, cond: bool, base: nat, a: Option<Way>, R: Regs, o: Outcome)
    requires Yields(env, fs, e, AsValue, base, a, R, o) && e.k == (if cond then VTrue else VFalse)
    requires WellFormed(fs.code)
    requires forall j :: j in fs.jpc || j in e.t || j in e.f ==> j < |fs.code| && fs.code[j] == Jump(None)
    ensures var j := EmitJump(fs);
            Yields(env, j.fs, WithExit(e, cond, j.list), Otherwise(cond), base, ArmWay(a), R,
              Resume(env, j.fs.code, |fs.code|, o))
  {
    var j, n := EmitJump(fs), |fs.code|;
    if o.Reach? {
      assert Exec(env, j.fs.code, n, o.R) == Exit(n, o.R, false);
      if n > 0 { assert FitsAt(fs.code, n - 1); }
    } else if o.Exit? {
      assert j.fs.code[o.j] == Jump(None) && Carry(j.fs.code, o.j, o.R) == Carry(fs.code, o.j, o.R);
    }
  }

  /** The arms for constants of the wrong truth value: `luaK_jump` moves the pending jumps to the list, and
      they keep the values that they carry. */
  lemma ArmSound(env: Env, fs0: FS, fs: FS, e: Exp, cond: bool, m: Meaning)
    requires Sound(env, fs0, fs, e, AsValue, m) && e.k == (if cond then VTrue else VFalse)
    ensures var j := EmitJump(fs); Sound(env, fs0, j.fs, WithExit(e, cond, j.list), Otherwise(cond), Via(m, ArmWay))
  {
    var j := EmitJump(fs);
    var e', mode' := WithExit(e, cond, j.list), Otherwise(cond);
    ArmCode(fs0, fs, e, cond);
    forall q, R | Entry(fs0, q)
      ensures Yields(env, j.fs, e', mode', fs0.freereg, WayFrom(Via(m, ArmWay), fs0, q, R), R,
              Take(env, j.fs.code, q, R))
    {
      var a, o := WayFrom(m, fs0, q, R), Take(env, fs.code, q, R);
      YieldsProper(env, fs0, fs, e, AsValue, fs0.freereg, a, R, o);
      ComposeTake(env, fs.code, j.fs.code, q, R);
      ArmOutcome(env, fs, e, cond, fs0.freereg, a, R, o);
    }
  }

  /** `luaK_patchtohere`: the exits that agree with falling through become pending. */
  lemma PatchToHereOk(env: Env, fs0: FS, fs: FS, e: Exp, cond: bool, m: Meaning)
    requires Ok(env, fs0, fs, e, if cond then IsTrue else IsFalse, m)
    ensures var list := if cond then e.t else e.f;
            Ok(env, fs0, PatchToHere(fs, list),
              if cond then e.(t := [])
              else e.(f := []), if cond then IsTrue else IsFalse, Via(m, a => PendWay(cond, a)))
  {
    var list, mode := if cond then e.t else e.f, if cond then IsTrue else IsFalse;
    var fs', e' := PatchToHere(fs, list), if cond then e.(t := []) else e.(f := []);
    DistinctAppend(fs.jpc, list);
    forall q, R | Entry(fs0, q)
      ensures Yields(env, fs', e', mode, fs0.freereg, WayFrom(Via(m, a => PendWay(cond, a)), fs0, q, R), R,
              Take(env, fs.code, q, R))
    {
      assert Yields(env, fs, e, mode, fs0.freereg, WayFrom(m, fs0, q, R), R, Take(env, fs.code, q, R));
      PendOutcome(env, fs, e, cond, fs0.freereg, WayFrom(m, fs0, q, R), R, Take(env, fs.code, q, R));
    }
  }

  lemma PendOutcome(env: Env, fs: FS, e: Exp, cond: bool, base: nat, a: Option<Way>, R: Regs, o: Outcome)
    requires Yields(env, fs, e, if cond then IsTrue else IsFalse, base, a, R, o) && Apart(e.t, e.f)
    ensures var list := if cond then e.t else e.f;
            Yields(env, PatchToHere(fs, list),
              if cond then e.(t := []) else e.(f := []), if cond then IsTrue else IsFalse, base, PendWay(cond, a), R, o)
  {
    if o.Exit? && o.j !in fs.jpc {
      var w := a.value.w;
      if Truthy(w) == cond {
        assert Arrived(base, PendWay(cond, a), Carry(fs.code, o.j, o.R), R, o.R, w);
      }
    }
  }

  // ---------------------------------------------------------------- and, or: the first operand

  lemma DischargeVarsOk(env: Env, fs0: FS, fs: FS, e: Exp, m: Meaning)
    requires Ok(env, fs0, fs, e, AsValue, m)
    ensures Ok(env, fs0, fs, DischargeVars(e), AsValue, m)
  {
    DischargeVarsSound(env, fs0, fs, e, m);
  }

  /** The jump that `GoIfTrue` or `GoIfFalse` adds to a list. */
  function ExitJump(fs: FS, e: Exp, cond: bool): Jumped {
    if e.k == (if cond then VFalse else VTrue) || (!cond && (e.k.VK? || e.k.VKNum?)) then Jumped(fs, [])
    else if e.k == (if cond then VTrue else VFalse) then EmitJump(fs)
    else if e.k.VJmp? then Jumped(if cond then fs else InvertJump(fs, e.k.pc), [e.k.pc])
    else JumpOnCond(fs, e, cond)
  }

  lemma ExitOfConstant(env: Env, fs0: FS, fs: FS, e: Exp, cond: bool, m: Meaning)
    requires Ok(env, fs0, fs, e, AsValue, m) && ConstKind(e.k)
             && (NoTest(ShapeOf(e.k), cond) || IsArm(ShapeOf(e.k), cond))
    ensures var j := ExitJump(fs, e, cond);
            Ok(env, fs0, j.fs, WithExit(e, cond, j.list), Otherwise(cond), Via(m, a => ExitWay(ShapeOf(e.k), cond, a)))
  {
    var j, s, m' := ExitJump(fs, e, cond), ShapeOf(e.k), Via(m, a => ExitWay(ShapeOf(e.k), cond, a));
    if NoTest(s, cond) {
      assert WithExit(e, cond, []) == e;
      hide Sound;
      ConstantSound(env, fs0, fs, e, Otherwise(cond), m);
      SameMeaning(env, fs0, j.fs, WithExit(e, cond, j.list), Otherwise(cond), m, m');
    } else {
      hide Sound;
      ArmSound(env, fs0, fs, e, cond, m);
      SameMeaning(env, fs0, j.fs, WithExit(e, cond, j.list), Otherwise(cond), Via(m, ArmWay), m');
    }
  }

  lemma ExitJumpOk(env: Env, fs0: FS, fs: FS, e: Exp, cond: bool, m: Meaning)
    requires Ok(env, fs0, fs, e, AsValue, m) && !e.k.VK? && !e.k.VLocal?
    requires ExitJump(fs, e, cond).fs.K <= env.K
    ensures var j := ExitJump(fs, e, cond);
            Ok(env, fs0, j.fs, WithExit(e, cond, j.list), Otherwise(cond), Via(m, a => ExitWay(ShapeOf(e.k), cond, a)))
  {
    var j, s, m' := ExitJump(fs, e, cond), ShapeOf(e.k), Via(m, a => ExitWay(ShapeOf(e.k), cond, a));
    hide Sound;
    if NoTest(s, cond) || IsArm(s, cond) {
      ExitOfConstant(env, fs0, fs, e, cond, m);
    } else if e.k.VJmp? {
      ComparisonSound(env, fs0, fs, e, cond, m);
      SameMeaning(env, fs0, j.fs, WithExit(e, cond, j.list), Otherwise(cond), Via(m, a => TestWay(cond, false, a)), m');
    } else {
      hide JumpOnCond;
      JumpOnCondOk(env, fs0, fs, e, cond, m);
      SameMeaning(env, fs0, j.fs, WithExit(e, cond, j.list), Otherwise(cond),
        Via(m, a => TestWay(cond, !e.k.VReloc?, a)), m');
    }
  }

  /** `GoIfTrue` (`cond == false`) and `GoIfFalse` (`cond == true`). */
  function GoIf(fs: FS, e: Exp, cond: bool): Gen { if cond then GoIfFalse(fs, e) else GoIfTrue(fs, e) }

  lemma GoIfIs(fs: FS, e: Exp, cond: bool)
    requires !e.k.VK?
    ensures var e1 := DischargeVars(e);
            var j := ExitJump(fs, e1, cond);
            && GoIf(fs, e, cond)
                 == Gen(PatchToHere(Linked(j.fs, if cond then e1.t else e1.f, j.list), if cond then e1.f else e1.t),
                                        if cond then WithExit(e1, true, j.list).(f := [])
                                          else WithExit(e1, false, j.list).(t := []))
            && GoIf(fs, e, cond).fs.K == j.fs.K
            && !e1.k.VK? && !e1.k.VLocal? && ShapeOf(e1.k) == ShapeOf(e.k)
  {
    hide JumpOnCond;
  }

  lemma GoIfOk(env: Env, fs0: FS, fs: FS, e: Exp, cond: bool, m: Meaning)
    requires Ok(env, fs0, fs, e, AsValue, m) && !e.k.VK? && GoIf(fs, e, cond).fs.K <= env.K
    ensures var g := GoIf(fs, e, cond);
            Ok(env, fs0, g.fs, g.e, Otherwise(cond), Via(m, a => CondWay(ShapeOf(e.k), cond, a)))
  {
    var e1 := DischargeVars(e);
    var j := ExitJump(fs, e1, cond);
    var m1 := Via(m, a => ExitWay(ShapeOf(e1.k), cond, a));
    GoIfIs(fs, e, cond);
    hide Sound, RegsOk, GoIf, ExitJump, DischargeVars, PatchToHere, Linked, ExitWay, PendWay;
    DischargeVarsOk(env, fs0, fs, e, m);
    ExitJumpOk(env, fs0, fs, e1, cond, m);
    AgreeingExitsPend(env, fs0, j, WithExit(e1, cond, j.list), if cond then e1.t else e1.f, !cond, m1);
    var g := GoIf(fs, e, cond);
    SameMeaning(env, fs0, g.fs, g.e, Otherwise(cond), Via(m1, a => PendWay(!cond, a)),
      Via(m, a => CondWay(ShapeOf(e.k), cond, a)));
  }

  lemma GoIfTrueOk(env: Env, fs0: FS, fs: FS, e: Exp, m: Meaning)
    requires Ok(env, fs0, fs, e, AsValue, m) && !e.k.VK?
    requires GoIfTrue(fs, e).fs.K <= env.K
    ensures var g := GoIfTrue(fs, e); Ok(env, fs0, g.fs, g.e, IsTrue, Via(m, a => CondWay(ShapeOf(e.k), false, a)))
  {
    hide Ok, GoIfTrue;
    GoIfOk(env, fs0, fs, e, false, m);
  }

  lemma GoIfFalseOk(env: Env, fs0: FS, fs: FS, e: Exp, m: Meaning)
    requires Ok(env, fs0, fs, e, AsValue, m) && !e.k.VK?
    requires GoIfFalse(fs, e).fs.K <= env.K
    ensures var g := GoIfFalse(fs, e); Ok(env, fs0, g.fs, g.e, IsFalse, Via(m, a => CondWay(ShapeOf(e.k), true, a)))
  {
    hide Ok, GoIfFalse;
    GoIfOk(env, fs0, fs, e, true, m);
  }

  lemma AgreeingExitsPend(env: Env, fs0: FS, j: Jumped, e: Exp, l: seq<nat>, cond: bool, m: Meaning)
    requires Ok(env, fs0, j.fs, e, if cond then IsTrue else IsFalse, m)
    ensures var fs1 := Linked(j.fs, l, j.list);
            Ok(env, fs0, PatchToHere(fs1, if cond then e.t else e.f),
              if cond then e.(t := [])
              else e.(f := []), if cond then IsTrue else IsFalse, Via(m, a => PendWay(cond, a)))
  {
    var fs1 := Linked(j.fs, l, j.list);
    SameCode(env, fs0, j.fs, fs1, e, e, if cond then IsTrue else IsFalse, m);
    PatchToHereOk(env, fs0, fs1, e, cond, m);
  }

  // ---------------------------------------------------------------- not

  function Swapped(fs: FS, e: Exp): Gen {
    Gen(fs.(code := Demote(Demote(fs.code, e.t), e.f)), e.(t := e.f, f := e.t))
  }

  /** Only TESTSETs in front of jumps of the lists have become TESTs. */
  ghost predicate DemotedAt(code: seq<Instr>, code': seq<Instr>, i: nat, lists: set<nat>)
    requires i < |code| == |code'|
  {
    code'[i] == code[i]
      || (i + 1 in lists && code[i].TestSet? && code[i].to.None? && code'[i] == Test(code[i].b, code[i].c))
  }

  lemma SwappedBody(fs0: FS, fs: FS, e: Exp)
    requires CodeOk(fs0, fs, e, AsValue)
    ensures var (body, body') := (Body(fs, e, AsValue), Body(Swapped(fs, e).fs, Swapped(fs, e).e, AsValue));
            && |body'| == |body| && Extends(body, body') && WellFormed(body')
            && (forall i :: 0 <= i < |body| ==> DemotedAt(body, body', i, Jumps(e.t) + Jumps(e.f)))
            && forall j :: j in e.t || j in e.f ==> !CarriesValue(body', j) && !CarriesValue(Swapped(fs, e).fs.code, j)
  {
    var g := Swapped(fs, e);
    var body, body' := Body(fs, e, AsValue), Body(g.fs, g.e, AsValue);
    forall i | 0 <= i < |body|
      ensures Patched(body, body', i) && FitsAt(body', i)
      ensures DemotedAt(body, body', i, Jumps(e.t) + Jumps(e.f))
    {
      assert FitsAt(body, i);
    }
  }

  lemma SwappedCode(fs0: FS, fs: FS, e: Exp)
    requires CodeOk(fs0, fs, e, AsValue)
    ensures var g := Swapped(fs, e); CodeOk(fs0, g.fs, g.e, AsValue)
  {
    var g := Swapped(fs, e);
    var body, body', lists := Body(fs, e, AsValue), Body(g.fs, g.e, AsValue), Jumps(e.t) + Jumps(e.f);
    SwappedBody(fs0, fs, e);
    SwappedLists(fs0, fs, e);
    assert Later(body, body', lists) by {
      forall i | 0 <= i < |body| && i !in lists && !Controls(body, i, lists) ensures body'[i] == body[i] {
        assert DemotedAt(body, body', i, lists);
      }
    }
    LaterTwice(fs0.code, Jumps(fs0.jpc), body, lists, body');
  }

  lemma OpenStays(body: seq<Instr>, body': seq<Instr>, lists: set<nat>, l: seq<nat>, pc0: nat, jpc0: seq<nat>)
    requires |body'| == |body| && (forall i :: 0 <= i < |body| ==> DemotedAt(body, body', i, lists))
             && OpenJumps(body, l, pc0, jpc0)
    ensures OpenJumps(body', l, pc0, jpc0)
  {
    forall j | j in l ensures body'[j] == Jump(None) { assert DemotedAt(body, body', j, lists); }
  }

  lemma SwappedLists(fs0: FS, fs: FS, e: Exp)
    requires CodeOk(fs0, fs, e, AsValue)
    ensures var g := Swapped(fs, e); ListsOk(fs0, g.fs, g.e, AsValue) && PendingOk(fs0, g.fs, g.e)
  {
    var body, body', lists := Body(fs, e, AsValue), Body(Swapped(fs, e).fs, Swapped(fs, e).e, AsValue),
      Jumps(e.t) + Jumps(e.f);
    SwappedBody(fs0, fs, e);
    assert PendingOk(fs0, Swapped(fs, e).fs, Swapped(fs, e).e);
    hide DemotedAt, PendingOk, Later, WellFormed, StartOk;
    OpenStays(body, body', lists, fs.jpc, |fs0.code|, fs0.jpc);
    OpenStays(body, body', lists, e.t, |fs0.code|, fs0.jpc);
    OpenStays(body, body', lists, e.f, |fs0.code|, fs0.jpc);
    hide OpenJumps, Body;
  }

  lemma SwappedKind(env: Env, fs0: FS, fs: FS, e: Exp, base: nat, a: Option<Way>, c: Option<Value>, R: Regs, R': Regs)
    requires CodeOk(fs0, fs, e, AsValue) && KindOk(env, fs, e.k, base, a, c, R, R')
    ensures var g := Swapped(fs, e); KindOk(env, g.fs, g.e.k, base, SwapWay(a), c, R, R')
  {
    var body := Body(fs, e, AsValue);
    assert forall j :: j in e.t || j in e.f ==> j < |body|;
  }

  /** A jump that is pending or of a list is still there and open; one of a list carries nothing any more. */
  lemma SwappedJump(fs0: FS, fs: FS, e: Exp, j: nat)
    requires CodeOk(fs0, fs, e, AsValue) && (j in fs.jpc || j in e.t || j in e.f)
    ensures var g := Swapped(fs, e);
            var body' := Body(g.fs, g.e, AsValue);
            && j < |body'| && body'[j] == Jump(None) && CarriesValue(body', j) == CarriesValue(g.fs.code, j)
            && (j in fs.jpc ==> CarriesValue(g.fs.code, j) == CarriesValue(fs.code, j))
            && (j in fs.jpc ==> forall R :: Carry(g.fs.code, j, R) == Carry(fs.code, j, R))
            && (j !in fs.jpc ==> !CarriesValue(g.fs.code, j))
  {
    var g, body := Swapped(fs, e), Body(fs, e, AsValue);
    var body' := Body(g.fs, g.e, AsValue);
    SwappedBody(fs0, fs, e);
    assert j < |body| && body[j] == Jump(None) && (j in fs.jpc ==> j !in e.t && j !in e.f);
    assert body <= fs.code && body' <= g.fs.code && |body'| == |body|;
    hide CodeOk, Swapped, Body;
    assert DemotedAt(body, body', j, Jumps(e.t) + Jumps(e.f));
    if j > 0 {
      assert DemotedAt(body, body', j - 1, Jumps(e.t) + Jumps(e.f));
      assert g.fs.code[j - 1] == body'[j - 1] && fs.code[j - 1] == body[j - 1];
    }
  }

  lemma SwapExit(env: Env, fs0: FS, fs: FS, e: Exp, base: nat, a: Option<Way>, R: Regs, j: nat, R': Regs, valued: bool)
    requires CodeOk(fs0, fs, e, AsValue) && Yields(env, fs, e, AsValue, base, a, R, Exit(j, R', valued))
    ensures var g := Swapped(fs, e);
            var body' := Body(g.fs, g.e, AsValue);
            Yields(env, g.fs, g.e, AsValue, base, SwapWay(a), R, Resume(env, body', |body'|, Exit(j, R', valued)))
  {
    var g := Swapped(fs, e);
    assert g.fs.jpc == fs.jpc && g.e == e.(t := e.f, f := e.t);
    hide CodeOk, KindOk, Swapped, Body, CarriesValue, Carry;
    SwappedJump(fs0, fs, e, j);
    if j in fs.jpc {
      SwappedKind(env, fs0, fs, e, base, a, Carry(fs.code, j, R'), R, R');
    } else {
      CarriesNothing(g.fs.code, j, R');
    }
  }

  lemma CarriesNothing(code: seq<Instr>, j: nat, R: Regs)
    requires !CarriesValue(code, j)
    ensures Carry(code, j, R) == None
  {
  }

  lemma SwapOutcome(env: Env, fs0: FS, fs: FS, e: Exp, base: nat, a: Option<Way>, R: Regs, body': seq<Instr>,
                    o: Outcome)
    requires CodeOk(fs0, fs, e, AsValue) && Yields(env, fs, e, AsValue, base, a, R, o)
    requires var g := Swapped(fs, e); body' == Body(g.fs, g.e, AsValue)
    ensures var g := Swapped(fs, e);
            Yields(env, g.fs, g.e, AsValue, base, SwapWay(a), R, Resume(env, body', |body'|, o))
  {
    match o {
      case Reach(R') => hide CodeOk, KindOk, Swapped; SwappedKind(env, fs0, fs, e, base, a, None, R, R');
      case Exit(j, R', valued) => hide CodeOk, Yields, Resume; SwapExit(env, fs0, fs, e, base, a, R, j, R', valued);
      case _ =>
    }
  }

  /** Exchanging the lists negates the exits. */
  lemma SwapSound(env: Env, fs0: FS, fs: FS, e: Exp, m: Meaning)
    requires Sound(env, fs0, fs, e, AsValue, m)
    ensures var g := Swapped(fs, e); Sound(env, fs0, g.fs, g.e, AsValue, Via(m, SwapWay))
  {
    var g := Swapped(fs, e);
    var body, body' := Body(fs, e, AsValue), Body(g.fs, g.e, AsValue);
    SwappedBody(fs0, fs, e);
    SwappedCode(fs0, fs, e);
    forall q, R | Entry(fs0, q)
      ensures Yields(env, g.fs, g.e, AsValue, fs0.freereg, WayFrom(Via(m, SwapWay), fs0, q, R), R,
              Take(env, body', q, R))
    {
      var a, o := WayFrom(m, fs0, q, R), Take(env, body, q, R);
      assert Yields(env, fs, e, AsValue, fs0.freereg, a, R, o);
      YieldsProper(env, fs0, fs, e, AsValue, fs0.freereg, a, R, o);
      ComposeTake(env, body, body', q, R);
      SwapOutcome(env, fs0, fs, e, fs0.freereg, a, R, body', o);
    }
  }

  /** The new kind for a constant or a comparison. */
  function NegatedKind(k: Kind): Kind {
    match k
    case VFalse => VTrue
    case VK(_) => VFalse
    case VKNum(_) => VFalse
    case VTrue => VFalse
    case _ => k
  }

  /** The negated value of a constant. */
  lemma NotOfConstant(env: Env, fs0: FS, fs: FS, e: Exp, m: Meaning)
    requires Sound(env, fs0, fs, e, AsValue, m) && ConstKind(e.k)
    ensures Sound(env, fs0, fs, e.(k := NegatedKind(e.k)), AsValue, Via(m, a => NotValue(true, a)))
  {
    var e' := e.(k := NegatedKind(e.k));
    forall q, R | Entry(fs0, q)
      ensures Yields(env, fs, e', AsValue, fs0.freereg, WayFrom(Via(m, a => NotValue(true, a)), fs0, q, R), R,
              Take(env, fs.code, q, R))
    {
      assert Yields(env, fs, e, AsValue, fs0.freereg, WayFrom(m, fs0, q, R), R, Take(env, fs.code, q, R));
    }
  }

  lemma NotOfComparison(env: Env, fs0: FS, fs: FS, e: Exp, m: Meaning)
    requires Sound(env, fs0, fs, e, AsValue, m) && e.k.VJmp?
    ensures Sound(env, fs0, InvertJump(fs, e.k.pc), e, AsValue, Via(m, a => NotValue(false, a)))
  {
    var fs', m' := InvertJump(fs, e.k.pc), Via(m, a => NotValue(false, a));
    assert Body(fs', e, AsValue) == Body(fs, e, AsValue);
    assert CodeOk(fs0, fs', e, AsValue);
    forall q, R | Entry(fs0, q)
      ensures Yields(env, fs', e, AsValue, fs0.freereg, WayFrom(m', fs0, q, R), R,
              Take(env, Body(fs', e, AsValue), q, R))
    {
      assert Yields(env, fs, e, AsValue, fs0.freereg, WayFrom(m, fs0, q, R), R, Take(env, Body(fs, e, AsValue), q, R));
      InvertOutcome(env, fs0, fs, e, fs0.freereg, WayFrom(m, fs0, q, R), R, Take(env, Body(fs, e, AsValue), q, R));
    }
  }

  lemma InvertOutcome(env: Env, fs0: FS, fs: FS, e: Exp, base: nat, a: Option<Way>, R: Regs, o: Outcome)
    requires CodeOk(fs0, fs, e, AsValue) && e.k.VJmp? && Yields(env, fs, e, AsValue, base, a, R, o)
    ensures Yields(env, InvertJump(fs, e.k.pc), e, AsValue, base, NotValue(false, a), R, o)
  {
    if o.Exit? { assert o.j < |Body(fs, e, AsValue)|; }
  }

  function NotMid(fs: FS, e: Exp): Gen
    requires e.k.VNonReloc?
  {
    Gen(Emit(fs, NotI(0, e.k.r)), e.(k := VReloc(|fs.code|)))
  }

  lemma NotOfRegister(env: Env, fs0: FS, fs: FS, e: Exp, m: Meaning)
    requires Sound(env, fs0, fs, e, AsValue, m) && e.k.VNonReloc?
    ensures var mid := NotMid(fs, e); Sound(env, fs0, mid.fs, mid.e, AsValue, Via(m, a => NotValue(false, a)))
  {
    var mid, f := NotMid(fs, e), a => NotValue(false, a);
    var body' := Body(mid.fs, mid.e, AsValue);
    EmitContinues(fs, NotI(0, e.k.r));
    assert body' == PatchList(fs.code, fs.jpc, |fs.code|, None, |fs.code|);
    Appended(fs0, fs, e, AsValue, mid.fs, mid.e, AsValue);
    forall a, c, R, R' | FallOk(env, fs, e, AsValue, fs0.freereg, a, c, R, R')
      ensures Yields(env, mid.fs, mid.e, AsValue, fs0.freereg, f(a), R, Exec(env, body', |fs.code|, R'))
    {
      assert Exec(env, body', |fs.code|, R') == Reach(R');
    }
    MeansAfter(env, fs0, fs, e, AsValue, mid.fs, mid.e, AsValue, m, f);
  }

  lemma NotIs(fs0: FS, fs: FS, e: Exp)
    requires RegsOk(fs0, fs, e, AsValue) && (e.k.VReloc? || e.k.VNonReloc?)
    ensures var (d, g) := (Discharge2AnyReg(fs, e), CodeNot(fs, e));
            && d.e.k.VNonReloc? && RegsOk(fs0, g.fs, g.e, AsValue) && g.e.k.VReloc?
            && var mid := NotMid(FreeExp(d.fs, d.e), d.e); g == Swapped(mid.fs, mid.e)
  {
    hide PatchList, AnyFar, Demote;
  }

  lemma NotOfOther(env: Env, fs0: FS, fs: FS, e: Exp, m: Meaning)
    requires Ok(env, fs0, fs, e, AsValue, m) && (e.k.VReloc? || e.k.VNonReloc?)
    requires CodeNot(fs, e).fs.K <= env.K
    ensures var g := CodeNot(fs, e);
            Ok(env, fs0, g.fs, g.e, AsValue, Via(m, a => NotWay(ShapeOf(e.k), a))) && g.e.k.VReloc?
  {
    hide Sound, RegsOk, NotMid;
    NotIs(fs0, fs, e);
    assert Discharge2AnyReg(fs, e).fs.K <= env.K;
    Discharge2AnyRegSound(env, fs0, fs, e, m);
    var d, m1, g := Discharge2AnyReg(fs, e), if e.k.VNonReloc? then m else Via(m, Settled), CodeNot(fs, e);
    var fs1 := FreeExp(d.fs, d.e);
    hide CodeNot, Swapped, Discharge2AnyReg;
    SameCode(env, fs0, d.fs, fs1, d.e, d.e, AsValue, m1);
    NotOfRegister(env, fs0, fs1, d.e, m1);
    var mid := NotMid(fs1, d.e);
    SwapSound(env, fs0, mid.fs, mid.e, Via(m1, a => NotValue(false, a)));
    NegatedWays(m, m1, ShapeOf(e.k));
    SameMeaning(env, fs0, g.fs, g.e, AsValue, Via(Via(m1, a => NotValue(false, a)), SwapWay),
      Via(m, a => NotWay(ShapeOf(e.k), a)));
  }

  lemma NegatedWays(m: Meaning, m1: Meaning, s: Shape)
    requires (m1 == m || m1 == Via(m, Settled)) && !IsConst(s)
    ensures SameWays(Via(Via(m1, a => NotValue(false, a)), SwapWay), Via(m, a => NotWay(s, a)))
  {
    SettledFirst(m, m1, a => NotWay(s, a));
    assert SameWays(Via(Via(m1, a => NotValue(false, a)), SwapWay), Via(m1, a => NotWay(s, a)));
  }

  lemma NotOfSimple(env: Env, fs0: FS, fs: FS, e: Exp, m: Meaning)
    requires Ok(env, fs0, fs, e, AsValue, m) && (ConstKind(e.k) || e.k.VJmp?)
    ensures var g := CodeNot(fs, e); Sound(env, fs0, g.fs, g.e, AsValue, Via(m, a => NotWay(ShapeOf(e.k), a)))
  {
    var m1 := Via(m, a => NotValue(IsConst(ShapeOf(e.k)), a));
    var mid := if e.k.VJmp? then Gen(InvertJump(fs, e.k.pc), e) else Gen(fs, e.(k := NegatedKind(e.k)));
    if e.k.VJmp? {
      NotOfComparison(env, fs0, fs, e, m);
      SameMeaning(env, fs0, mid.fs, mid.e, AsValue, Via(m, a => NotValue(false, a)), m1);
    } else {
      NotOfConstant(env, fs0, fs, e, m);
      SameMeaning(env, fs0, mid.fs, mid.e, AsValue, Via(m, a => NotValue(true, a)), m1);
    }
    hide Sound;
    SwapSound(env, fs0, mid.fs, mid.e, m1);
    var g := CodeNot(fs, e);
    assert g == Swapped(mid.fs, mid.e);
    SameMeaning(env, fs0, g.fs, g.e, AsValue, Via(m1, SwapWay), Via(m, a => NotWay(ShapeOf(e.k), a)));
  }

  lemma NotRegs(fs0: FS, fs: FS, e: Exp)
    requires RegsOk(fs0, fs, e, AsValue) && (ConstKind(e.k) || e.k.VJmp?)
    ensures var g := CodeNot(fs, e); RegsOk(fs0, g.fs, g.e, AsValue) && !g.e.k.VK?
  {
  }

  lemma CodeNotOk(env: Env, fs0: FS, fs: FS, e: Exp, m: Meaning)
    requires Ok(env, fs0, fs, e, AsValue, m) && !e.k.VK?
    requires CodeNot(fs, e).fs.K <= env.K
    ensures var g := CodeNot(fs, e);
            Ok(env, fs0, g.fs, g.e, AsValue, Via(m, a => NotWay(ShapeOf(e.k), a))) && !g.e.k.VK?
  {
    var e1, g := DischargeVars(e), CodeNot(fs, e);
    DischargeVarsOk(env, fs0, fs, e, m);
    assert g == CodeNot(fs, e1) && ShapeOf(e1.k) == ShapeOf(e.k);
    if e1.k.VReloc? || e1.k.VNonReloc? {
      NotOfOther(env, fs0, fs, e1, m);
    } else {
      NotOfSimple(env, fs0, fs, e1, m);
      NotRegs(fs0, fs, e1);
    }
    hide Sound;
    SameMeaning(env, fs0, g.fs, g.e, AsValue, Via(m, a => NotWay(ShapeOf(e1.k), a)),
      Via(m, a => NotWay(ShapeOf(e.k), a)));
  }
}
