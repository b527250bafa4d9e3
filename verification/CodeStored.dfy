/** Facts about generation states that the stored code needs: which lists are apart, and what patching the
    stored words one list after the other comes to. */
module CodeStored {
  import opened Wrappers
  import opened CodeMachine
  import opened CodeGen
  import opened CodeFlow
  import opened CodeState
  import opened CodeConditions
  import opened CodeSequel
  import opened CodeCompare
  import opened CodeTheorem
  import opened CodeLists
  import opened CodeClose
  import opened CodeErrors

  /** No jump is in two lists, and what a descriptor is still waiting for is at the end of the code. */
  ghost predicate WellKept(fs: FS, e: Exp) {
    && Apart(fs.jpc, e.t) && Apart(fs.jpc, e.f) && Apart(e.t, e.f)
    && (e.k.VReloc? ==> e.k.pc == |fs.code| - 1 && fs.code[e.k.pc].NotI? && fs.jpc == [])
    && (e.k.VJmp? ==>
          1 <= e.k.pc == |fs.code| - 1 && fs.code[e.k.pc - 1].Cmp? && fs.code[e.k.pc] == Jump(None) && fs.jpc == [])
    && (e.k.VJmp? ==> e.k.pc !in e.t && e.k.pc !in e.f)
  }

  /** The jumps that a function may change when it is given the expression `e`. */
  function Touch(fs: FS, e: Exp): set<nat> {
    Jumps(fs.jpc) + Jumps(e.t) + Jumps(e.f) + if e.k.VJmp? then {e.k.pc} else {}
  }

  /** The jumps have been generated since `fs0`, or were pending in it. */
  ghost predicate Since(fs0: FS, js: set<nat>) { forall j :: j in js && j < |fs0.code| ==> j in fs0.jpc }

  lemma OkIsWellKept(fs0: FS, fs: FS, e: Exp)
    requires CodeOk(fs0, fs, e, AsValue)
    ensures WellKept(fs, e) && Since(fs0, Touch(fs, e))
  {
  }

  lemma OkIsSince(fs0: FS, fs: FS, e: Exp, mode: Mode)
    requires CodeOk(fs0, fs, e, mode) && mode != AsValue
    ensures Apart(fs.jpc, e.t) && Apart(fs.jpc, e.f) && Since(fs0, Jumps(fs.jpc)) && Since(fs0, Jumps(e.t))
            && Since(fs0, Jumps(e.f))
  {
  }

  // ---------------------------------------------------------------- compiling

  /** Any comparison will do where only the lists matter. */
  ghost function SomeEnv(fs: FS): Env { Env(fs.K, (op, v, w) => None) }

  lemma CompLists(fs: FS, x: Expr)
    requires Ready(fs, x)
    ensures var g := Comp(fs, x);
            && CodeOk(fs, g.fs, g.e, AsValue) && WellKept(g.fs, g.e) && Since(fs, Touch(g.fs, g.e))
            && !g.e.k.VK? && (g.e.k.VNonReloc? ==> g.e.k.r < fs.nactvar) && (g.e.k.VLocal? ==> g.e.k.r < fs.nactvar)
            && g.fs.nactvar == fs.nactvar && g.fs.freereg == fs.freereg
  {
    CompOk(SomeEnv(Comp(fs, x).fs), fs, x);
    OkIsWellKept(fs, Comp(fs, x).fs, Comp(fs, x).e);
  }

  /** What is known between the operands of `and` and `or`. */
  ghost predicate Between(fs: FS, g2: Gen, r: Expr, g3: Gen, l2: seq<nat>, l3: seq<nat>) {
    && Ready(g2.fs, r) && g2.fs.nactvar == fs.nactvar && g2.fs.freereg == fs.freereg
    && Apart(g2.fs.jpc, l2) && Apart(l3, l2) && Since(fs, Jumps(g2.fs.jpc)) && Since(fs, Jumps(l2))
    && Since(fs, Jumps(l3))
  }

  lemma LaterSince(code0: seq<Instr>, fs0: FS, fs1: FS, js: set<nat>)
    requires |fs0.code| <= |fs1.code| && Since(fs0, Jumps(fs1.jpc)) && Since(fs1, js)
    ensures Since(fs0, js)
  {
  }

  lemma AndLists(fs: FS, l: Expr, r: Expr)
    requires Ready(fs, And(l, r))
    ensures var g1 := Comp(fs, l); var g2 := GoIfTrue(g1.fs, g1.e); var g3 := Comp(g2.fs, r);
            Between(fs, g2, r, g3, g2.e.f, g3.e.f)
  {
    var env, g1 := SomeEnv(Comp(fs, And(l, r)).fs), Comp(fs, l);
    var g2 := GoIfTrue(g1.fs, g1.e);
    var g3 := Comp(g2.fs, r);
    assert g2.e.t == [];
    GoIfTrueGrows(g1.fs, g1.e); CompGrows(g2.fs, r);
    hide GoIfTrue, Ok;
    CompOk(env, fs, l);
    GoIfTrueOk(env, fs, g1.fs, g1.e, MeaningOf(env.cmp, fs, l));
    NextReady(env, fs, g2.fs, g2.e, IsTrue, Via(MeaningOf(env.cmp, fs, l), a => CondWay(ShapeOf(g1.e.k), false, a)), r);
    CompOk(env, g2.fs, r);
    assert CodeOk(fs, g2.fs, g2.e, IsTrue) && CodeOk(g2.fs, g3.fs, g3.e, AsValue)
           && RegsOk(fs, g2.fs, g2.e, IsTrue) by {
      OkParts(env, fs, g2.fs, g2.e, IsTrue, Via(MeaningOf(env.cmp, fs, l), a => CondWay(ShapeOf(g1.e.k), false, a)));
      OkParts(env, g2.fs, g3.fs, g3.e, AsValue, MeaningOf(env.cmp, g2.fs, r));
    }
    hide Compiled;
    BetweenOk(fs, g2, r, g3, false);
  }

  lemma OkParts(env: Env, fs0: FS, fs: FS, e: Exp, mode: Mode, m: Meaning)
    requires Ok(env, fs0, fs, e, mode, m)
    ensures CodeOk(fs0, fs, e, mode) && RegsOk(fs0, fs, e, mode)
  {
  }

  lemma BetweenOk(fs: FS, g2: Gen, r: Expr, g3: Gen, cond: bool)
    requires CodeOk(fs, g2.fs, g2.e, Otherwise(cond)) && CodeOk(g2.fs, g3.fs, g3.e, AsValue)
             && RegsOk(fs, g2.fs, g2.e, Otherwise(cond))
    requires Ready(g2.fs, r) && (if cond then g2.e.f == [] else g2.e.t == [])
    ensures Between(fs, g2, r, g3, if cond then g2.e.t else g2.e.f, if cond then g3.e.t else g3.e.f)
  {
    OkIsSince(fs, g2.fs, g2.e, Otherwise(cond));
    OkIsWellKept(g2.fs, g3.fs, g3.e);
    assert |fs.code| <= |g2.fs.code|;
    JunctionLists(fs, g2.fs, g2.e, g3.fs, g3.e, cond);
    var l2, l3 := if cond then g2.e.t else g2.e.f, if cond then g3.e.t else g3.e.f;
    assert Distinct(l3 + l2);
    hide CodeOk, ListsOk, RegsOk, StartOk;
    DistinctApart(l3, l2);
    LaterSince(fs.code, fs, g2.fs, Jumps(l3));
  }

  lemma DistinctApart(l1: seq<nat>, l2: seq<nat>)
    requires Distinct(l1 + l2)
    ensures Apart(l1, l2)
  {
    var l := l1 + l2;
    forall a, b | 0 <= a < |l1| && 0 <= b < |l2| ensures l1[a] != l2[b] {
      assert l[a] == l1[a] && l[|l1| + b] == l2[b];
    }
  }

  lemma OrLists(fs: FS, l: Expr, r: Expr)
    requires Ready(fs, Or(l, r))
    ensures var g1 := Comp(fs, l); var g2 := GoIfFalse(g1.fs, g1.e); var g3 := Comp(g2.fs, r);
            Between(fs, g2, r, g3, g2.e.t, g3.e.t)
  {
    var env, g1 := SomeEnv(Comp(fs, Or(l, r)).fs), Comp(fs, l);
    var g2 := GoIfFalse(g1.fs, g1.e);
    var g3 := Comp(g2.fs, r);
    assert g2.e.f == [];
    GoIfFalseGrows(g1.fs, g1.e); CompGrows(g2.fs, r);
    hide GoIfFalse, Ok;
    CompOk(env, fs, l);
    GoIfFalseOk(env, fs, g1.fs, g1.e, MeaningOf(env.cmp, fs, l));
    NextReady(env, fs, g2.fs, g2.e, IsFalse, Via(MeaningOf(env.cmp, fs, l), a => CondWay(ShapeOf(g1.e.k), true, a)), r);
    CompOk(env, g2.fs, r);
    assert CodeOk(fs, g2.fs, g2.e, IsFalse) && CodeOk(g2.fs, g3.fs, g3.e, AsValue)
           && RegsOk(fs, g2.fs, g2.e, IsFalse) by {
      OkParts(env, fs, g2.fs, g2.e, IsFalse, Via(MeaningOf(env.cmp, fs, l), a => CondWay(ShapeOf(g1.e.k), true, a)));
      OkParts(env, g2.fs, g3.fs, g3.e, AsValue, MeaningOf(env.cmp, g2.fs, r));
    }
    hide Compiled;
    BetweenOk(fs, g2, r, g3, true);
  }

  /** What is known between the operands of a comparison, and after the second. */
  lemma RelLists(fs: FS, op: RelOp, l: Expr, r: Expr)
    requires Ready(fs, Rel(op, l, r))
    ensures var g1 := Comp(fs, l); var p1 := Exp2RK(g1.fs, g1.e); var g2 := Comp(p1.fs, r);
            && Ready(p1.fs, r) && p1.fs.nactvar == fs.nactvar && Since(fs, Jumps(p1.fs.jpc)) && !HasJumps(p1.e)
            && IsOperand(p1.e.k, p1.o)
            && Since(fs, Touch(g2.fs, g2.e)) && Since(fs, Touch(Exp2RK(g2.fs, g2.e).fs, Exp2RK(g2.fs, g2.e).e))
            && !HasJumps(Exp2RK(g2.fs, g2.e).e)
  {
    var env, g1 := SomeEnv(Comp(fs, Rel(op, l, r)).fs), Comp(fs, l);
    var p1 := Exp2RK(g1.fs, g1.e);
    var g2 := Comp(p1.fs, r);
    var m1 := OperandMeaning(g1.fs, g1.e, MeaningOf(env.cmp, fs, l));
    RKGrows(g1.fs, g1.e); CompGrows(p1.fs, r); CodeCompGrows(g2.fs, op, p1.e, g2.e); SecondGrows(g2.fs, op, p1.e, g2.e);
    hide Exp2RK, Ok, CodeComp, StaysPut;
    CompOk(env, fs, l);
    Exp2RKOk(env, fs, g1.fs, g1.e, MeaningOf(env.cmp, fs, l));
    NextReady(env, fs, p1.fs, p1.e, AsValue, m1, r);
    CompOk(env, p1.fs, r);
    OkParts(env, fs, p1.fs, p1.e, AsValue, m1);
    OkParts(env, p1.fs, g2.fs, g2.e, AsValue, MeaningOf(env.cmp, p1.fs, r));
    OperandStable(g2.fs, p1.e, p1.o);
    Exp2RKOk(env, p1.fs, g2.fs, g2.e, MeaningOf(env.cmp, p1.fs, r));
    var p2 := Exp2RK(g2.fs, g2.e);
    OkParts(env, p1.fs, p2.fs, p2.e, AsValue, OperandMeaning(g2.fs, g2.e, MeaningOf(env.cmp, p1.fs, r)));
    OkIsWellKept(fs, p1.fs, p1.e);
    OkIsWellKept(p1.fs, g2.fs, g2.e);
    OkIsWellKept(p1.fs, p2.fs, p2.e);
    hide Compiled;
    assert |fs.code| <= |p1.fs.code|;
    hide CodeOk, Ready;
    LaterSince(fs.code, fs, p1.fs, Touch(g2.fs, g2.e));
    LaterSince(fs.code, fs, p1.fs, Touch(p2.fs, p2.e));
  }

  lemma SecondGrows(fs: FS, op: RelOp, e1: Exp, e2: Exp)
    ensures Exp2RK(Exp2RK(fs, e1).fs, e2).fs.K <= CodeComp(fs, op, e1, e2).fs.K
  {
    hide Exp2RK;
  }

  // ---------------------------------------------------------------- closing lists

  /** `code_label` twice and `luaK_patchtohere`. */
  lemma LoadsAre(fs: FS, isJump: bool, reg: nat)
    requires isJump ==> fs.jpc == []
    ensures var fs1 := if isJump then fs else EmitJump(fs).fs;
            var fs2 := Emit(Emit(fs1, LoadBool(reg, false, true)), LoadBool(reg, true, false));
            EmitLoads(fs, isJump, reg) == PatchToHere(fs2, if isJump then [] else EmitJump(fs).list)
  {
    var fs1 := if isJump then fs else EmitJump(fs).fs;
    NothingPending(fs1);
    NothingPending(Emit(fs1, LoadBool(reg, false, true)));
    assert fs1.code + [LoadBool(reg, false, true)] + [LoadBool(reg, true, false)]
           == fs1.code + [LoadBool(reg, false, true), LoadBool(reg, true, false)];
  }

  lemma NothingPending(fs: FS)
    requires fs.jpc == []
    ensures DischargeJpc(fs) == fs
  {
    assert PatchList(fs.code, [], |fs.code|, None, |fs.code|) == fs.code;
  }

  /** Patching the second list does not see what patching the first has done. */
  lemma {:induction false} FarSame(code: seq<Instr>, code': seq<Instr>, l: seq<nat>, vtarget: nat, dtarget: nat)
    requires forall j :: j in l ==> CarriesValue(code', j) == CarriesValue(code, j)
    ensures AnyFar(code', l, vtarget, dtarget) == AnyFar(code, l, vtarget, dtarget)
  {
    if l != [] {
      assert forall j :: j in l[1..] ==> j in l;
      assert l[0] in l;
      FarSame(code, code', l[1..], vtarget, dtarget);
    }
  }

  lemma BothPatched(code: seq<Instr>, e: Exp, reg: nat, pf: nat, pt: nat)
    requires AllOpen(code, e.t) && AllOpen(code, e.f) && Apart(e.t, e.f)
    ensures var code1 := PatchList(code, e.f, |code|, Some(reg), pf);
            && PatchList(code1, e.t, |code|, Some(reg), pt) == ExitCode(code, e, reg, pf, pt)
            && AnyFar(code1, e.t, |code|, pt) == AnyFar(code, e.t, |code|, pt)
            && forall j :: j in e.t ==> CarriesValue(code1, j) == CarriesValue(code, j)
  {
    var n, code1 := |code|, PatchList(code, e.f, |code|, Some(reg), pf);
    forall j | j in e.t ensures CarriesValue(code1, j) == CarriesValue(code, j) && code1[j] == Jump(None) {
      if j > 0 { assert code1[j - 1] == PatchAt(code, j - 1, e.f, n, Some(reg), pf); }
      assert code1[j] == PatchAt(code, j, e.f, n, Some(reg), pf);
    }
    FarSame(code, code1, e.t, n, pt);
    var code2 := PatchList(code1, e.t, n, Some(reg), pt);
    forall i | 0 <= i < n ensures code2[i] == ExitAt(code, i, e, n, reg, pf, pt) {
      assert code1[i] == PatchAt(code, i, e.f, n, Some(reg), pf);
      assert code2[i] == PatchAt(code1, i, e.t, n, Some(reg), pt);
    }
    assert code2 == ExitCode(code, e, reg, pf, pt);
  }

  /** Only jumps of the expression, or new ones, are pending after it. */
  lemma CloseTouch(fs: FS, e: Exp, reg: nat)
    ensures forall j :: j in Close(fs, e, reg).fs.jpc && j < |fs.code| ==> j in fs.jpc
  {
  }

  lemma RegTouch(fs: FS, e: Exp, reg: nat)
    ensures forall j :: j in Exp2Reg(fs, e, reg).fs.jpc && j < |fs.code| ==> j in fs.jpc
  {
    var g := Discharge2Reg(fs, e, reg);
    assert |g.fs.code| >= |fs.code| && forall j :: j in g.fs.jpc ==> j in fs.jpc;
    hide Close, Discharge2Reg;
    CloseTouch(g.fs, g.e, reg);
  }

  lemma NextRegTouch(fs: FS, e: Exp)
    ensures forall j :: j in Exp2NextReg(fs, e).fs.jpc && j < |fs.code| ==> j in fs.jpc
  {
    var e1 := DischargeVars(e);
    var fs1 := ReserveReg(FreeExp(fs, e1));
    hide Exp2Reg;
    RegTouch(fs1, e1, fs1.freereg - 1);
  }

  lemma AnyRegTouch(fs: FS, e: Exp)
    requires HasJumps(e)
    ensures forall j :: j in Exp2AnyReg(fs, e).fs.jpc && j < |fs.code| ==> j in fs.jpc
    ensures var e' := Exp2AnyReg(fs, e).e; e'.k.VNonReloc? && !HasJumps(e')
  {
    var e1 := DischargeVars(e);
    hide Exp2Reg, Exp2NextReg;
    CloseEnd(fs, e);
    CloseEnd(fs, e1);
    NextRegTouch(fs, e1);
    if e1.k.VNonReloc? { RegTouch(fs, e1, e1.k.r); }
  }

  lemma ValTouch(fs: FS, e: Exp)
    ensures var g := Exp2Val(fs, e);
            && (forall j :: j in Touch(g.fs, g.e) && j < |fs.code| ==> j in Touch(fs, e))
            && !g.e.k.VLocal? && (WellKept(fs, e) ==> WellKept(g.fs, g.e))
  {
    if HasJumps(e) { AnyRegTouch(fs, e); }
    hide Exp2AnyReg;
  }

  lemma JoinedErr(fs: FS, e: Exp, reg: nat)
    requires Joined(fs, e).err
    ensures Close(fs, e, reg).fs.err
  {
  }

  /** The end of `exp2reg` when some jump carries no value. */
  function WithLoads(fs: FS, e: Exp, isJump: bool, reg: nat): FS {
    var fs2 := EmitLoads(fs, isJump, reg);
    PatchExits(fs2, e, reg, |fs2.code| - 2, |fs2.code| - 1)
  }

  lemma WithLoadsErr(fs: FS, e: Exp, isJump: bool, reg: nat)
    ensures EmitLoads(fs, isJump, reg).err ==> WithLoads(fs, e, isJump, reg).err
  {
  }

  lemma CloseIs(fs: FS, e: Exp, reg: nat)
    ensures var e1, fs1 := Exits(e), Joined(fs, e);
            Close(fs, e, reg) == Gen(if !HasJumps(e1) then fs1
                                     else if NeedValue(fs1.code, e1.t)
                                          || NeedValue(fs1.code, e1.f) then WithLoads(fs1, e1, e.k.VJmp?, reg)
                                     else PatchExits(fs1, e1, reg, 0, 0), Exp(VNonReloc(reg), [], []))
  {
  }

  lemma ExitsApart(fs: FS, e: Exp)
    requires WellKept(fs, e)
    ensures var e1, fs1 := Exits(e), Joined(fs, e);
            && Apart(fs1.jpc, e1.t) && Apart(fs1.jpc, e1.f) && Apart(e1.t, e1.f) && (e.k.VJmp? ==> fs1.jpc == [])
            && e1.f == e.f && forall j :: j in Jumps(e1.t) + Jumps(e1.f) ==> j in Touch(fs, e)
  {
  }

  lemma HeadsDiffer(code: seq<Word>, t: int, f: int, e: Exp)
    requires IsList(code, t, e.t) && IsList(code, f, e.f) && Apart(e.t, e.f)
    ensures t != f <==> HasJumps(e)
  {
    if e.t != [] && e.f != [] { assert e.t[0] in e.t && e.f[0] in e.f; }
  }

  /** The jump over the loads is in no list of the expression. */
  lemma LoadsApart(fs: FS, e: Exp, isJump: bool, reg: nat)
    requires AllOpen(fs.code, e.t) && AllOpen(fs.code, e.f) && (isJump ==> fs.jpc == []) && Apart(fs.jpc, e.t)
             && Apart(fs.jpc, e.f)
    ensures var fs2 := EmitLoads(fs, isJump, reg); Apart(fs2.jpc, e.t) && Apart(fs2.jpc, e.f)
  {
  }

  lemma NoneNeeded(code: seq<Instr>, e: Exp)
    requires !NeedValue(code, e.t) && !NeedValue(code, e.f)
    ensures SameTargets(code, e.t, NO_JUMP, 0) && SameTargets(code, e.f, NO_JUMP, 0)
  {
    AllCarry(code, e.t);
    AllCarry(code, e.f);
  }

  lemma DischargedTouch(fs: FS, e: Exp, reg: nat)
    requires WellKept(fs, e)
    ensures var g := Discharge2Reg(fs, e, reg); forall j :: j in Touch(g.fs, g.e) ==> j in Touch(fs, e)
  {
  }

  /** What `exp2reg` makes of the descriptor. */
  lemma CloseEnd(fs: FS, e: Exp)
    ensures var e1 := DischargeVars(e); var fs1 := ReserveReg(FreeExp(fs, e1));
            fs1.freereg > 0 && Exp2NextReg(fs, e).e == Exp(VNonReloc(fs1.freereg - 1), [], [])
    ensures var k := DischargeVars(e).k;
            k.VNonReloc? && HasJumps(e) && k.r >= fs.nactvar ==> Exp2AnyReg(fs, e).e == Exp(k, [], [])
  {
    hide Discharge2Reg;
  }

  // ---------------------------------------------------------------- conditions

  function TrueJump(fs: FS, e: Exp): Jumped {
    match e.k
    case VK(_) => Jumped(fs, [])
    case VKNum(_) => Jumped(fs, [])
    case VTrue => Jumped(fs, [])
    case VFalse => EmitJump(fs)
    case VJmp(pc) => Jumped(InvertJump(fs, pc), [pc])
    case _ => JumpOnCond(fs, e, false)
  }

  function FalseJump(fs: FS, e: Exp): Jumped {
    match e.k
    case VFalse => Jumped(fs, [])
    case VTrue => EmitJump(fs)
    case VJmp(pc) => Jumped(fs, [pc])
    case _ => JumpOnCond(fs, e, true)
  }

  lemma GoIfTrueIs(fs: FS, e: Exp)
    ensures var e1 := DischargeVars(e); var j := TrueJump(fs, e1);
            GoIfTrue(fs, e) == Gen(PatchToHere(Linked(j.fs, e1.f, j.list), e1.t), e1.(t := [], f := e1.f + j.list))
  {
    hide JumpOnCond;
  }

  lemma GoIfFalseIs(fs: FS, e: Exp)
    ensures var e1 := DischargeVars(e); var j := FalseJump(fs, e1);
            GoIfFalse(fs, e) == Gen(PatchToHere(Linked(j.fs, e1.t, j.list), e1.f), e1.(f := [], t := e1.t + j.list))
  {
    hide JumpOnCond;
  }

  /** `discharge2anyreg` leaves a register. */
  lemma AnyRegIs(fs: FS, e: Exp)
    requires !e.k.VJmp? && !e.k.VLocal? && (e.k.VReloc? ==> e.k.pc < |fs.code|)
    ensures var g := Discharge2AnyReg(fs, e);
            g.e.k.VNonReloc? && g.e.t == e.t && g.e.f == e.f && (forall j :: j in g.fs.jpc ==> j in fs.jpc)
  {
  }

  /** Nothing is pending here once a jump has been generated, and the jump is in no other list. */
  ghost predicate JumpApart(j: Jumped, fs: FS, e: Exp) {
    && (forall i :: i in j.fs.jpc ==> i in fs.jpc)
    && Apart(e.f, j.list) && Apart(e.t, j.list) && Apart(j.list, e.f) && Apart(j.list, e.t) && Apart(j.fs.jpc, j.list)
  }

  lemma TrueJumpApart(fs: FS, e: Exp)
    requires WellKept(fs, e) && !e.k.VLocal? && AllOpen(fs.code, e.t) && AllOpen(fs.code, e.f)
    ensures JumpApart(TrueJump(fs, e), fs, e)
  {
    if !e.k.VJmp? { JumpOnCondApart(fs, e, false); }
    hide JumpOnCond;
  }

  lemma FalseJumpApart(fs: FS, e: Exp)
    requires WellKept(fs, e) && !e.k.VLocal? && AllOpen(fs.code, e.t) && AllOpen(fs.code, e.f)
    ensures JumpApart(FalseJump(fs, e), fs, e)
  {
    if !e.k.VJmp? { JumpOnCondApart(fs, e, true); }
    hide JumpOnCond;
  }

  lemma JumpOnCondApart(fs: FS, e: Exp, cond: bool)
    requires WellKept(fs, e) && !e.k.VJmp? && !e.k.VLocal? && AllOpen(fs.code, e.t) && AllOpen(fs.code, e.f)
    ensures JumpApart(JumpOnCond(fs, e, cond), fs, e)
  {
    var j := JumpOnCond(fs, e, cond);
    assert j.fs.jpc == [] && exists pc: nat :: j.list == [pc] && pc >= |fs.code|;
  }

  /** `codenot` before the lists change places. */
  function Negated(fs: FS, e1: Exp): Gen {
    match e1.k
    case VFalse => Gen(fs, e1.(k := VTrue))
    case VK(_) => Gen(fs, e1.(k := VFalse))
    case VKNum(_) => Gen(fs, e1.(k := VFalse))
    case VTrue => Gen(fs, e1.(k := VFalse))
    case VJmp(pc) => Gen(InvertJump(fs, pc), e1)
    case _ =>
      var d := Discharge2AnyReg(fs, e1);
      var fs1 := Emit(FreeExp(d.fs, d.e), NotI(0, if d.e.k.VNonReloc? then d.e.k.r else 0));
      Gen(fs1, d.e.(k := VReloc(|fs1.code| - 1)))
  }

  lemma CodeNotIs(fs: FS, e: Exp)
    ensures var g := Negated(fs, DischargeVars(e));
            CodeNot(fs, e) == Gen(g.fs.(code := Demote(Demote(g.fs.code, g.e.t), g.e.f)), g.e.(t := g.e.f, f := g.e.t))
  {
    hide Discharge2AnyReg;
  }

  lemma NegatedIs(fs: FS, e: Exp)
    requires e.k.VReloc? || e.k.VNonReloc?
    ensures var d := Discharge2AnyReg(fs, e);
            var fs1 := Emit(FreeExp(d.fs, d.e), NotI(0, if d.e.k.VNonReloc? then d.e.k.r else 0));
            && Negated(fs, e) == Gen(fs1, d.e.(k := VReloc(|d.fs.code|)))
            && (d.fs.err ==> Negated(fs, e).fs.err)
            && |FreeExp(d.fs, d.e).code| == |d.fs.code| && FreeExp(d.fs, d.e).jpc == d.fs.jpc
            && FreeExp(d.fs, d.e).code == d.fs.code
  {
    hide Discharge2AnyReg;
  }

  // ---------------------------------------------------------------- comparisons

  lemma ComparedIs(fs: FS, op: RelOp, e1: Exp, o: RK, e2: Exp)
    requires Exp2RK(fs, e1) == Placed(fs, e1, o)
    ensures var p := Exp2RK(fs, e2);
            var fs1 := FreeExp(FreeExp(p.fs, p.e), e1);
            && CodeComp(fs, op, e1, e2) == Gen(CondJump(fs1, CmpInstr(op, o, p.o)).fs, e1.(k := VJmp(|fs1.code| + 1)))
            && (p.fs.err ==> CodeComp(fs, op, e1, e2).fs.err) && fs1.code == p.fs.code && fs1.jpc == p.fs.jpc
            && CondJump(fs1, CmpInstr(op, o, p.o)).list == [|fs1.code| + 1]
  {
    hide Exp2RK;
  }

  lemma NoExits(code: seq<Word>, abs: seq<Instr>, e: Exp, pc: nat)
    requires e == Exp(VJmp(pc), [], []) && IsOpenList(code, abs, pc, [pc])
    ensures Heads(code, abs, ExpDesc(VJmp(pc), NO_JUMP, NO_JUMP), e)
  {
  }

  lemma OperandHeads(code: seq<Word>, abs: seq<Instr>, e: ExpDesc, E: Exp)
    requires Heads(code, abs, e, E) && !HasJumps(E)
    ensures e == ExpDesc(E.k, NO_JUMP, NO_JUMP)
  {
  }

  lemma NoneHeads(code: seq<Word>, abs: seq<Instr>, e: ExpDesc, E: Exp)
    requires e == ExpDesc(E.k, NO_JUMP, NO_JUMP) && !HasJumps(E) && !E.k.VJmp?
    ensures Heads(code, abs, e, E)
  {
  }

  lemma ReadyParts(fs: FS, x: Expr)
    requires Ready(fs, x)
    ensures match x
            case Not(y) => Ready(fs, y)
            case And(l, r) => Ready(fs, l)
            case Or(l, r) => Ready(fs, l)
            case Rel(_, l, r) => Ready(fs, l)
            case _ => true
  {
  }

  lemma RKIs(fs: FS, e: Exp)
    ensures var g := Exp2Val(fs, e); Exp2RK(fs, e) == Operate(g.fs, g.e)
  {
    hide Exp2Val, Operate;
  }

  // ---------------------------------------------------------------- operators

  lemma CompNotIs(fs: FS, y: Expr)
    ensures var g := Comp(fs, y);
            Comp(fs, Not(y)) == CodeNot(g.fs, g.e) && (g.fs.err ==> Comp(fs, Not(y)).fs.err)
  {
    hide GoIfTrue, GoIfFalse, CodeNot, CodeComp, Exp2RK, Linked, DischargeVars;
    var g := Comp(fs, y);
    if g.fs.err { CodeNotErr(g.fs, g.e); }
  }

  lemma AndErr(fs: FS, l: Expr, r: Expr)
    ensures var g1 := Comp(fs, l); var g2 := GoIfTrue(g1.fs, g1.e); var g3 := Comp(g2.fs, r);
            g1.fs.err || g2.fs.err || g3.fs.err ==> Comp(fs, And(l, r)).fs.err
  {
    var g1 := Comp(fs, l);
    var g2 := GoIfTrue(g1.fs, g1.e);
    CompAndIs(fs, l, r);
    hide Comp;
    if g1.fs.err { GoIfTrueErr(g1.fs, g1.e); }
    if g2.fs.err { CompErr(g2.fs, r); }
    hide GoIfTrue;
  }

  lemma OrErr(fs: FS, l: Expr, r: Expr)
    ensures var g1 := Comp(fs, l); var g2 := GoIfFalse(g1.fs, g1.e); var g3 := Comp(g2.fs, r);
            g1.fs.err || g2.fs.err || g3.fs.err ==> Comp(fs, Or(l, r)).fs.err
  {
    var g1 := Comp(fs, l);
    var g2 := GoIfFalse(g1.fs, g1.e);
    CompOrIs(fs, l, r);
    hide Comp;
    if g1.fs.err { GoIfFalseErr(g1.fs, g1.e); }
    if g2.fs.err { CompErr(g2.fs, r); }
    hide GoIfFalse;
  }

  lemma RelErr(fs: FS, op: RelOp, l: Expr, r: Expr)
    ensures var g1 := Comp(fs, l); var p1 := Exp2RK(g1.fs, g1.e); var g2 := Comp(p1.fs, r);
            g1.fs.err || p1.fs.err || g2.fs.err ==> Comp(fs, Rel(op, l, r)).fs.err
  {
    var g1 := Comp(fs, l);
    var p1 := Exp2RK(g1.fs, g1.e);
    var g2 := Comp(p1.fs, r);
    CompRelIs(fs, op, l, r);
    hide Comp, Exp2RK, CodeComp;
    if g1.fs.err { RKErr(g1.fs, g1.e); }
    if p1.fs.err { CompErr(p1.fs, r); }
    if g2.fs.err { CodeCompErr(g2.fs, op, p1.e, g2.e); }
  }

  // ---------------------------------------------------------------- running the stored code

  /** Runs stored words (`dojump` adds the sBx field to the address of the next instruction). */
  ghost function Run(env: Env, code: seq<Word>, pc: nat, R: Regs): Outcome
    decreases |code| - pc
  {
    if pc > |code| then Stuck
    else if pc == |code| then Reach(R)
    else
      match code[pc]
      case Jmp(sbx) => if sbx < 0 then Stuck else Run(env, code, pc + 1 + sbx, R)
      case TSet(a, b, c) => if Truthy(R(b)) != c then Run(env, code, pc + 2, R)
        else Run(env, code, pc + 1, Set(R, a, R(b)))
      case Plain(i) =>
        match i
        case Move(a, b) => Run(env, code, pc + 1, Set(R, a, R(b)))
        case LoadK(a, bx) => Run(env, code, pc + 1, Set(R, a, Operand(env, Konst(bx), R)))
        case LoadBool(a, v, skip) => Run(env, code, if skip then pc + 2 else pc + 1, Set(R, a, Bool(v)))
        case NotI(a, b) => Run(env, code, pc + 1, Set(R, a, Negate(R(b))))
        case Cmp(op, accept, x, y) =>
          (match env.cmp(op, Operand(env, x, R), Operand(env, y, R))
           case None => Error
           case Some(r) => Run(env, code, if r == accept then pc + 1 else pc + 2, R))
        case Test(b, c) => Run(env, code, if Truthy(R(b)) == c then pc + 1 else pc + 2, R)
        case _ => Stuck
  }

  /** A run that meets no open jump is the same in the stored code. */
  lemma {:induction false} StoredRun(env: Env, words: seq<Word>, code: seq<Instr>, pc: nat, R: Regs)
    requires StoresAll(words, code)
    requires var o := Exec(env, code, pc, R); o.Reach? || o.Error?
    ensures Run(env, words, pc, R) == Exec(env, code, pc, R)
    decreases |code| - pc
  {
    if pc < |code| {
      assert Stores(words[pc], code[pc], pc);
      match code[pc]
      case Move(a, b) => StoredRun(env, words, code, pc + 1, Set(R, a, R(b)));
      case LoadK(a, bx) => StoredRun(env, words, code, pc + 1, Set(R, a, Operand(env, Konst(bx), R)));
      case LoadBool(a, v, skip) => StoredRun(env, words, code, if skip then pc + 2 else pc + 1, Set(R, a, Bool(v)));
      case NotI(a, b) => StoredRun(env, words, code, pc + 1, Set(R, a, Negate(R(b))));
      case Jump(dest) => StoredRun(env, words, code, dest.value, R);
      case Cmp(op, accept, x, y) =>
        var r := env.cmp(op, Operand(env, x, R), Operand(env, y, R));
        if r.Some? { StoredRun(env, words, code, if r.value == accept then pc + 1 else pc + 2, R); }
      case Test(b, c) => StoredRun(env, words, code, if Truthy(R(b)) == c then pc + 1 else pc + 2, R);
      case TestSet(to, b, c) =>
        if Truthy(R(b)) != c { StoredRun(env, words, code, pc + 2, R); }
        else { StoredRun(env, words, code, pc + 1, Set(R, to.value, R(b))); }
    }
  }
}
