/** Operands and comparisons. */
module CodeCompare {
  import opened Wrappers
  import opened CodeMachine
  import opened CodeGen
  import opened CodeFlow
  import opened CodeState
  import opened CodeSteps
  import opened CodeConditions
  import opened CodeClose
  import opened CodeSequel

  // ---------------------------------------------------------------- operands

  /** The operand that stands for a value of this kind. */
  predicate IsOperand(k: Kind, o: RK) {
    match k
    case VK(i) => o == Konst(i) && i <= MAXINDEXRK
    case VNonReloc(r) => o == Reg(r)
    case _ => false
  }

  lemma NextRegIs(fs0: FS, fs: FS, e: Exp)
    requires RegsOk(fs0, fs, e, AsValue)
    ensures var e1 := DischargeVars(e); var fs1 := ReserveReg(FreeExp(fs, e1));
            fs1.freereg == fs0.freereg + 1 && fs1.nactvar == fs.nactvar
              && Exp2NextReg(fs, e) == Exp2Reg(fs1, e1, fs0.freereg)
  {
    hide Exp2Reg;
  }

  lemma Exp2NextRegOk(env: Env, fs0: FS, fs: FS, e: Exp, m: Meaning)
    requires Ok(env, fs0, fs, e, AsValue, m) && Exp2NextReg(fs, e).fs.K <= env.K
    requires e.k.VNonReloc? ==> e.k.r < fs.nactvar
    ensures var g := Exp2NextReg(fs, e);
            Ok(env, fs0, g.fs, g.e, AsValue, Via(m, Closed)) && g.e == Exp(VNonReloc(fs0.freereg), [], [])
    ensures Exp2NextReg(fs, e).fs.freereg == fs0.freereg + 1
  {
    var e1 := DischargeVars(e);
    var fs1 := ReserveReg(FreeExp(fs, e1));
    NextRegIs(fs0, fs, e);
    assert e1.k != VNonReloc(fs0.freereg);
    hide Sound;
    DischargeVarsSound(env, fs0, fs, e, m);
    SameCode(env, fs0, fs, fs1, e1, e1, AsValue, m);
    Exp2RegSound(env, fs0, fs1, e1, fs0.freereg, m);
    var g := Discharge2Reg(fs1, e1, fs0.freereg);
    Discharge2RegKeeps(fs1, e1, fs0.freereg);
    CloseKeeps(g.fs, g.e, fs0.freereg);
  }

  lemma Exp2AnyRegOk(env: Env, fs0: FS, fs: FS, e: Exp, m: Meaning)
    requires Ok(env, fs0, fs, e, AsValue, m) && Exp2AnyReg(fs, e).fs.K <= env.K
    ensures var (g, k) := (Exp2AnyReg(fs, e), DischargeVars(e).k);
            && Ok(env, fs0, g.fs, g.e, AsValue, if k.VNonReloc? && !HasJumps(e) then m else Via(m, Closed))
            && !HasJumps(g.e) && g.e.k.VNonReloc?
            && (HasJumps(e) ==> g.e.k.r >= fs0.nactvar)
  {
    var e1 := DischargeVars(e);
    DischargeVarsOk(env, fs0, fs, e, m);
    hide Sound;
    if !(e1.k.VNonReloc? && !HasJumps(e1)) {
      assert e1.k.VNonReloc? ==> e1.k.r < fs.nactvar;
      assert Exp2AnyReg(fs, e) == Exp2NextReg(fs, e1);
      hide Exp2AnyReg, Exp2NextReg;
      Exp2NextRegOk(env, fs0, fs, e1, m);
    }
  }

  lemma ConstantOk(env: Env, fs0: FS, fs: FS, e: Exp, m: Meaning)
    requires Ok(env, fs0, fs, e, AsValue, m) && ConstantOf(e.k).Some?
    ensures var a := AddK(fs, ConstantOf(e.k).value); Ok(env, fs0, a.fs, e.(k := VK(a.i)), AsValue, m)
  {
    var v := AddK(fs, ConstantOf(e.k).value);
    var e' := e.(k := VK(v.i));
    AddKSound(env, fs0, fs, e, ConstantOf(e.k).value, m);
    forall q, R | Entry(fs0, q)
      ensures Yields(env, v.fs, e', AsValue, fs0.freereg, WayFrom(m, fs0, q, R), R,
              Take(env, Body(v.fs, e', AsValue), q, R))
    {
      assert Yields(env, v.fs, e, AsValue, fs0.freereg, WayFrom(m, fs0, q, R), R,
             Take(env, Body(v.fs, e, AsValue), q, R));
    }
  }

  ghost function OperandMeaning(fs: FS, e: Exp, m: Meaning): Meaning { Via(m, a => OperandWay(StaysPut(fs, e), a)) }

  lemma OperandClosed(fs: FS, e: Exp, m: Meaning)
    ensures StaysPut(fs, e) ==> SameWays(m, OperandMeaning(fs, e, m))
    ensures !StaysPut(fs, e) ==> SameWays(Via(m, Closed), OperandMeaning(fs, e, m))
  {
  }

  /** `exp2RK` of an expression without jumps. */
  lemma OperateOk(env: Env, fs0: FS, fs: FS, e: Exp, m: Meaning)
    requires Ok(env, fs0, fs, e, AsValue, m) && Operate(fs, e).fs.K <= env.K && !HasJumps(e) && !e.k.VLocal?
    ensures var p := Operate(fs, e);
            Ok(env, fs0, p.fs, p.e, AsValue, if StaysPut(fs, e) then m else Via(m, Closed)) && !HasJumps(p.e)
            && IsOperand(p.e.k, p.o)
  {
    hide Sound;
    if ConstantOf(e.k).Some? && |fs.K| <= MAXINDEXRK {
      ConstantOk(env, fs0, fs, e, m);
    } else if !(e.k.VK? && e.k.i <= MAXINDEXRK) {
      Exp2AnyRegOk(env, fs0, fs, e, m);
    }
  }

  lemma Exp2RKOk(env: Env, fs0: FS, fs: FS, e: Exp, m: Meaning)
    requires Ok(env, fs0, fs, e, AsValue, m) && Exp2RK(fs, e).fs.K <= env.K
    ensures var p := Exp2RK(fs, e);
            Ok(env, fs0, p.fs, p.e, AsValue, OperandMeaning(fs, e, m)) && !HasJumps(p.e) && IsOperand(p.e.k, p.o)
  {
    var g, p := Exp2Val(fs, e), Exp2RK(fs, e);
    OperateGrows(g.fs, g.e);
    OperandClosed(fs, e, m);
    hide Sound;
    if HasJumps(e) {
      Exp2AnyRegOk(env, fs0, fs, e, m);
      assert p == Placed(g.fs, g.e, Reg(g.e.k.r));
      SameMeaning(env, fs0, p.fs, p.e, AsValue, Via(m, Closed), OperandMeaning(fs, e, m));
    } else {
      DischargeVarsOk(env, fs0, fs, e, m);
      assert StaysPut(g.fs, g.e) == StaysPut(fs, e);
      OperateOk(env, fs0, g.fs, g.e, m);
      SameMeaning(env, fs0, p.fs, p.e, AsValue,
        if StaysPut(fs, e) then m else Via(m, Closed), OperandMeaning(fs, e, m));
    }
  }

  lemma OperateGrows(fs: FS, e: Exp)
    ensures fs.K <= Operate(fs, e).fs.K
  {
    AnyRegGrows(fs, e);
    hide Exp2AnyReg;
  }

  lemma AnyRegGrows(fs: FS, e: Exp)
    ensures fs.K <= Exp2AnyReg(fs, e).fs.K
  {
    var e1 := DischargeVars(e);
    var fs1 := ReserveReg(FreeExp(fs, e1));
    hide Exp2Reg;
    RegGrows(fs1, e1, if fs1.freereg > 0 then fs1.freereg - 1 else 0);
    RegGrows(fs, e1, if e1.k.VNonReloc? then e1.k.r else 0);
  }

  lemma RegGrows(fs: FS, e: Exp, reg: nat)
    ensures fs.K <= Exp2Reg(fs, e, reg).fs.K
  {
    var g := Discharge2Reg(fs, e, reg);
    CloseKeeps(g.fs, g.e, reg);
    hide Close;
  }

  // ---------------------------------------------------------------- comparisons

  /** Both operands are where the descriptors say, and have the values of the ways. */
  ghost predicate BothAt(env: Env, o1: RK, o2: RK, base: nat, a1: Option<Way>, a2: Option<Way>, R: Regs, R': Regs) {
    && Agree(R, R', base, -1)
    && a1.Some? && a2.Some? && a1.value.w == Operand(env, o1, R') && a2.value.w == Operand(env, o2, R')
  }

  /** What running the code of both operands can lead to. */
  ghost predicate Paired(env: Env, fs: FS, o1: RK, o2: RK, base: nat, a1: Option<Way>, a2: Option<Way>, R: Regs,
                         o: Outcome) {
    match o
    case Reach(R') => BothAt(env, o1, o2, base, a1, a2, R, R')
    case Exit(j, R', valued) => j in fs.jpc && valued == CarriesValue(fs.code, j)
      && BothAt(env, o1, o2, base, a1, a2, R, R')
    case Error => a1.None? || a2.None?
    case Stuck => false
  }

  /** The states after the first operand (`fs1`) and after the second (`fs2`). */
  ghost predicate Operands(env: Env, fs0: FS, fs1: FS, e1: Exp, o1: RK, fs2: FS, e2: Exp, o2: RK, m1: Meaning,
                           m2: Meaning) {
    && Ok(env, fs0, fs1, e1, AsValue, m1) && Ok(env, fs1, fs2, e2, AsValue, m2)
    && !HasJumps(e1) && !HasJumps(e2) && IsOperand(e1.k, o1) && IsOperand(e2.k, o2)
    && Locally(m2, fs0.freereg) && fs2.K <= env.K
  }

  lemma OperandValue(env: Env, fs: FS, k: Kind, o: RK, base: nat, a: Option<Way>, c: Option<Value>, R: Regs, R': Regs)
    requires KindOk(env, fs, k, base, a, c, R, R') && IsOperand(k, o) && fs.K <= env.K
    ensures Arrived(base, a, c, R, R', Operand(env, o, R'))
  {
  }

  /** A register or constant that holds the first operand is not touched by the code of the second. */
  lemma BothHold(env: Env, fs1: FS, k1: Kind, o1: RK, fs2: FS, k2: Kind, o2: RK, base: nat, a1: Option<Way>,
                 c1: Option<Value>, a2: Option<Way>, c2: Option<Value>, R: Regs, R': Regs, R'': Regs)
    requires KindOk(env, fs1, k1, base, a1, c1, R, R') && IsOperand(k1, o1) && fs1.K <= env.K
    requires KindOk(env, fs2, k2, fs1.freereg, a2, c2, R', R'') && IsOperand(k2, o2) && fs2.K <= env.K
    requires base <= fs1.freereg && (k1.VNonReloc? ==> k1.r < fs1.freereg)
    ensures BothAt(env, o1, o2, base, a1, a2, R, R'')
  {
    OperandValue(env, fs1, k1, o1, base, a1, c1, R, R');
    OperandValue(env, fs2, k2, o2, fs1.freereg, a2, c2, R', R'');
    assert Operand(env, o1, R'') == Operand(env, o1, R');
  }

  /** The second operand, run after the first has fallen through. */
  lemma SecondOperand(env: Env, fs0: FS, fs1: FS, e1: Exp, o1: RK, fs2: FS, e2: Exp, o2: RK, m1: Meaning, m2: Meaning,
                      a1: Option<Way>, c: Option<Value>, R: Regs, R': Regs, q: nat)
    requires Operands(env, fs0, fs1, e1, o1, fs2, e2, o2, m1, m2)
    requires KindOk(env, fs1, e1.k, fs0.freereg, a1, c, R, R')
    requires Entry(fs1, q) && c == Carry(fs1.code, q, R')
    ensures Paired(env, fs2, o1, o2, fs0.freereg, a1, m2(R, CarryOf(a1)), R, Take(env, fs2.code, q, R'))
  {
    var o := Take(env, fs2.code, q, R');
    OperandValue(env, fs1, e1.k, o1, fs0.freereg, a1, c, R, R');
    assert CarryOf(a1) == c && m2(R', c) == m2(R, c);
    assert Yields(env, fs2, e2, AsValue, fs1.freereg, WayFrom(m2, fs1, q, R'), R', o);
    match o {
      case Reach(R'') => BothHold(env, fs1, e1.k, o1, fs2, e2.k, o2, fs0.freereg, a1, c, m2(R', c), None, R, R', R'');
      case Exit(j, R'', _) => BothHold(env, fs1, e1.k, o1, fs2, e2.k, o2, fs0.freereg, a1, c, m2(R', c),
        Carry(fs2.code, j, R''), R, R', R'');
      case _ =>
    }
  }

  lemma OperandsRun(env: Env, fs0: FS, fs1: FS, e1: Exp, o1: RK, fs2: FS, e2: Exp, o2: RK, m1: Meaning, m2: Meaning,
                    q: nat, R: Regs)
    requires Operands(env, fs0, fs1, e1, o1, fs2, e2, o2, m1, m2) && Entry(fs0, q)
    ensures var a1 := WayFrom(m1, fs0, q, R);
            Paired(env, fs2, o1, o2, fs0.freereg, a1, m2(R, CarryOf(a1)), R, Take(env, fs2.code, q, R))
  {
    var a1, o := WayFrom(m1, fs0, q, R), Take(env, fs1.code, q, R);
    assert Yields(env, fs1, e1, AsValue, fs0.freereg, a1, R, o);
    YieldsProper(env, fs0, fs1, e1, AsValue, fs0.freereg, a1, R, o);
    ComposeTake(env, fs1.code, fs2.code, q, R);
    match o {
      case Reach(R') =>
        TakeStart(env, fs1.code, fs2.code, R');
        SecondOperand(env, fs0, fs1, e1, o1, fs2, e2, o2, m1, m2, a1, None, R, R', |fs1.code|);
      case Exit(j, R', _) =>
        SecondOperand(env, fs0, fs1, e1, o1, fs2, e2, o2, m1, m2, a1, Carry(fs1.code, j, R'), R, R', j);
      case _ =>
    }
  }

  lemma OperandsCode(fs0: FS, fs1: FS, e1: Exp, fs2: FS, e2: Exp)
    requires CodeOk(fs0, fs1, e1, AsValue) && CodeOk(fs1, fs2, e2, AsValue)
    requires !HasJumps(e1) && !HasJumps(e2) && !Unfinished(e1.k) && !Unfinished(e2.k)
    ensures CodeOk(fs0, fs2, e2, AsValue)
  {
    LaterTwice(fs0.code, Jumps(fs0.jpc), fs1.code, Jumps(fs1.jpc), fs2.code);
  }

  lemma CmpInstrMeans(env: Env, op: RelOp, o1: RK, o2: RK, base: nat, a1: Option<Way>, a2: Option<Way>, R: Regs,
                      R': Regs)
    requires BothAt(env, o1, o2, base, a1, a2, R, R')
    ensures var i := CmpInstr(op, o1, o2);
            match env.cmp(i.op, Operand(env, i.x, R'), Operand(env, i.y, R'))
            case None => CompareWays(env.cmp, op, a1, a2) == None
            case Some(v) => Arrived(base, CompareWays(env.cmp, op, a1, a2), None, R, R', Bool(v == i.accept))
  {
  }

  lemma CompareCode(fs0: FS, fs: FS, e: Exp, i: Instr)
    requires CodeOk(fs0, fs, e, AsValue) && !HasJumps(e) && !Unfinished(e.k) && i.Cmp?
    ensures var (j, n) := (CondJump(fs, i), |fs.code|); var e' := Exp(VJmp(n + 1), [], []);
            && CodeOk(fs0, j.fs, e', AsValue) && Continues(fs.code, fs.jpc, Body(j.fs, e', AsValue))
            && |Body(j.fs, e', AsValue)| == n
            && |j.fs.code| == n + 2 && j.fs.code[n] == i && j.fs.jpc == [] && j.fs.freereg == fs.freereg
            && j.fs.nactvar == fs.nactvar
  {
    var j, n := CondJump(fs, i), |fs.code|;
    var e' := Exp(VJmp(n + 1), [], []);
    EmitContinues(fs, i);
    assert j.fs.code == PatchList(fs.code, fs.jpc, n, None, n) + [i] + [Jump(None)];
    assert Body(j.fs, e', AsValue) == PatchList(fs.code, fs.jpc, n, None, n);
    Appended(fs0, fs, e, AsValue, j.fs, e', AsValue);
  }

  lemma CompareOutcome(env: Env, fs: FS, fs': FS, op: RelOp, o1: RK, o2: RK, base: nat, a1: Option<Way>,
                       a2: Option<Way>, R: Regs, body': seq<Instr>, o: Outcome)
    requires Paired(env, fs, o1, o2, base, a1, a2, R, o) && |body'| == |fs.code|
    requires |fs'.code| == |fs.code| + 2 && fs'.code[|fs.code|] == CmpInstr(op, o1, o2)
    ensures Yields(env, fs', Exp(VJmp(|fs.code| + 1), [], []), AsValue, base, CompareWays(env.cmp, op, a1, a2), R,
            FallTo(env, body', |fs.code|, fs.jpc, o))
  {
    if o.Reach? || o.Exit? {
      CmpInstrMeans(env, op, o1, o2, base, a1, a2, R, o.R);
      assert Exec(env, body', |fs.code|, o.R) == Reach(o.R);
    }
  }

  /** The meaning of a comparison whose operands mean `m1` and `m2`. */
  ghost function RelMeaning(cmp: Comparison, op: RelOp, m1: Meaning, m2: Meaning): Meaning {
    (R, c) => CompareWays(cmp, op, m1(R, c), m2(R, CarryOf(m1(R, c))))
  }

  lemma CompareSound(env: Env, fs0: FS, fs: FS, e: Exp, op: RelOp, o1: RK, o2: RK, m1: Meaning, m2: Meaning)
    requires CodeOk(fs0, fs, e, AsValue) && !HasJumps(e) && !Unfinished(e.k)
    requires forall q, R :: Entry(fs0, q) ==>
               var a1 := WayFrom(m1, fs0, q, R);
                 Paired(env, fs, o1, o2, fs0.freereg, a1, m2(R, CarryOf(a1)), R, Take(env, fs.code, q, R))
    ensures var j := CondJump(fs, CmpInstr(op, o1, o2));
            Sound(env, fs0, j.fs, Exp(VJmp(|fs.code| + 1), [], []), AsValue, RelMeaning(env.cmp, op, m1, m2))
  {
    var i, n := CmpInstr(op, o1, o2), |fs.code|;
    var j, e', m := CondJump(fs, i), Exp(VJmp(n + 1), [], []), RelMeaning(env.cmp, op, m1, m2);
    var body' := Body(j.fs, e', AsValue);
    CompareCode(fs0, fs, e, i);
    forall q, R | Entry(fs0, q)
      ensures Yields(env, j.fs, e', AsValue, fs0.freereg, WayFrom(m, fs0, q, R), R, Take(env, body', q, R))
    {
      var a1, o := WayFrom(m1, fs0, q, R), Take(env, fs.code, q, R);
      assert Paired(env, fs, o1, o2, fs0.freereg, a1, m2(R, CarryOf(a1)), R, o);
      CompareRun(env, fs0, fs, e, j.fs, e', op, o1, o2, a1, m2(R, CarryOf(a1)), R, body', q);
    }
  }

  lemma CompareRun(env: Env, fs0: FS, fs: FS, e: Exp, fs': FS, e': Exp, op: RelOp, o1: RK, o2: RK, a1: Option<Way>,
                   a2: Option<Way>, R: Regs, body': seq<Instr>, q: nat)
    requires CodeOk(fs0, fs, e, AsValue) && CodeOk(fs0, fs', e', AsValue) && !Unfinished(e.k) && q <= |fs0.code|
    requires body' == Body(fs', e', AsValue) && Continues(fs.code, fs.jpc, body') && |body'| == |fs.code|
             && e' == Exp(VJmp(|fs.code| + 1), [], [])
    requires |fs'.code| == |fs.code| + 2 && fs'.code[|fs.code|] == CmpInstr(op, o1, o2)
    requires Paired(env, fs, o1, o2, fs0.freereg, a1, a2, R, Take(env, fs.code, q, R))
    ensures Yields(env, fs', e', AsValue, fs0.freereg, CompareWays(env.cmp, op, a1, a2), R, Take(env, body', q, R))
  {
    Continue(env, fs.code, fs.jpc, body', q, R);
    CompareOutcome(env, fs, fs', op, o1, o2, fs0.freereg, a1, a2, R, body', Take(env, fs.code, q, R));
  }

  lemma OperandStable(fs: FS, e: Exp, o: RK)
    requires IsOperand(e.k, o) && !HasJumps(e)
    ensures Exp2RK(fs, e) == Placed(fs, e, o)
  {
  }

  lemma CompareBothSound(env: Env, fs0: FS, p1: Placed, p2: Placed, fs1: FS, op: RelOp, m1: Meaning, m2: Meaning)
    requires Operands(env, fs0, p1.fs, p1.e, p1.o, p2.fs, p2.e, p2.o, m1, m2)
    requires fs1 == p2.fs.(freereg := fs1.freereg)
    ensures var j := CondJump(fs1, CmpInstr(op, p1.o, p2.o));
            Sound(env, fs0, j.fs, Exp(VJmp(|fs1.code| + 1), [], []), AsValue, RelMeaning(env.cmp, op, m1, m2))
    ensures CodeOk(fs0, fs1, p2.e, AsValue)
  {
    forall q, R | Entry(fs0, q)
      ensures var a1 := WayFrom(m1, fs0, q, R);
              Paired(env, fs1, p1.o, p2.o, fs0.freereg, a1, m2(R, CarryOf(a1)), R, Take(env, fs1.code, q, R))
    {
      OperandsRun(env, fs0, p1.fs, p1.e, p1.o, p2.fs, p2.e, p2.o, m1, m2, q, R);
    }
    OperandsCode(fs0, p1.fs, p1.e, p2.fs, p2.e);
    CodeSame(fs0, p2.fs, fs1, p2.e, p2.e, AsValue);
    hide Operands, CodeOk, Paired, WayFrom;
    CompareSound(env, fs0, fs1, p2.e, op, p1.o, p2.o, m1, m2);
  }

  lemma FreedBoth(fs0: FS, p1: Placed, p2: Placed)
    requires RegsOk(fs0, p1.fs, p1.e, AsValue) && RegsOk(p1.fs, p2.fs, p2.e, AsValue)
    requires IsOperand(p1.e.k, p1.o) && IsOperand(p2.e.k, p2.o)
    ensures var fs1 := FreeExp(FreeExp(p2.fs, p2.e), p1.e);
            fs1.freereg == fs0.freereg && fs1.nactvar == fs0.nactvar && fs1 == p2.fs.(freereg := fs1.freereg)
  {
  }

  lemma CompareBothOk(env: Env, fs0: FS, p1: Placed, p2: Placed, op: RelOp, m1: Meaning, m2: Meaning)
    requires Operands(env, fs0, p1.fs, p1.e, p1.o, p2.fs, p2.e, p2.o, m1, m2)
    ensures var fs1 := FreeExp(FreeExp(p2.fs, p2.e), p1.e); var j := CondJump(fs1, CmpInstr(op, p1.o, p2.o));
            Ok(env, fs0, j.fs, Exp(VJmp(|fs1.code| + 1), [], []), AsValue, RelMeaning(env.cmp, op, m1, m2))
  {
    var fs1 := FreeExp(FreeExp(p2.fs, p2.e), p1.e);
    FreedBoth(fs0, p1, p2);
    assert fs0.nactvar <= fs0.freereg && !HasJumps(p2.e) && !Unfinished(p2.e.k);
    hide Sound, FreeExp;
    CompareBothSound(env, fs0, p1, p2, fs1, op, m1, m2);
    CompareCode(fs0, fs1, p2.e, CmpInstr(op, p1.o, p2.o));
    hide Operands, CodeOk, CondJump;
  }

  /** `luaK_infix` and `luaK_posfix` of a comparison: `p1` is the first operand, `g2` the code of the second. */
  lemma CodeCompOk(env: Env, fs0: FS, p1: Placed, g2: Gen, op: RelOp, m1: Meaning, m2: Meaning)
    requires Ok(env, fs0, p1.fs, p1.e, AsValue, m1) && !HasJumps(p1.e) && IsOperand(p1.e.k, p1.o)
    requires Ok(env, p1.fs, g2.fs, g2.e, AsValue, m2)
    requires Locally(m2, fs0.freereg) && CodeComp(g2.fs, op, p1.e, g2.e).fs.K <= env.K
    ensures var g := CodeComp(g2.fs, op, p1.e, g2.e);
            Ok(env, fs0, g.fs, g.e, AsValue, RelMeaning(env.cmp, op, m1, OperandMeaning(g2.fs, g2.e, m2)))
              && g.e.k.VJmp?
  {
    OperandStable(g2.fs, p1.e, p1.o);
    CodeCompIs(g2.fs, op, p1, g2.e);
    hide Ok, CodeComp, Exp2RK;
    Exp2RKOk(env, p1.fs, g2.fs, g2.e, m2);
    LocalOperand(g2.fs, g2.e, m2, fs0.freereg);
    CompareBothOk(env, fs0, p1, Exp2RK(g2.fs, g2.e), op, m1, OperandMeaning(g2.fs, g2.e, m2));
  }

  lemma LocalOperand(fs: FS, e: Exp, m: Meaning, base: nat)
    requires Locally(m, base)
    ensures Locally(OperandMeaning(fs, e, m), base)
  {
    var m' := OperandMeaning(fs, e, m);
    forall R, R', c | Agree(R, R', base, -1) ensures m'(R', c) == m'(R, c) { assert m(R', c) == m(R, c); }
  }

  lemma CodeCompIs(fs: FS, op: RelOp, p1: Placed, e2: Exp)
    requires Exp2RK(fs, p1.e) == Placed(fs, p1.e, p1.o) && !HasJumps(p1.e)
    ensures var p2 := Exp2RK(fs, e2);
            var fs1 := FreeExp(FreeExp(p2.fs, p2.e), p1.e);
            var j := CondJump(fs1, CmpInstr(op, p1.o, p2.o));
            CodeComp(fs, op, p1.e, e2) == Gen(j.fs, Exp(VJmp(|fs1.code| + 1), [], [])) && j.fs.K == p2.fs.K
  {
    hide Exp2RK;
  }
}
