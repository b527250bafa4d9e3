/** The only errors of the code generator are limits that are really met (lua/lcode.c:60-72, 190-206, 226-244;
    lua/llimits.h:80-82): how many registers, constants and instructions an expression takes can be read off its
    syntax. */
module CodeLimits {
  import opened Wrappers
  import opened CodeMachine
  import opened CodeGen
  import opened CodeState
  import opened CodeStored
  import opened CodeCompare
  import opened CodeTheorem

  // ---------------------------------------------------------------- measures of the syntax

  function Max(a: nat, b: nat): nat { if a >= b then a else b }

  /** Registers that are taken at the same time: a comparison holds its first operand, unless that is a local, while
      the second is computed. */
  function Temps(x: Expr): nat {
    match x
    case Local(_) => 0
    case Truth => 1
    case Falsity => 1
    case Numeral(_) => 1
    case Not(y) => Max(1, Temps(y))
    case And(l, r) => Max(1, Max(Temps(l), Temps(r)))
    case Or(l, r) => Max(1, Max(Temps(l), Temps(r)))
    case Rel(_, l, r) => Max(1, if l.Local? then Temps(r) else Max(Temps(l), 1 + Temps(r)))
  }

  /** Occurrences of literals: there is at most one constant for each. */
  function Literals(x: Expr): nat {
    match x
    case Local(_) => 0
    case Truth => 1
    case Falsity => 1
    case Numeral(_) => 1
    case Not(y) => Literals(y)
    case And(l, r) => Literals(l) + Literals(r)
    case Or(l, r) => Literals(l) + Literals(r)
    case Rel(_, l, r) => Literals(l) + Literals(r)
  }

  /** Instructions: a `not` loads its operand and negates it; an operand of `and` and `or` is loaded, tested and
      jumped over; an operand of a comparison is brought into a register, for which `Closing` are enough, and the
      comparison is followed by a jump. */
  function Words(x: Expr): nat {
    match x
    case Not(y) => Words(y) + 2
    case And(l, r) => Words(l) + 3 + Words(r)
    case Or(l, r) => Words(l) + 3 + Words(r)
    case Rel(_, l, r) => Words(l) + CLOSING + Words(r) + CLOSING + 2
    case _ => 0
  }

  /** A load, and a jump over two loads of truth values. */
  const CLOSING := 4

  /** A register too many for the stack, a constant too many for the instructions, or too long a jump from a place
      that waits for this expression. */
  ghost predicate LimitMet(fs: FS, x: Expr) {
    || fs.freereg + Max(1, Temps(x)) >= MAXSTACK
    || |fs.K| + Literals(x) > MAXARG_Bx
    || exists j: nat :: TooLong(fs, x, j)
  }

  /** A jump that is pending here, or the first of the expression, is so far away from its end. */
  predicate TooLong(fs: FS, x: Expr, j: nat) {
    (j == |fs.code| || j in fs.jpc) && |fs.code| + Words(x) + CLOSING - j > MAXARG_sBx
  }

  // ---------------------------------------------------------------- what a step may take

  /** From `fs` to `fs'`, at most so many registers, constants and instructions have been taken, and there is no new
      error unless these are too many. No jump begins or ends before `low`. */
  predicate Takes(fs: FS, fs': FS, low: nat, regs: nat, lits: nat, words: nat) {
    && |fs'.code| <= |fs.code| + words && |fs'.K| <= |fs.K| + lits && fs'.freereg <= fs.freereg + regs
    && (fs'.err ==>
          || fs.err || fs.freereg + regs >= MAXSTACK || |fs.K| + lits > MAXARG_Bx
          || |fs.code| + words - low > MAXARG_sBx)
    && (fs.err ==> fs'.err) && (fs'.err || |fs'.K| <= |fs.K| || |fs'.K| <= MAXARG_Bx)
  }

  /** One step after the other. */
  lemma TakesBoth(fs: FS, fs1: FS, fs2: FS, low: nat, r1: nat, l1: nat, w1: nat, r2: nat, l2: nat, w2: nat,
                  regs: nat, lits: nat, words: nat)
    requires Takes(fs, fs1, low, r1, l1, w1) && Takes(fs1, fs2, low, r2, l2, w2)
    requires r1 <= regs && fs1.freereg + r2 <= fs.freereg + regs
    requires l1 <= lits && |fs1.K| + l2 <= |fs.K| + lits
    requires w1 <= words && |fs1.code| + w2 <= |fs.code| + words
    ensures Takes(fs, fs2, low, regs, lits, words)
  {
  }

  /** A literal that is not yet a constant. */
  function Unstored(k: Kind): nat { if ConstantOf(k).Some? then 1 else 0 }

  predicate Inside(list: seq<nat>, low: nat, n: nat) { forall j :: j in list ==> low <= j < n }

  // ---------------------------------------------------------------- jumps

  lemma {:induction false} FarIsLong(code: seq<Instr>, list: seq<nat>, v: nat, d: nat, low: nat, n: nat)
    requires Inside(list, low, n) && low <= v <= n && AnyFar(code, list, v, d)
    requires (low <= d <= n) || !CodeGen.NeedValue(code, list)
    ensures n - low > MAXARG_sBx
    decreases |list|
  {
    assert list[0] in list;
    if !FarJump(list[0], Target(code, list[0], v, d)) {
      assert forall j :: j in list[1..] ==> j in list;
      FarIsLong(code, list[1..], v, d, low, n);
    }
  }

  lemma LinkTakes(fs: FS, l1: seq<nat>, l2: seq<nat>, low: nat)
    requires Inside(l1, low, |fs.code|) && Inside(l2, low, |fs.code|)
    ensures Takes(fs, Linked(fs, l1, l2), low, 0, 0, 0)
  {
    if l1 != [] && l2 != [] { assert l1[|l1| - 1] in l1 && l2[0] in l2; }
  }

  lemma DischargeTakes(fs: FS, low: nat)
    requires Inside(fs.jpc, low, |fs.code|)
    ensures Takes(fs, DischargeJpc(fs), low, 0, 0, 0)
  {
    var pc := |fs.code|;
    if AnyFar(fs.code, fs.jpc, pc, pc) {
      assert fs.jpc[0] in fs.jpc;
      FarIsLong(fs.code, fs.jpc, pc, pc, low, pc);
    }
  }

  lemma EmitTakes(fs: FS, i: Instr, low: nat)
    requires Inside(fs.jpc, low, |fs.code|)
    ensures Takes(fs, Emit(fs, i), low, 0, 0, 1) && Emit(fs, i).jpc == [] && |Emit(fs, i).code| == |fs.code| + 1
    ensures Emit(fs, i).freereg == fs.freereg
  {
    DischargeTakes(fs, low);
  }

  lemma JumpTakes(fs: FS, low: nat)
    requires Inside(fs.jpc, low, |fs.code|) && low <= |fs.code|
    ensures var j := EmitJump(fs); Takes(fs, j.fs, low, 0, 0, 1) && Inside(j.list, low, |j.fs.code|) && j.fs.jpc == []
    ensures EmitJump(fs).fs.freereg == fs.freereg && |EmitJump(fs).fs.code| == |fs.code| + 1
  {
    if fs.jpc != [] { assert fs.jpc[0] in fs.jpc; }
  }

  lemma CondJumpTakes(fs: FS, i: Instr, low: nat)
    requires Inside(fs.jpc, low, |fs.code|) && low <= |fs.code|
    ensures var j := CondJump(fs, i);
            Takes(fs, j.fs, low, 0, 0, 2) && Inside(j.list, low, |j.fs.code|) && j.fs.jpc == []
    ensures CondJump(fs, i).fs.freereg == fs.freereg && |CondJump(fs, i).fs.code| == |fs.code| + 2
  {
    hide Emit, EmitJump, Takes;
    EmitTakes(fs, i, low);
    JumpTakes(Emit(fs, i), low);
    TakesBoth(fs, Emit(fs, i), CondJump(fs, i).fs, low, 0, 0, 1, 0, 0, 1, 0, 0, 2);
  }

  // ---------------------------------------------------------------- values

  lemma LoadTakes(fs: FS, e: Exp, reg: nat, low: nat)
    requires Inside(fs.jpc, low, |fs.code|)
    ensures var g := Discharge2Reg(fs, e, reg);
            && Takes(fs, g.fs, low, 0, Unstored(e.k), 1) && g.fs.freereg == fs.freereg
            && Inside(g.fs.jpc, low, |g.fs.code|) && |g.fs.code| >= |fs.code|
            && g.e.t == e.t && g.e.f == e.f && (g.e.k.VJmp? <==> e.k.VJmp?) && (e.k.VJmp? ==> g == Gen(fs, e))
  {
    forall i ensures Takes(fs, Emit(fs, i), low, 0, 0, 1) { EmitTakes(fs, i, low); }
    if e.k.VKNum? {
      var a := AddK(fs, Num(e.k.n));
      EmitTakes(a.fs, LoadK(reg, a.i), low);
    }
  }

  lemma AnyLoadTakes(fs: FS, e: Exp, low: nat)
    requires Inside(fs.jpc, low, |fs.code|) && !e.k.VJmp?
    ensures var g := Discharge2AnyReg(fs, e);
            && Takes(fs, g.fs, low, if e.k.VNonReloc? then 0 else 1, Unstored(e.k), 1)
            && Inside(g.fs.jpc, low, |g.fs.code|) && |g.fs.code| >= |fs.code| && g.e.t == e.t && g.e.f == e.f
  {
    if !e.k.VNonReloc? {
      var fs1 := ReserveReg(fs);
      LoadTakes(fs1, e, fs.freereg, low);
      hide Discharge2Reg;
      TakesBoth(fs, fs1, Discharge2AnyReg(fs, e).fs, low, 1, 0, 0, 0, Unstored(e.k), 1, 1, Unstored(e.k), 1);
    }
  }

  /** The lists of a descriptor, and the jump of a comparison, from `low` on. */
  predicate Spans(fs: FS, e: Exp, low: nat) {
    && Inside(fs.jpc, low, |fs.code|) && Inside(e.t, low, |fs.code|) && Inside(e.f, low, |fs.code|)
    && (e.k.VJmp? ==> low <= e.k.pc < |fs.code| && fs.jpc == []) && low <= |fs.code|
  }

  lemma LoadsTake(fs: FS, isJump: bool, reg: nat, low: nat)
    requires Inside(fs.jpc, low, |fs.code|) && low <= |fs.code|
    ensures var fs2 := EmitLoads(fs, isJump, reg);
            && Takes(fs, fs2, low, 0, 0, 3) && |fs2.code| >= |fs.code| + 2
            && fs2.freereg == fs.freereg && Inside(fs2.jpc, low, |fs2.code|)
  {
    DischargeTakes(fs, low);
    JumpTakes(fs, low);
  }

  lemma ExitsTake(fs: FS, e: Exp, reg: nat, pf: nat, pt: nat, low: nat)
    requires Inside(e.t, low, |fs.code|) && Inside(e.f, low, |fs.code|) && low <= |fs.code|
    requires (low <= pf <= |fs.code| && low <= pt <= |fs.code|)
             || (!CodeGen.NeedValue(fs.code, e.t) && !CodeGen.NeedValue(fs.code, e.f))
    ensures var fs' := PatchExits(fs, e, reg, pf, pt);
            && Takes(fs, fs', low, 0, 0, 0) && fs'.jpc == fs.jpc && fs'.freereg == fs.freereg
            && |fs'.code| == |fs.code|
  {
    var n := |fs.code|;
    if AnyFar(fs.code, e.f, n, pf) { FarIsLong(fs.code, e.f, n, pf, low, n); }
    if AnyFar(fs.code, e.t, n, pt) { FarIsLong(fs.code, e.t, n, pt, low, n); }
  }

  lemma JoinedTakes(fs: FS, e: Exp, low: nat)
    requires Spans(fs, e, low)
    ensures var e1, fs1 := Exits(e), Joined(fs, e);
            && Takes(fs, fs1, low, 0, 0, 0) && Inside(e1.t, low, |fs.code|) && Inside(e1.f, low, |fs.code|)
            && fs1.code == fs.code && fs1.jpc == fs.jpc && fs1.freereg == fs.freereg
  {
    if e.k.VJmp? { LinkTakes(fs, e.t, [e.k.pc], low); }
  }

  lemma CloseTakes(fs: FS, e: Exp, reg: nat, low: nat)
    requires Spans(fs, e, low)
    ensures var g := Close(fs, e, reg);
            && Takes(fs, g.fs, low, 0, 0, 3) && g.fs.freereg == fs.freereg
            && Inside(g.fs.jpc, low, |g.fs.code|) && |g.fs.code| >= |fs.code|
  {
    hide Close, Joined, Exits, EmitLoads, PatchExits, Inside, Takes;
    var e1, fs1 := Exits(e), Joined(fs, e);
    JoinedTakes(fs, e, low);
    CloseIs(fs, e, reg);
    if CodeGen.NeedValue(fs1.code, e1.t) || CodeGen.NeedValue(fs1.code, e1.f) {
      var fs2 := EmitLoads(fs1, e.k.VJmp?, reg);
      LoadsTake(fs1, e.k.VJmp?, reg, low);
      InsideMore(e1.t, low, |fs.code|, |fs2.code|);
      InsideMore(e1.f, low, |fs.code|, |fs2.code|);
      ExitsTake(fs2, e1, reg, |fs2.code| - 2, |fs2.code| - 1, low);
      TakesBoth(fs, fs1, fs2, low, 0, 0, 0, 0, 0, 3, 0, 0, 3);
      ThenTakes(fs, fs2, Close(fs, e, reg).fs, low, 0, 0, 3, 0);
    } else {
      ExitsTake(fs1, e1, reg, 0, 0, low);
      TakesBoth(fs, fs1, Close(fs, e, reg).fs, low, 0, 0, 0, 0, 0, 0, 0, 0, 3);
    }
  }

  lemma RegTakes(fs: FS, e: Exp, reg: nat, low: nat)
    requires Spans(fs, e, low)
    ensures var g := Exp2Reg(fs, e, reg);
            && Takes(fs, g.fs, low, 0, Unstored(e.k), CLOSING) && g.fs.freereg == fs.freereg
            && Inside(g.fs.jpc, low, |g.fs.code|) && |g.fs.code| >= |fs.code|
  {
    var g := Discharge2Reg(fs, e, reg);
    LoadTakes(fs, e, reg, low);
    hide Discharge2Reg, Close, Takes;
    CloseTakes(g.fs, g.e, reg, low);
    assert |g.fs.K| <= |fs.K| + Unstored(e.k) && |g.fs.code| <= |fs.code| + 1 by {
      TakesRoom(fs, g.fs, low, 0, Unstored(e.k), 1);
    }
    TakesBoth(fs, g.fs, Exp2Reg(fs, e, reg).fs, low, 0, Unstored(e.k), 1, 0, 0, 3, 0, Unstored(e.k), CLOSING);
  }

  lemma TakesRoom(fs: FS, fs': FS, low: nat, r: nat, l: nat, w: nat)
    requires Takes(fs, fs', low, r, l, w)
    ensures |fs'.K| <= |fs.K| + l && |fs'.code| <= |fs.code| + w
  {
  }

  /** A value that is in a register is in that of a local. */
  predicate AtLocal(fs: FS, e: Exp) { (e.k.VNonReloc? || e.k.VLocal?) ==> e.k.r < fs.nactvar }

  lemma NextRegTakes(fs: FS, e: Exp, low: nat)
    requires Spans(fs, e, low)
    ensures var g := Exp2NextReg(fs, e);
            && Takes(fs, g.fs, low, 1, Unstored(e.k), CLOSING)
            && Inside(g.fs.jpc, low, |g.fs.code|) && |g.fs.code| >= |fs.code|
            && (!g.fs.err ==> g.fs.freereg < MAXSTACK) && (AtLocal(fs, e) ==> g.fs.freereg == fs.freereg + 1)
  {
    var e1 := DischargeVars(e);
    var fs1 := ReserveReg(FreeExp(fs, e1));
    hide Exp2Reg;
    RegTakes(fs1, e1, fs1.freereg - 1, low);
    assert Takes(fs, fs1, low, 1, 0, 0) && fs1.freereg <= fs.freereg + 1 && fs1.code == fs.code && fs1.K == fs.K;
    TakesBoth(fs, fs1, Exp2NextReg(fs, e).fs, low, 1, 0, 0, 0, Unstored(e.k), CLOSING, 1, Unstored(e.k), CLOSING);
  }

  lemma AnyRegTakes(fs: FS, e: Exp, low: nat)
    requires Spans(fs, e, low)
    ensures var g := Exp2AnyReg(fs, e);
            && Takes(fs, g.fs, low, 1, Unstored(e.k), CLOSING)
            && Inside(g.fs.jpc, low, |g.fs.code|) && |g.fs.code| >= |fs.code|
  {
    var e1 := DischargeVars(e);
    hide Exp2Reg, Exp2NextReg;
    NextRegTakes(fs, e1, low);
    if e1.k.VNonReloc? {
      RegTakes(fs, e1, e1.k.r, low);
    }
  }

  /** The first operand of a comparison, or the second; a local takes nothing. */
  lemma OperateTakes(fs: FS, e: Exp, low: nat)
    requires Spans(fs, e, low) && !HasJumps(e)
    ensures var p := Operate(fs, e);
            && Takes(fs, p.fs, low, 1, Unstored(e.k), CLOSING) && Inside(p.fs.jpc, low, |p.fs.code|)
            && |p.fs.code| >= |fs.code|
  {
    hide Exp2AnyReg;
    AnyRegTakes(fs, e, low);
  }

  /** Registers that it takes to make an operand of a comparison. */
  function Need(e: Exp): nat { if e.k.VLocal? && !HasJumps(e) then 0 else 1 }

  lemma OperandTakes(fs: FS, e: Exp, low: nat)
    requires Spans(fs, e, low)
    ensures var p := Exp2RK(fs, e);
            && Takes(fs, p.fs, low, Need(e), Unstored(e.k), CLOSING) && Inside(p.fs.jpc, low, |p.fs.code|)
            && |p.fs.code| >= |fs.code|
  {
    hide Exp2AnyReg, Operate;
    if HasJumps(e) {
      AnyRegTakes(fs, e, low);
      var g := Exp2AnyReg(fs, e);
      AnyRegTouch(fs, e);
      HeldOperand(g.fs, g.e);
    } else if e.k.VLocal? {
      HeldOperand(fs, DischargeVars(e));
    } else {
      OperateTakes(fs, e, low);
    }
  }

  lemma HeldOperand(fs: FS, e: Exp)
    requires e.k.VNonReloc? && !HasJumps(e)
    ensures Operate(fs, e).fs == fs
  {
  }

  // ---------------------------------------------------------------- conditions

  /** The NOT that a descriptor stands for may be taken back. */
  predicate Movable(fs: FS, e: Exp, low: nat) {
    e.k.VReloc? ==>
      fs.jpc == [] && low < |fs.code| && Inside(e.t, low, |fs.code| - 1) && Inside(e.f, low, |fs.code| - 1)
  }

  lemma JumpOnTakes(fs: FS, e: Exp, cond: bool, low: nat)
    requires Spans(fs, e, low) && !e.k.VJmp? && Movable(fs, e, low)
    ensures var j := JumpOnCond(fs, e, cond);
            && Takes(fs, j.fs, low, 1, Unstored(e.k), 3) && Inside(j.list, low, |j.fs.code|) && j.fs.jpc == []
            && |j.fs.code| >= |fs.code| && Inside(e.t, low, |j.fs.code|) && Inside(e.f, low, |j.fs.code|)
  {
    hide CondJump;
    if e.k.VReloc? && e.k.pc < |fs.code| && fs.code[e.k.pc].NotI? {
      var fs1 := fs.(code := fs.code[..|fs.code| - 1]);
      CondJumpTakes(fs1, Test(fs.code[e.k.pc].b, !cond), low);
    } else {
      var g := Discharge2AnyReg(fs, e);
      AnyLoadTakes(fs, e, low);
      hide Discharge2AnyReg;
      var fs1 := FreeExp(g.fs, g.e);
      CondJumpTakes(fs1, TestSet(None, if g.e.k.VNonReloc? then g.e.k.r else 0, cond), low);
    }
  }

  lemma InsideMore(list: seq<nat>, low: nat, m: nat, n: nat)
    requires Inside(list, low, m) && m <= n
    ensures Inside(list, low, n)
  {
  }

  lemma TrueJumpTakes(fs: FS, e: Exp, low: nat)
    requires Spans(fs, e, low) && !e.k.VLocal? && Movable(fs, e, low)
    ensures var j := TrueJump(fs, e);
            && Takes(fs, j.fs, low, 1, Unstored(e.k), 3) && Inside(j.list, low, |j.fs.code|)
            && Inside(j.fs.jpc, low, |j.fs.code|) && |j.fs.code| >= |fs.code|
  {
    hide JumpOnCond, EmitJump;
    if !e.k.VJmp? {
      JumpOnTakes(fs, e, false, low);
      JumpTakes(fs, low);
    }
  }

  lemma GoTrueTakes(fs: FS, e: Exp, low: nat)
    requires Spans(fs, e, low) && Movable(fs, e, low)
    ensures var g := GoIfTrue(fs, e);
            && Takes(fs, g.fs, low, 1, Unstored(e.k), 3) && Inside(g.fs.jpc, low, |g.fs.code|)
            && Inside(g.e.f, low, |g.fs.code|) && |g.fs.code| >= |fs.code|
  {
    hide TrueJump, GoIfTrue, Takes, Inside, PatchToHere, Linked;
    var e1 := DischargeVars(e);
    var j := TrueJump(fs, e1);
    GoIfTrueIs(fs, e);
    assert Unstored(e1.k) == Unstored(e.k);
    TrueJumpTakes(fs, e1, low);
    InsideMore(e.t, low, |fs.code|, |j.fs.code|);
    InsideMore(e.f, low, |fs.code|, |j.fs.code|);
    BranchTakes(fs, j.fs, e1.f, j.list, e1.t, low, Unstored(e.k));
  }

  lemma FalseJumpTakes(fs: FS, e: Exp, low: nat)
    requires Spans(fs, e, low) && !e.k.VLocal? && Movable(fs, e, low)
    ensures var j := FalseJump(fs, e);
            && Takes(fs, j.fs, low, 1, Unstored(e.k), 3) && Inside(j.list, low, |j.fs.code|)
            && Inside(j.fs.jpc, low, |j.fs.code|) && |j.fs.code| >= |fs.code|
  {
    hide JumpOnCond, EmitJump;
    if !e.k.VJmp? {
      JumpOnTakes(fs, e, true, low);
      JumpTakes(fs, low);
    }
  }

  lemma GoFalseTakes(fs: FS, e: Exp, low: nat)
    requires Spans(fs, e, low) && Movable(fs, e, low)
    ensures var g := GoIfFalse(fs, e);
            && Takes(fs, g.fs, low, 1, Unstored(e.k), 3) && Inside(g.fs.jpc, low, |g.fs.code|)
            && Inside(g.e.t, low, |g.fs.code|) && |g.fs.code| >= |fs.code|
  {
    hide FalseJump, GoIfFalse, Takes, Inside, PatchToHere, Linked;
    var e1 := DischargeVars(e);
    var j := FalseJump(fs, e1);
    GoIfFalseIs(fs, e);
    assert Unstored(e1.k) == Unstored(e.k);
    FalseJumpTakes(fs, e1, low);
    InsideMore(e.t, low, |fs.code|, |j.fs.code|);
    InsideMore(e.f, low, |fs.code|, |j.fs.code|);
    BranchTakes(fs, j.fs, e1.t, j.list, e1.f, low, Unstored(e.k));
  }

  /** The end of `goiftrue` and `goiffalse`. */
  lemma BranchTakes(fs: FS, fs1: FS, list: seq<nat>, jump: seq<nat>, here: seq<nat>, low: nat, lits: nat)
    requires Takes(fs, fs1, low, 1, lits, 3) && Inside(fs1.jpc, low, |fs1.code|)
    requires Inside(list, low, |fs1.code|) && Inside(jump, low, |fs1.code|) && Inside(here, low, |fs1.code|)
    ensures var fs2 := PatchToHere(Linked(fs1, list, jump), here);
            && Takes(fs, fs2, low, 1, lits, 3) && Inside(fs2.jpc, low, |fs2.code|)
            && Inside(list + jump, low, |fs2.code|)
            && |fs2.code| == |fs1.code|
  {
    LinkTakes(fs1, list, jump, low);
    LinkTakes(Linked(fs1, list, jump), fs1.jpc, here, low);
  }

  lemma NegateTakes(fs: FS, e: Exp, low: nat)
    requires Spans(fs, e, low) && Movable(fs, e, low) && !e.k.VK?
    ensures var g := CodeNot(fs, e);
            Takes(fs, g.fs, low, 1, 0, 2) && |g.fs.K| + Unstored(g.e.k) <= |fs.K| + Unstored(e.k)
  {
    var e1 := DischargeVars(e);
    CodeNotIs(fs, e);
    hide CodeNot;
    if e1.k.VReloc? || e1.k.VNonReloc? {
      var d := Discharge2AnyReg(fs, e1);
      AnyLoadTakes(fs, e1, low);
      hide Discharge2AnyReg;
      EmitTakes(FreeExp(d.fs, d.e), NotI(0, if d.e.k.VNonReloc? then d.e.k.r else 0), low);
    }
  }

  lemma CompareTakes(fs: FS, op: RelOp, e1: Exp, o: RK, e2: Exp, low: nat)
    requires Spans(fs, e2, low) && Exp2RK(fs, e1) == Placed(fs, e1, o)
    ensures var g := CodeComp(fs, op, e1, e2);
            Takes(fs, g.fs, low, Need(e2), Unstored(e2.k), CLOSING + 2) && g.e.k.VJmp?
  {
    hide Exp2RK, CodeComp, CondJump, FreeExp, Takes, CmpInstr, Need;
    ComparedIs(fs, op, e1, o, e2);
    var p := Exp2RK(fs, e2);
    var fs1, fs2 := FreeExp(p.fs, p.e), FreeExp(FreeExp(p.fs, p.e), e1);
    OperandTakes(fs, e2, low);
    FreeTakes(p.fs, p.e, low);
    FreeTakes(fs1, e1, low);
    CondJumpTakes(fs2, CmpInstr(op, o, p.o), low);
    ThenTakes(fs, p.fs, fs1, low, Need(e2), Unstored(e2.k), CLOSING, 0);
    ThenTakes(fs, fs1, fs2, low, Need(e2), Unstored(e2.k), CLOSING, 0);
    ThenTakes(fs, fs2, CodeComp(fs, op, e1, e2).fs, low, Need(e2), Unstored(e2.k), CLOSING, 2);
  }

  lemma FreeTakes(fs: FS, e: Exp, low: nat)
    ensures Takes(fs, FreeExp(fs, e), low, 0, 0, 0)
  {
  }

  /** A step that takes only instructions. */
  lemma ThenTakes(fs: FS, fs1: FS, fs2: FS, low: nat, regs: nat, lits: nat, words: nat, more: nat)
    requires Takes(fs, fs1, low, regs, lits, words) && Takes(fs1, fs2, low, 0, 0, more)
    ensures Takes(fs, fs2, low, regs, lits, words + more)
  {
  }

  // ---------------------------------------------------------------- expressions

  lemma SpansOf(fs0: FS, fs: FS, e: Exp, low: nat)
    requires CodeOk(fs0, fs, e, AsValue) && Inside(fs0.jpc, low, |fs0.code|) && low <= |fs0.code|
    ensures Spans(fs, e, low) && |fs0.code| <= |fs.code|
    ensures Movable(fs, e, low)
  {
  }

  /** What compiling an expression takes, and that a literal it ends with is still to be stored. */
  ghost predicate CompTaken(fs: FS, x: Expr, low: nat) {
    var g := Comp(fs, x);
    Takes(fs, g.fs, low, Temps(x), Literals(x), Words(x)) && |g.fs.K| + Unstored(g.e.k) <= |fs.K| + Literals(x)
  }

  lemma NotTakes(fs: FS, y: Expr, low: nat)
    requires Ready(fs, Not(y)) && Inside(fs.jpc, low, |fs.code|) && low <= |fs.code| && CompTaken(fs, y, low)
    ensures CompTaken(fs, Not(y), low)
  {
    var g := Comp(fs, y);
    hide Comp, CodeNot, Ready, CodeOk, WellKept;
    ReadyParts(fs, Not(y));
    CompLists(fs, y);
    CompNotIs(fs, y);
    SpansOf(fs, g.fs, g.e, low);
    NegateTakes(g.fs, g.e, low);
    TakesBoth(fs, g.fs, CodeNot(g.fs, g.e).fs, low, Temps(y), Literals(y), Words(y), 1, 0, 2, Max(1, Temps(y)),
      Literals(y), Words(y) + 2);
  }

  /** The second operand of `and` or `or`, and the joining of the exits. */
  lemma JoinTakes(fs: FS, g1: Gen, g2: Gen, r: Expr, l3: seq<nat>, l2: seq<nat>, low: nat, regs: nat,
                  lits: nat, words: nat)
    requires Takes(fs, g1.fs, low, regs, lits, words) && |g1.fs.K| + Unstored(g1.e.k) <= |fs.K| + lits
    requires g1.fs.freereg == fs.freereg && g2.fs.freereg == fs.freereg
    requires Takes(g1.fs, g2.fs, low, 1, Unstored(g1.e.k), 3) && Inside(g2.fs.jpc, low, |g2.fs.code|)
             && low <= |g2.fs.code|
    requires Ready(g2.fs, r) && CompTaken(g2.fs, r, low)
    requires Inside(l2, low, |g2.fs.code|) && (l3 == Comp(g2.fs, r).e.t || l3 == Comp(g2.fs, r).e.f)
    ensures var g3 := Comp(g2.fs, r);
            && Takes(fs, Linked(g3.fs, l3, l2), low, Max(1, Max(regs, Temps(r))), lits + Literals(r),
                     words + 3 + Words(r))
            && |Linked(g3.fs, l3, l2).K| == |g3.fs.K| && |g3.fs.K| + Unstored(g3.e.k) <= |fs.K| + lits + Literals(r)
  {
    hide Comp, Ready, CodeOk, WellKept, Temps, Literals, Words;
    var g3 := Comp(g2.fs, r);
    CompLists(g2.fs, r);
    SpansOf(g2.fs, g3.fs, g3.e, low);
    LinkTakes(g3.fs, l3, l2, low);
  }

  lemma AndTakes(fs: FS, l: Expr, r: Expr, low: nat)
    requires Ready(fs, And(l, r)) && Inside(fs.jpc, low, |fs.code|) && low <= |fs.code| && CompTaken(fs, l, low)
    requires var g1 := Comp(fs, l);
             var g2 := GoIfTrue(g1.fs, g1.e);
             Inside(g2.fs.jpc, low, |g2.fs.code|) && low <= |g2.fs.code| ==> CompTaken(g2.fs, r, low)
    ensures CompTaken(fs, And(l, r), low)
  {
    hide Comp, GoIfTrue, Ready, CodeOk, WellKept, Takes, Linked, Inside, Apart, Since, Spans, Movable, Unstored, Temps,
      Literals, Words, Touch, CompTaken, DischargeVars;
    var g1 := Comp(fs, l);
    var g2 := GoIfTrue(g1.fs, g1.e);
    ReadyParts(fs, And(l, r));
    CompLists(fs, l);
    SpansOf(fs, g1.fs, g1.e, low);
    GoTrueTakes(g1.fs, g1.e, low);
    AndLists(fs, l, r);
    AndMade(fs, l, r, g2, low);
  }

  lemma AndMade(fs: FS, l: Expr, r: Expr, g2: Gen, low: nat)
    requires CompTaken(fs, l, low) && CompTaken(g2.fs, r, low) && Ready(g2.fs, r)
    requires var g1 := Comp(fs, l);
             && Takes(g1.fs, g2.fs, low, 1, Unstored(g1.e.k), 3) && g1.fs.freereg == fs.freereg
             && g2 == GoIfTrue(g1.fs, g1.e)
    requires g2.fs.freereg == fs.freereg && Inside(g2.fs.jpc, low, |g2.fs.code|) && low <= |g2.fs.code|
             && Inside(g2.e.f, low, |g2.fs.code|)
    ensures CompTaken(fs, And(l, r), low)
  {
    hide Comp, GoIfTrue, Ready, CodeOk, WellKept, Takes, Linked, Inside;
    var g3 := Comp(g2.fs, r);
    CompAndIs(fs, l, r);
    JoinTakes(fs, Comp(fs, l), g2, r, g3.e.f, g2.e.f, low, Temps(l), Literals(l), Words(l));
  }

  lemma OrTakes(fs: FS, l: Expr, r: Expr, low: nat)
    requires Ready(fs, Or(l, r)) && Inside(fs.jpc, low, |fs.code|) && low <= |fs.code| && CompTaken(fs, l, low)
    requires var g1 := Comp(fs, l);
             var g2 := GoIfFalse(g1.fs, g1.e);
             Inside(g2.fs.jpc, low, |g2.fs.code|) && low <= |g2.fs.code| ==> CompTaken(g2.fs, r, low)
    ensures CompTaken(fs, Or(l, r), low)
  {
    hide Comp, GoIfFalse, Ready, CodeOk, WellKept, Takes, Linked, Inside, Apart, Since, Spans, Movable, Unstored, Temps,
      Literals, Words, Touch, CompTaken, DischargeVars;
    var g1 := Comp(fs, l);
    var g2 := GoIfFalse(g1.fs, g1.e);
    ReadyParts(fs, Or(l, r));
    CompLists(fs, l);
    SpansOf(fs, g1.fs, g1.e, low);
    GoFalseTakes(g1.fs, g1.e, low);
    OrLists(fs, l, r);
    OrMade(fs, l, r, g2, low);
  }

  lemma OrMade(fs: FS, l: Expr, r: Expr, g2: Gen, low: nat)
    requires CompTaken(fs, l, low) && CompTaken(g2.fs, r, low) && Ready(g2.fs, r)
    requires var g1 := Comp(fs, l);
             && Takes(g1.fs, g2.fs, low, 1, Unstored(g1.e.k), 3) && g1.fs.freereg == fs.freereg
             && g2 == GoIfFalse(g1.fs, g1.e)
    requires g2.fs.freereg == fs.freereg && Inside(g2.fs.jpc, low, |g2.fs.code|) && low <= |g2.fs.code|
             && Inside(g2.e.t, low, |g2.fs.code|)
    ensures CompTaken(fs, Or(l, r), low)
  {
    hide Comp, GoIfFalse, Ready, CodeOk, WellKept, Takes, Linked, Inside;
    var g3 := Comp(g2.fs, r);
    CompOrIs(fs, l, r);
    JoinTakes(fs, Comp(fs, l), g2, r, g3.e.t, g2.e.t, low, Temps(l), Literals(l), Words(l));
  }

  lemma LocalComp(fs: FS, x: Expr)
    ensures x.Local? ==> Comp(fs, x) == Gen(fs, Exp(VLocal(x.r), [], []))
  {
  }

  /** The first operand of a comparison: a local takes no register, anything else may take one. */
  lemma FirstTakes(fs: FS, l: Expr, low: nat)
    requires Ready(fs, l) && Inside(fs.jpc, low, |fs.code|) && low <= |fs.code| && CompTaken(fs, l, low)
    ensures var g := Comp(fs, l);
            var p := Exp2RK(g.fs, g.e);
            && Takes(fs, p.fs, low, if l.Local? then 0 else Max(1, Temps(l)), Literals(l), Words(l) + CLOSING)
            && p.fs.freereg <= fs.freereg + (if l.Local? then 0 else 1)
            && Inside(p.fs.jpc, low, |p.fs.code|) && low <= |p.fs.code|
  {
    hide Comp, Exp2RK, Ready, CodeOk, WellKept;
    var g := Comp(fs, l);
    LocalComp(fs, l);
    CompLists(fs, l);
    SpansOf(fs, g.fs, g.e, low);
    OperandTakes(g.fs, g.e, low);
    assert l.Local? ==> Need(g.e) == 0;
    hide Spans, Inside, Unstored;
  }

  lemma RelTakes(fs: FS, op: RelOp, l: Expr, r: Expr, low: nat)
    requires Ready(fs, Rel(op, l, r)) && Inside(fs.jpc, low, |fs.code|) && low <= |fs.code| && CompTaken(fs, l, low)
    requires var g1 := Comp(fs, l);
             var p1 := Exp2RK(g1.fs, g1.e);
             Inside(p1.fs.jpc, low, |p1.fs.code|) && low <= |p1.fs.code| ==> CompTaken(p1.fs, r, low)
    ensures CompTaken(fs, Rel(op, l, r), low)
  {
    hide Comp, Exp2RK, CodeComp, Ready, CodeOk, WellKept, Takes, Inside, Apart, Since, Touch, Temps, Literals, Words,
      Max,
      HasJumps, IsOperand, Unstored, Need;
    var g1 := Comp(fs, l);
    var p1 := Exp2RK(g1.fs, g1.e);
    var g2 := Comp(p1.fs, r);
    ReadyParts(fs, Rel(op, l, r));
    FirstTakes(fs, l, low);
    RelLists(fs, op, l, r);
    CompRelIs(fs, op, l, r);
    SecondTakes(p1, op, r, low);
    ComparedTakes(fs, p1.fs, g2, CodeComp(g2.fs, op, p1.e, g2.e), op, l, r, low);
  }

  /** The second operand of a comparison, the comparison and its jump. */
  lemma SecondTakes(p1: Placed, op: RelOp, r: Expr, low: nat)
    requires Ready(p1.fs, r) && Inside(p1.fs.jpc, low, |p1.fs.code|) && low <= |p1.fs.code| && CompTaken(p1.fs, r, low)
    requires !HasJumps(p1.e) && IsOperand(p1.e.k, p1.o)
    ensures var g2 := Comp(p1.fs, r);
            var g3 := CodeComp(g2.fs, op, p1.e, g2.e);
            && Takes(g2.fs, g3.fs, low, Need(g2.e), Unstored(g2.e.k), CLOSING + 2) && g3.e.k.VJmp?
            && g2.fs.freereg == p1.fs.freereg && (r.Local? ==> Need(g2.e) == 0)
  {
    hide Comp, Exp2RK, CodeComp, Ready, CodeOk, WellKept, Takes, Inside, IsOperand;
    var g2 := Comp(p1.fs, r);
    CompLists(p1.fs, r);
    LocalComp(p1.fs, r);
    SpansOf(p1.fs, g2.fs, g2.e, low);
    OperandStable(g2.fs, p1.e, p1.o);
    CompareTakes(g2.fs, op, p1.e, p1.o, g2.e, low);
  }

  lemma ComparedTakes(fs: FS, fs1: FS, g2: Gen, g3: Gen, op: RelOp, l: Expr, r: Expr, low: nat)
    requires Takes(fs, fs1, low, if l.Local? then 0 else Max(1, Temps(l)), Literals(l), Words(l) + CLOSING)
    requires fs1.freereg <= fs.freereg + (if l.Local? then 0 else 1) && g2.fs.freereg == fs1.freereg
    requires Takes(fs1, g2.fs, low, Temps(r), Literals(r), Words(r))
             && |g2.fs.K| + Unstored(g2.e.k) <= |fs1.K| + Literals(r)
    requires Takes(g2.fs, g3.fs, low, Need(g2.e), Unstored(g2.e.k), CLOSING + 2) && (r.Local? ==> Need(g2.e) == 0)
    requires g3.e.k.VJmp?
    ensures var x := Rel(op, l, r);
            Takes(fs, g3.fs, low, Temps(x), Literals(x), Words(x))
            && |g3.fs.K| + Unstored(g3.e.k) <= |fs.K| + Literals(x)
  {
    assert !r.Local? ==> Temps(r) >= 1;
  }

  lemma {:induction false} CompTakes(fs: FS, x: Expr, low: nat)
    requires Ready(fs, x) && Inside(fs.jpc, low, |fs.code|) && low <= |fs.code|
    ensures CompTaken(fs, x, low)
    decreases x
  {
    hide Ready, GoIfTrue, GoIfFalse, Exp2RK, CodeNot, CodeComp, Inside;
    ReadyParts(fs, x);
    match x
    case Not(y) =>
      CompTakes(fs, y, low);
      NotTakes(fs, y, low);
    case And(l, r) =>
      var g2 := GoIfTrue(Comp(fs, l).fs, Comp(fs, l).e);
      CompTakes(fs, l, low);
      AndLists(fs, l, r);
      if Inside(g2.fs.jpc, low, |g2.fs.code|) && low <= |g2.fs.code| { CompTakes(g2.fs, r, low); }
      AndTakes(fs, l, r, low);
    case Or(l, r) =>
      var g2 := GoIfFalse(Comp(fs, l).fs, Comp(fs, l).e);
      CompTakes(fs, l, low);
      OrLists(fs, l, r);
      if Inside(g2.fs.jpc, low, |g2.fs.code|) && low <= |g2.fs.code| { CompTakes(g2.fs, r, low); }
      OrTakes(fs, l, r, low);
    case Rel(op, l, r) =>
      var p1 := Exp2RK(Comp(fs, l).fs, Comp(fs, l).e);
      CompTakes(fs, l, low);
      RelLists(fs, op, l, r);
      if Inside(p1.fs.jpc, low, |p1.fs.code|) && low <= |p1.fs.code| { CompTakes(p1.fs, r, low); }
      RelTakes(fs, op, l, r, low);
    case _ =>
  }

  // ---------------------------------------------------------------- main results

  /** The earliest place that waits for the expression. */
  function Earliest(end: nat, list: seq<nat>): (r: nat)
    ensures r <= end && forall j :: j in list ==> r <= j
    ensures r == end || r in list
  {
    if list == [] then end
    else
      var r := Earliest(end, list[1..]);
      assert forall j :: j in list ==> j == list[0] || j in list[1..];
      if list[0] < r then list[0] else r
  }

  lemma Excused(fs: FS, fs': FS, x: Expr)
    requires !fs.err && Takes(fs, fs', Earliest(|fs.code|, fs.jpc), Max(1, Temps(x)), Literals(x), Words(x) + CLOSING)
    ensures fs'.err ==> LimitMet(fs, x)
  {
    var j := Earliest(|fs.code|, fs.jpc);
    if |fs.code| + Words(x) + CLOSING - j > MAXARG_sBx { assert TooLong(fs, x, j); }
  }

  /** An expression is refused only where a limit is met, and the limits hold of what has been accepted. */
  lemma RefusedOnlyAtLimits(fs: FS, x: Expr)
    requires Ready(fs, x) && !fs.err
    ensures var g, fs' := Comp(fs, x), CompileToNextReg(fs, x);
            && (g.fs.err || fs'.err || DischargeJpc(fs').err ==> LimitMet(fs, x))
            && fs'.freereg == fs.freereg + 1
            && (!fs'.err ==> fs'.freereg < MAXSTACK && (|fs.K| <= MAXARG_Bx ==> |fs'.K| <= MAXARG_Bx))
  {
    var low := Earliest(|fs.code|, fs.jpc);
    var g, fs' := Comp(fs, x), CompileToNextReg(fs, x);
    assert Inside(fs.jpc, low, |fs.code|);
    hide Comp, Exp2NextReg, Ready, DischargeJpc, LimitMet, Inside;
    CompTakes(fs, x, low);
    CompLists(fs, x);
    SpansOf(fs, g.fs, g.e, low);
    NextRegTakes(g.fs, g.e, low);
    DischargeTakes(fs', low);
    FinishedTakes(fs, g, fs', DischargeJpc(fs'), x, low);
    Excused(fs, g.fs, x);
    Excused(fs, fs', x);
    Excused(fs, DischargeJpc(fs'), x);
  }

  lemma FinishedTakes(fs: FS, g: Gen, fs1: FS, fs2: FS, x: Expr, low: nat)
    requires Takes(fs, g.fs, low, Temps(x), Literals(x), Words(x)) && |g.fs.K| + Unstored(g.e.k) <= |fs.K| + Literals(x)
    requires g.fs.freereg == fs.freereg
    requires Takes(g.fs, fs1, low, 1, Unstored(g.e.k), CLOSING) && Takes(fs1, fs2, low, 0, 0, 0)
    ensures Takes(fs, g.fs, low, Max(1, Temps(x)), Literals(x), Words(x) + CLOSING)
    ensures Takes(fs, fs1, low, Max(1, Temps(x)), Literals(x), Words(x) + CLOSING)
    ensures Takes(fs, fs2, low, Max(1, Temps(x)), Literals(x), Words(x) + CLOSING)
  {
  }
}
