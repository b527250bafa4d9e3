/** An error that has been raised stays raised: `luaX_syntaxerror` does not return. */
module CodeErrors {
  import opened CodeMachine
  import opened CodeGen

  lemma Discharge2RegErr(fs: FS, e: Exp, reg: nat)
    requires fs.err
    ensures Discharge2Reg(fs, e, reg).fs.err
  {
  }

  lemma CloseErr(fs: FS, e: Exp, reg: nat)
    requires fs.err
    ensures Close(fs, e, reg).fs.err
  {
  }

  lemma Exp2RegErr(fs: FS, e: Exp, reg: nat)
    requires fs.err || Discharge2Reg(fs, e, reg).fs.err
    ensures Exp2Reg(fs, e, reg).fs.err
  {
    if fs.err { Discharge2RegErr(fs, e, reg); }
    hide Discharge2Reg, Close;
    CloseErr(Discharge2Reg(fs, e, reg).fs, Discharge2Reg(fs, e, reg).e, reg);
  }

  lemma NextRegErr(fs: FS, e: Exp)
    requires fs.err || ReserveReg(FreeExp(fs, DischargeVars(e))).err
    ensures Exp2NextReg(fs, e).fs.err
  {
    var e1 := DischargeVars(e);
    var fs1 := ReserveReg(FreeExp(fs, e1));
    hide Exp2Reg;
    if fs1.freereg > 0 { Exp2RegErr(fs1, e1, fs1.freereg - 1); }
  }

  lemma AnyRegErr(fs: FS, e: Exp)
    requires fs.err
    ensures Exp2AnyReg(fs, e).fs.err
  {
    hide Exp2NextReg, Exp2Reg;
    var e1 := DischargeVars(e);
    NextRegErr(fs, e1);
    if e1.k.VNonReloc? { Exp2RegErr(fs, e1, e1.k.r); }
  }

  lemma RKErr(fs: FS, e: Exp)
    requires fs.err || Exp2Val(fs, e).fs.err
    ensures Exp2RK(fs, e).fs.err
  {
    hide Exp2AnyReg;
    if fs.err { AnyRegErr(fs, e); }
    AnyRegErr(Exp2Val(fs, e).fs, Exp2Val(fs, e).e);
  }

  lemma JumpOnCondErr(fs: FS, e: Exp, cond: bool)
    requires fs.err || (!e.k.VReloc? && Discharge2AnyReg(fs, e).fs.err)
    ensures JumpOnCond(fs, e, cond).fs.err
  {
  }

  lemma GoIfTrueErr(fs: FS, e: Exp)
    requires fs.err
    ensures GoIfTrue(fs, e).fs.err
  {
    JumpOnCondErr(fs, DischargeVars(e), false);
    hide JumpOnCond;
  }

  lemma GoIfFalseErr(fs: FS, e: Exp)
    requires fs.err
    ensures GoIfFalse(fs, e).fs.err
  {
    JumpOnCondErr(fs, DischargeVars(e), true);
    hide JumpOnCond;
  }

  lemma CodeNotErr(fs: FS, e: Exp)
    requires fs.err
    ensures CodeNot(fs, e).fs.err
  {
  }

  lemma CodeCompErr(fs: FS, op: RelOp, e1: Exp, e2: Exp)
    requires fs.err || Exp2RK(fs, e1).fs.err || Exp2RK(Exp2RK(fs, e1).fs, e2).fs.err
    ensures CodeComp(fs, op, e1, e2).fs.err
  {
    if fs.err { RKErr(fs, e1); }
    if Exp2RK(fs, e1).fs.err { RKErr(Exp2RK(fs, e1).fs, e2); }
    hide Exp2RK;
  }

  lemma {:induction false} CompErr(fs: FS, x: Expr)
    requires fs.err
    ensures Comp(fs, x).fs.err
    decreases x
  {
    hide GoIfTrue, GoIfFalse, CodeNot, CodeComp, Exp2RK;
    match x
    case Not(y) => CompErr(fs, y); CodeNotErr(Comp(fs, y).fs, Comp(fs, y).e);
    case And(l, r) =>
      var g1 := Comp(fs, l);
      CompErr(fs, l); GoIfTrueErr(g1.fs, g1.e); CompErr(GoIfTrue(g1.fs, g1.e).fs, r);
    case Or(l, r) =>
      var g1 := Comp(fs, l);
      CompErr(fs, l); GoIfFalseErr(g1.fs, g1.e); CompErr(GoIfFalse(g1.fs, g1.e).fs, r);
    case Rel(op, l, r) =>
      var g1 := Comp(fs, l);
      var p1 := Exp2RK(g1.fs, g1.e);
      var g2 := Comp(p1.fs, r);
      CompErr(fs, l); RKErr(g1.fs, g1.e); CompErr(p1.fs, r); CodeCompErr(g2.fs, op, p1.e, g2.e);
    case _ =>
  }
}
