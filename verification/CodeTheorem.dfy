/** The code of every logical expression does what `Flow` says, and so preserves the meaning of the expression
    exactly where `Flow` delivers its value. */
module CodeTheorem {
  import opened Wrappers
  import opened CodeMachine
  import opened CodeGen
  import opened CodeFlow
  import opened CodeState
  import opened CodeSteps
  import opened CodeConditions
  import opened CodeSequel
  import opened CodeCompare

  // ---------------------------------------------------------------- constants only grow

  lemma JumpOnCondGrows(fs: FS, e: Exp, cond: bool)
    ensures fs.K <= JumpOnCond(fs, e, cond).fs.K
  {
  }

  lemma GoIfTrueGrows(fs: FS, e: Exp)
    ensures fs.K <= GoIfTrue(fs, e).fs.K
  {
    JumpOnCondGrows(fs, DischargeVars(e), false);
    hide JumpOnCond;
  }

  lemma GoIfFalseGrows(fs: FS, e: Exp)
    ensures fs.K <= GoIfFalse(fs, e).fs.K
  {
    JumpOnCondGrows(fs, DischargeVars(e), true);
    hide JumpOnCond;
  }

  lemma CodeNotGrows(fs: FS, e: Exp)
    ensures fs.K <= CodeNot(fs, e).fs.K
  {
  }

  lemma RKGrows(fs: FS, e: Exp)
    ensures fs.K <= Exp2RK(fs, e).fs.K
  {
    AnyRegGrows(fs, e);
    OperateGrows(Exp2Val(fs, e).fs, Exp2Val(fs, e).e);
    hide Operate, Exp2AnyReg;
  }

  lemma CodeCompGrows(fs: FS, op: RelOp, e1: Exp, e2: Exp)
    ensures fs.K <= CodeComp(fs, op, e1, e2).fs.K
  {
    RKGrows(fs, e1);
    RKGrows(Exp2RK(fs, e1).fs, e2);
    hide Exp2RK;
  }

  lemma NextRegGrows(fs: FS, e: Exp)
    ensures fs.K <= Exp2NextReg(fs, e).fs.K
  {
    var e1 := DischargeVars(e);
    var fs1 := ReserveReg(FreeExp(fs, e1));
    hide Exp2Reg;
    RegGrows(fs1, e1, if fs1.freereg > 0 then fs1.freereg - 1 else 0);
  }

  lemma {:induction false} CompGrows(fs: FS, x: Expr)
    ensures fs.K <= Comp(fs, x).fs.K
    decreases x
  {
    hide GoIfTrue, GoIfFalse, CodeNot, CodeComp, Exp2RK;
    match x
    case Not(y) => CompGrows(fs, y); CodeNotGrows(Comp(fs, y).fs, Comp(fs, y).e);
    case And(l, r) =>
      var g1 := Comp(fs, l);
      CompGrows(fs, l); GoIfTrueGrows(g1.fs, g1.e); CompGrows(GoIfTrue(g1.fs, g1.e).fs, r);
    case Or(l, r) =>
      var g1 := Comp(fs, l);
      CompGrows(fs, l); GoIfFalseGrows(g1.fs, g1.e); CompGrows(GoIfFalse(g1.fs, g1.e).fs, r);
    case Rel(op, l, r) =>
      var g1 := Comp(fs, l);
      var p1 := Exp2RK(g1.fs, g1.e);
      var g2 := Comp(p1.fs, r);
      CompGrows(fs, l); RKGrows(g1.fs, g1.e); CompGrows(p1.fs, r); CodeCompGrows(g2.fs, op, p1.e, g2.e);
    case _ =>
  }

  // ---------------------------------------------------------------- the main induction

  /** Where an expression over the first `nactvar` registers may be compiled. */
  ghost predicate Ready(fs: FS, x: Expr) {
    StartOk(fs) && fs.nactvar <= fs.freereg && LocalsBelow(x, fs.nactvar)
  }

  lemma SimpleOk(env: Env, fs: FS, k: Kind, x: Expr)
    requires Ready(fs, x)
    requires match x
             case Truth => k == VTrue
             case Falsity => k == VFalse
             case Numeral(n) => k == VKNum(n)
             case Local(r) => k == VLocal(r)
             case _ => false
    ensures Ok(env, fs, fs, Exp(k, [], []), AsValue, MeaningOf(env.cmp, fs, x))
  {
    LaterSelf(fs.code, Jumps(fs.jpc));
    forall q, R | Entry(fs, q)
      ensures Yields(env, fs, Exp(k, [], []), AsValue, fs.freereg, WayFrom(MeaningOf(env.cmp, fs, x), fs, q, R), R,
              Take(env, fs.code, q, R))
    {
      if q == |fs.code| { TakeStart(env, fs.code, fs.code, R); }
    }
  }

  lemma NextReady(env: Env, fs0: FS, fs: FS, e: Exp, mode: Mode, m: Meaning, r: Expr)
    requires Ok(env, fs0, fs, e, mode, m) && (mode != AsValue || !Unfinished(e.k))
    requires LocalsBelow(r, fs0.nactvar)
    ensures Ready(fs, r) && LocalsBelow(r, fs0.freereg)
    ensures mode != AsValue ==> fs.freereg == fs0.freereg
  {
    Weaker(r, fs0.nactvar, fs0.freereg);
  }

  lemma {:induction false} Weaker(x: Expr, m: nat, n: nat)
    requires LocalsBelow(x, m) && m <= n
    ensures LocalsBelow(x, n)
  {
    match x
    case Not(y) => Weaker(y, m, n);
    case And(l, r) => Weaker(l, m, n); Weaker(r, m, n);
    case Or(l, r) => Weaker(l, m, n); Weaker(r, m, n);
    case Rel(_, l, r) => Weaker(l, m, n); Weaker(r, m, n);
    case _ =>
  }

  lemma LocalMeaning(cmp: Comparison, fs: FS, x: Expr, base: nat)
    requires LocalsBelow(x, base)
    ensures Locally(MeaningOf(cmp, fs, x), base)
  {
    forall R, R', c | Agree(R, R', base, -1) ensures Flow(cmp, fs, x, R', c) == Flow(cmp, fs, x, R, c) {
      FlowAgrees(cmp, fs, x, R, R', c, base);
    }
  }

  /** `luaK_posfix` for `and` and `or`. */
  lemma JoinOk(env: Env, fs0: FS, g2: Gen, g3: Gen, cond: bool, m1: Meaning, m2: Meaning)
    requires Ok(env, fs0, g2.fs, g2.e, Otherwise(cond), m1) && (if cond then g2.e.f == [] else g2.e.t == [])
    requires Ok(env, g2.fs, g3.fs, g3.e, AsValue, m2)
    requires Locally(m2, fs0.freereg) && g2.fs.freereg == fs0.freereg
             && (g3.e.k.VNonReloc? ==> g3.e.k.r < g3.fs.nactvar)
    ensures var fs := if cond then Linked(g3.fs, g3.e.t, g2.e.t) else Linked(g3.fs, g3.e.f, g2.e.f);
            Ok(env, fs0, fs, Merged(DischargeVars(g3.e), g2.e, cond), AsValue, Seq(m1, m2))
  {
    var fs := if cond then Linked(g3.fs, g3.e.t, g2.e.t) else Linked(g3.fs, g3.e.f, g2.e.f);
    var e3 := DischargeVars(g3.e);
    DischargeVarsOk(env, g2.fs, g3.fs, g3.e, m2);
    JoinRegs(fs0, g2, g3.fs, e3, fs, cond);
    JunctionSound(env, fs0, g2.fs, g2.e, g3.fs, e3, cond, m1, m2);
    hide Ok, RegsOk;
    SameCode(env, fs0, g3.fs, fs, Merged(e3, g2.e, cond), Merged(e3, g2.e, cond), AsValue, Seq(m1, m2));
    OkIs(env, fs0, fs, Merged(e3, g2.e, cond), Seq(m1, m2));
  }

  lemma OkIs(env: Env, fs0: FS, fs: FS, e: Exp, m: Meaning)
    requires Sound(env, fs0, fs, e, AsValue, m) && RegsOk(fs0, fs, e, AsValue)
    ensures Ok(env, fs0, fs, e, AsValue, m)
  {
  }

  lemma JoinRegs(fs0: FS, g2: Gen, fs3: FS, e3: Exp, fs: FS, cond: bool)
    requires RegsOk(fs0, g2.fs, g2.e, Otherwise(cond)) && RegsOk(g2.fs, fs3, e3, AsValue)
    requires g2.fs.freereg == fs0.freereg && fs == fs3.(err := fs.err)
    requires e3.k.VNonReloc? ==> e3.k.r < fs3.nactvar
    ensures RegsOk(fs0, fs, Merged(e3, g2.e, cond), AsValue)
  {
  }

  lemma SameOk(env: Env, fs0: FS, fs: FS, e: Exp, m: Meaning, m': Meaning)
    requires Ok(env, fs0, fs, e, AsValue, m) && SameWays(m, m')
    ensures Ok(env, fs0, fs, e, AsValue, m')
  {
    SameMeaning(env, fs0, fs, e, AsValue, m, m');
  }

  ghost predicate Compiled(env: Env, fs: FS, x: Expr) {
    var g := Comp(fs, x);
    Ok(env, fs, g.fs, g.e, AsValue, MeaningOf(env.cmp, fs, x)) && !g.e.k.VK?
    && (g.e.k.VNonReloc? ==> g.e.k.r < fs.nactvar)
  }

  /** The code generated for an expression does what `Flow` says, whatever was generated before, and its patch
      lists hold open jumps, each in one list and once. */
  lemma {:induction false} CompOk(env: Env, fs: FS, x: Expr)
    requires Ready(fs, x) && Comp(fs, x).fs.K <= env.K
    ensures Compiled(env, fs, x)
    decreases x, 1
  {
    match x
    case Truth => SimpleOk(env, fs, VTrue, x);
    case Falsity => SimpleOk(env, fs, VFalse, x);
    case Numeral(n) => SimpleOk(env, fs, VKNum(n), x);
    case Local(r) => SimpleOk(env, fs, VLocal(r), x);
    case Not(y) => NotOk(env, fs, y);
    case And(l, r) => AndOk(env, fs, l, r);
    case Or(l, r) => OrOk(env, fs, l, r);
    case Rel(op, l, r) => RelOk(env, fs, op, l, r);
  }

  lemma {:induction false} NotOk(env: Env, fs: FS, y: Expr)
    requires Ready(fs, Not(y)) && Comp(fs, Not(y)).fs.K <= env.K
    ensures Compiled(env, fs, Not(y))
    decreases Not(y), 0
  {
    var g := Comp(fs, y);
    var m, m' := MeaningOf(env.cmp, fs, y), Via(MeaningOf(env.cmp, fs, y), a => NotWay(ShapeOf(g.e.k), a));
    CodeNotGrows(g.fs, g.e);
    CompShape(fs, y);
    CompShape(fs, Not(y));
    NegatedIsNotRegister(fs, y);
    hide Ok, CodeNot;
    CompOk(env, fs, y);
    CodeNotOk(env, fs, g.fs, g.e, m);
    assert SameWays(m', MeaningOf(env.cmp, fs, Not(y)));
    SameOk(env, fs, CodeNot(g.fs, g.e).fs, CodeNot(g.fs, g.e).e, m', MeaningOf(env.cmp, fs, Not(y)));
  }

  lemma NegatedIsNotRegister(fs: FS, y: Expr)
    ensures !Comp(fs, Not(y)).e.k.VNonReloc?
  {
    hide Comp;
    CompShape(fs, Not(y));
  }

  lemma CompAndIs(fs: FS, l: Expr, r: Expr)
    ensures var g1 := Comp(fs, l); var g2 := GoIfTrue(g1.fs, g1.e); var g3 := Comp(g2.fs, r);
            Comp(fs, And(l, r)) == Gen(Linked(g3.fs, g3.e.f, g2.e.f), DischargeVars(g3.e).(f := g3.e.f + g2.e.f))
  {
    hide GoIfTrue, GoIfFalse, CodeNot, CodeComp, Exp2RK, Linked, DischargeVars;
  }

  lemma CompOrIs(fs: FS, l: Expr, r: Expr)
    ensures var g1 := Comp(fs, l); var g2 := GoIfFalse(g1.fs, g1.e); var g3 := Comp(g2.fs, r);
            Comp(fs, Or(l, r)) == Gen(Linked(g3.fs, g3.e.t, g2.e.t), DischargeVars(g3.e).(t := g3.e.t + g2.e.t))
  {
    hide GoIfTrue, GoIfFalse, CodeNot, CodeComp, Exp2RK, Linked, DischargeVars;
  }

  lemma CompRelIs(fs: FS, op: RelOp, l: Expr, r: Expr)
    ensures var g1 := Comp(fs, l); var p1 := Exp2RK(g1.fs, g1.e); var g2 := Comp(p1.fs, r);
            Comp(fs, Rel(op, l, r)) == CodeComp(g2.fs, op, p1.e, g2.e)
  {
    hide GoIfTrue, GoIfFalse, CodeNot, CodeComp, Exp2RK, Linked, DischargeVars;
  }

  lemma GoIfTrueEmpties(fs: FS, e: Exp)
    ensures GoIfTrue(fs, e).e.t == []
  {
  }

  lemma GoIfFalseEmpties(fs: FS, e: Exp)
    ensures GoIfFalse(fs, e).e.f == []
  {
  }

  lemma JunctionReady(fs: FS, l: Expr, r: Expr)
    requires Ready(fs, And(l, r)) || Ready(fs, Or(l, r))
    ensures Ready(fs, l) && LocalsBelow(l, fs.nactvar) && LocalsBelow(r, fs.nactvar)
  {
  }

  lemma AndWays(cmp: Comparison, fs: FS, l: Expr, r: Expr, m1: Meaning, m2: Meaning)
    requires var g1 := Comp(fs, l);
             && ShapeOf(g1.e.k) == ShapeFor(l)
             && m1 == Via(MeaningOf(cmp, fs, l), a => CondWay(ShapeOf(g1.e.k), false, a))
             && m2 == MeaningOf(cmp, GoIfTrue(g1.fs, g1.e).fs, r)
    ensures SameWays(Seq(m1, m2), MeaningOf(cmp, fs, And(l, r)))
  {
    hide Comp, GoIfTrue, GoIfFalse, CondWay;
  }

  lemma {:induction false} AndOk(env: Env, fs: FS, l: Expr, r: Expr)
    requires Ready(fs, And(l, r)) && Comp(fs, And(l, r)).fs.K <= env.K
    ensures Compiled(env, fs, And(l, r))
    decreases And(l, r), 0
  {
    var g1 := Comp(fs, l);
    var g2 := GoIfTrue(g1.fs, g1.e);
    var g3 := Comp(g2.fs, r);
    CompAndIs(fs, l, r);
    assert Linked(g3.fs, g3.e.f, g2.e.f).K == g3.fs.K
           && Comp(fs, And(l, r)).e == Merged(DischargeVars(g3.e), g2.e, false);
    hide Comp, GoIfTrue, Ok, Linked, Merged, DischargeVars, Locally, LocalsBelow, CondWay, MeaningOf;
    assert g2.e.t == [] by { GoIfTrueEmpties(g1.fs, g1.e); }
    GoIfTrueGrows(g1.fs, g1.e); CompGrows(g2.fs, r); CompShape(fs, l);
    JunctionReady(fs, l, r);
    CompOk(env, fs, l);
    var m1, m2 := Via(MeaningOf(env.cmp, fs, l), a => CondWay(ShapeOf(g1.e.k), false, a)), MeaningOf(env.cmp, g2.fs, r);
    GoIfTrueOk(env, fs, g1.fs, g1.e, MeaningOf(env.cmp, fs, l));
    NextReady(env, fs, g2.fs, g2.e, IsTrue, m1, r);
    CompOk(env, g2.fs, r);
    LocalMeaning(env.cmp, g2.fs, r, fs.freereg);
    JoinedOk(env, fs, g1.e, g2, g3, false, m1, m2);
    AndWays(env.cmp, fs, l, r, m1, m2);
    SameOk(env, fs, Comp(fs, And(l, r)).fs, Comp(fs, And(l, r)).e, Seq(m1, m2), MeaningOf(env.cmp, fs, And(l, r)));
  }

  lemma JoinedOk(env: Env, fs: FS, e1: Exp, g2: Gen, g3: Gen, cond: bool, m1: Meaning, m2: Meaning)
    requires Ok(env, fs, g2.fs, g2.e, Otherwise(cond), m1) && (if cond then g2.e.f == [] else g2.e.t == [])
    requires Ok(env, g2.fs, g3.fs, g3.e, AsValue, m2) && !g3.e.k.VK? && (g3.e.k.VNonReloc? ==> g3.e.k.r < g2.fs.nactvar)
    requires Locally(m2, fs.freereg)
    ensures var fs' := if cond then Linked(g3.fs, g3.e.t, g2.e.t) else Linked(g3.fs, g3.e.f, g2.e.f);
            var e := Merged(DischargeVars(g3.e), g2.e, cond);
            Ok(env, fs, fs', e, AsValue, Seq(m1, m2)) && !e.k.VK? && (e.k.VNonReloc? ==> e.k.r < fs.nactvar)
  {
    assert g2.fs.freereg == fs.freereg && g2.fs.nactvar == fs.nactvar && g3.fs.nactvar == fs.nactvar;
    assert g3.e.k.VLocal? ==> g3.e.k.r < fs.nactvar;
    hide Ok;
    JoinOk(env, fs, g2, g3, cond, m1, m2);
  }

  lemma OrWays(cmp: Comparison, fs: FS, l: Expr, r: Expr, m1: Meaning, m2: Meaning)
    requires var g1 := Comp(fs, l);
             && ShapeOf(g1.e.k) == ShapeFor(l)
             && m1 == Via(MeaningOf(cmp, fs, l), a => CondWay(ShapeOf(g1.e.k), true, a))
             && m2 == MeaningOf(cmp, GoIfFalse(g1.fs, g1.e).fs, r)
    ensures SameWays(Seq(m1, m2), MeaningOf(cmp, fs, Or(l, r)))
  {
    hide Comp, GoIfTrue, GoIfFalse, CondWay;
  }

  lemma {:induction false} OrOk(env: Env, fs: FS, l: Expr, r: Expr)
    requires Ready(fs, Or(l, r)) && Comp(fs, Or(l, r)).fs.K <= env.K
    ensures Compiled(env, fs, Or(l, r))
    decreases Or(l, r), 0
  {
    var g1 := Comp(fs, l);
    var g2 := GoIfFalse(g1.fs, g1.e);
    var g3 := Comp(g2.fs, r);
    CompOrIs(fs, l, r);
    assert Linked(g3.fs, g3.e.t, g2.e.t).K == g3.fs.K
           && Comp(fs, Or(l, r)).e == Merged(DischargeVars(g3.e), g2.e, true);
    hide Comp, GoIfFalse, Ok, Linked, Merged, DischargeVars, Locally, LocalsBelow, CondWay, MeaningOf;
    assert g2.e.f == [] by { GoIfFalseEmpties(g1.fs, g1.e); }
    GoIfFalseGrows(g1.fs, g1.e); CompGrows(g2.fs, r); CompShape(fs, l);
    JunctionReady(fs, l, r);
    CompOk(env, fs, l);
    var m1, m2 := Via(MeaningOf(env.cmp, fs, l), a => CondWay(ShapeOf(g1.e.k), true, a)), MeaningOf(env.cmp, g2.fs, r);
    GoIfFalseOk(env, fs, g1.fs, g1.e, MeaningOf(env.cmp, fs, l));
    NextReady(env, fs, g2.fs, g2.e, IsFalse, m1, r);
    CompOk(env, g2.fs, r);
    LocalMeaning(env.cmp, g2.fs, r, fs.freereg);
    JoinedOk(env, fs, g1.e, g2, g3, true, m1, m2);
    OrWays(env.cmp, fs, l, r, m1, m2);
    SameOk(env, fs, Comp(fs, Or(l, r)).fs, Comp(fs, Or(l, r)).e, Seq(m1, m2), MeaningOf(env.cmp, fs, Or(l, r)));
  }

  lemma RelReady(fs: FS, op: RelOp, l: Expr, r: Expr)
    requires Ready(fs, Rel(op, l, r))
    ensures Ready(fs, l) && LocalsBelow(l, fs.nactvar) && LocalsBelow(r, fs.nactvar)
  {
  }

  lemma RelWays(cmp: Comparison, fs: FS, op: RelOp, l: Expr, r: Expr)
    ensures var g1 := Comp(fs, l);
            var p1 := Exp2RK(g1.fs, g1.e);
            var g2 := Comp(p1.fs, r);
            SameWays(RelMeaning(cmp, op, OperandMeaning(g1.fs, g1.e, MeaningOf(cmp, fs, l)),
              OperandMeaning(g2.fs, g2.e, MeaningOf(cmp, p1.fs, r))),
                     MeaningOf(cmp, fs, Rel(op, l, r)))
  {
    hide Comp, Exp2RK, StaysPut;
  }

  lemma {:induction false} RelOk(env: Env, fs: FS, op: RelOp, l: Expr, r: Expr)
    requires Ready(fs, Rel(op, l, r)) && Comp(fs, Rel(op, l, r)).fs.K <= env.K
    ensures Compiled(env, fs, Rel(op, l, r))
    decreases Rel(op, l, r), 0
  {
    var g1 := Comp(fs, l);
    var p1 := Exp2RK(g1.fs, g1.e);
    var g2 := Comp(p1.fs, r);
    RelReady(fs, op, l, r);
    hide Ready, Comp, Exp2RK, Ok, CodeComp, StaysPut, LocalsBelow, MeaningOf, Locally, OperandMeaning, RelMeaning;
    CompRelIs(fs, op, l, r);
    RelWays(env.cmp, fs, op, l, r);
    RKGrows(g1.fs, g1.e); CompGrows(p1.fs, r); CodeCompGrows(g2.fs, op, p1.e, g2.e);
    CompOk(env, fs, l);
    var m1, m2 := OperandMeaning(g1.fs, g1.e, MeaningOf(env.cmp, fs, l)), MeaningOf(env.cmp, p1.fs, r);
    Exp2RKOk(env, fs, g1.fs, g1.e, MeaningOf(env.cmp, fs, l));
    NextReady(env, fs, p1.fs, p1.e, AsValue, m1, r);
    CompOk(env, p1.fs, r);
    LocalMeaning(env.cmp, p1.fs, r, fs.freereg);
    CodeCompOk(env, fs, p1, g2, op, m1, m2);
    var m, m' := RelMeaning(env.cmp, op, m1, OperandMeaning(g2.fs, g2.e, m2)), MeaningOf(env.cmp, fs, Rel(op, l, r));
    SameOk(env, fs, Comp(fs, Rel(op, l, r)).fs, Comp(fs, Rel(op, l, r)).e, m, m');
  }

  // ---------------------------------------------------------------- main results

  /** `expr` followed by `luaK_exp2nextreg`, as for the value of a local declaration. */
  function CompileToNextReg(fs: FS, x: Expr): FS {
    var g := Comp(fs, x);
    Exp2NextReg(g.fs, g.e).fs
  }

  /** The code once the next instruction has made the jumps that are pending to it go there. */
  function Finished(fs: FS): seq<Instr> { DischargeJpc(fs).code }

  /** Control reaches the end with `v` in `target` and all registers below as they were; if there is no value,
      an error is raised. */
  ghost predicate Leads(v: Option<Value>, R: Regs, target: nat, o: Outcome) {
    match v
    case None => o == Error
    case Some(w) => o.Reach? && o.R(target) == w && Agree(R, o.R, target, -1)
  }

  /** The value that running the code of `x` leaves in the register; `None` if it raises an error. */
  function Computed(cmp: Comparison, fs: FS, x: Expr, R: Regs): Option<Value> {
    var a := Flow(cmp, fs, x, R, None);
    if a.None? then None else Some(Delivered(a.value))
  }

  /** For every expression, the compiled code leaves exactly the computed value in the next register, touches
      no register below, and raises an error exactly if there is no value. */
  lemma CodeComputes(fs: FS, x: Expr, cmp: Comparison, R: Regs)
    requires Ready(fs, x)
    ensures var fs' := CompileToNextReg(fs, x);
            Leads(Computed(cmp, fs, x, R), R, fs.freereg, Exec(Env(fs'.K, cmp), Finished(fs'), |fs.code|, R))
  {
    var g, fs' := Comp(fs, x), CompileToNextReg(fs, x);
    var env, e', m := Env(fs'.K, cmp), Exp(VNonReloc(fs.freereg), [], []), Via(MeaningOf(cmp, fs, x), Closed);
    hide Exp2NextReg, Comp, Finished;
    NextRegGrows(g.fs, g.e);
    CompOk(env, fs, x);
    assert g.fs.nactvar == fs.nactvar;
    hide Ok, Ready;
    Exp2NextRegOk(env, fs, g.fs, g.e, MeaningOf(cmp, fs, x));
    FinishedRun(env, fs, fs', e', m, R);
    assert m(R, None) == Closed(Flow(cmp, fs, x, R, None));
  }

  lemma FinishedRun(env: Env, fs: FS, fs': FS, e': Exp, m: Meaning, R: Regs)
    requires Ok(env, fs, fs', e', AsValue, m) && e' == Exp(VNonReloc(fs.freereg), [], [])
    ensures var a := m(R, None);
            (a.Some? ==> a.value.Falls?) ==>
            Leads(if a.None? then None else Some(a.value.w), R, fs.freereg, Exec(env, Finished(fs'), |fs.code|, R))
  {
    var code, q, o := Finished(fs'), |fs.code|, Take(env, fs'.code, |fs.code|, R);
    assert code[..|code|] == code && Continues(fs'.code, fs'.jpc, code);
    ContinuesWellFormed(fs'.code, fs'.jpc, code);
    ContinuesLater(fs'.code, fs'.jpc, code);
    LaterTwice(fs.code, Jumps(fs.jpc), fs'.code, Jumps(fs'.jpc), code);
    TakeStart(env, fs.code, fs.code, R);
    TakeStart(env, fs.code, code, R);
    assert Yields(env, fs', e', AsValue, fs.freereg, WayFrom(m, fs, q, R), R, o);
    YieldsProper(env, fs, fs', e', AsValue, fs.freereg, m(R, None), R, o);
    Continue(env, fs'.code, fs'.jpc, code, q, R);
    if o.Reach? || o.Exit? { assert Exec(env, code, |fs'.code|, o.R) == Reach(o.R); }
  }

  /** The code of `x` preserves its meaning in a run exactly if the computed value is the value of `x`. */
  lemma MeaningPreserved(fs: FS, x: Expr, cmp: Comparison, R: Regs)
    requires Ready(fs, x)
    ensures var fs' := CompileToNextReg(fs, x);
            (Leads(Eval(cmp, x, R), R, fs.freereg, Exec(Env(fs'.K, cmp), Finished(fs'), |fs.code|, R))
             <==> Computed(cmp, fs, x, R) == Eval(cmp, x, R))
  {
    CodeComputes(fs, x, cmp, R);
  }
}
