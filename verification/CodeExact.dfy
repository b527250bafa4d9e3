/** When the meaning of an expression is preserved (lua/lcode.c:540-595). In `luaK_goiftrue` and
    `luaK_goiffalse` a constant of the wrong truth value needs a jump, and `luaK_jump` puts the jumps that are
    pending to it on the list of the new one. They may carry values, which are not the constant. */
module CodeExact {
  import opened Wrappers
  import opened CodeMachine
  import opened CodeGen
  import opened CodeFlow
  import opened CodeTheorem

  /** Control leaves by a jump that carries another value than the expression has. */
  predicate Loses(a: Option<Way>) { a.Some? && a.value.Leaves? && a.value.c.Some? && a.value.c.value != a.value.w }

  /** In this run no operand of a comparison loses its value. */
  predicate KeepsOperands(cmp: Comparison, fs: FS, x: Expr, R: Regs, c: Option<Value>)
    decreases x
  {
    match x
    case Not(y) => KeepsOperands(cmp, fs, y, R, c)
    case And(l, r) =>
      && KeepsOperands(cmp, fs, l, R, c)
      && var a := CondWay(ShapeFor(l), false, Flow(cmp, fs, l, R, c));
         a.Some? && a.value.Falls? ==> KeepsOperands(cmp, GoIfTrue(Comp(fs, l).fs, Comp(fs, l).e).fs, r, R, a.value.c)
    case Or(l, r) =>
      && KeepsOperands(cmp, fs, l, R, c)
      && var a := CondWay(ShapeFor(l), true, Flow(cmp, fs, l, R, c));
         a.Some? && a.value.Falls? ==> KeepsOperands(cmp, GoIfFalse(Comp(fs, l).fs, Comp(fs, l).e).fs, r, R, a.value.c)
    case Rel(_, l, r) =>
      var (g1, a) := (Comp(fs, l), Flow(cmp, fs, l, R, c));
      var (p1, c1) := (Exp2RK(g1.fs, g1.e), CarryOf(OperandWay(StaysPut(g1.fs, g1.e), a)));
      && KeepsOperands(cmp, fs, l, R, c) && !Loses(a)
      && (a.Some? ==> KeepsOperands(cmp, p1.fs, r, R, c1) && !Loses(Flow(cmp, p1.fs, r, R, c1)))
    case _ => true
  }

  /** The value that a descriptor of this shape stands for. */
  predicate ConstIs(s: Shape, w: Value) {
    match s
    case ConstTrue => w == Bool(true)
    case ConstFalse => w == Bool(false)
    case ConstNumber => w.Num?
    case _ => true
  }

  lemma {:induction false} FlowConst(cmp: Comparison, fs: FS, x: Expr, R: Regs, c: Option<Value>)
    ensures var a := Flow(cmp, fs, x, R, c); a.Some? && a.value.Falls? ==> ConstIs(ShapeFor(x), a.value.w)
    decreases x
  {
    match x
    case Not(y) => FlowConst(cmp, fs, y, R, c);
    case And(l, r) =>
      var a := CondWay(ShapeFor(l), false, Flow(cmp, fs, l, R, c));
      if a.Some? && a.value.Falls? { FlowConst(cmp, GoIfTrue(Comp(fs, l).fs, Comp(fs, l).e).fs, r, R, a.value.c); }
    case Or(l, r) =>
      var a := CondWay(ShapeFor(l), true, Flow(cmp, fs, l, R, c));
      if a.Some? && a.value.Falls? { FlowConst(cmp, GoIfFalse(Comp(fs, l).fs, Comp(fs, l).e).fs, r, R, a.value.c); }
    case _ =>
  }

  /** A condition falls through or leaves by the logical value of its operand. */
  lemma CondLogic(s: Shape, cond: bool, a: Option<Way>)
    requires a.Some? && a.value.Falls? ==> ConstIs(s, a.value.w)
    ensures var a' := CondWay(s, cond, a);
            (a'.None? <==> a.None?)
            && (a.Some? ==> a'.value.w == a.value.w && (a'.value.Leaves? <==> Truthy(a.value.w) == cond))
  {
  }

  /** Control takes the way that the value of the expression demands, whatever the jumps carry. */
  lemma {:induction false} FlowLogic(cmp: Comparison, fs: FS, x: Expr, R: Regs, c: Option<Value>)
    requires KeepsOperands(cmp, fs, x, R, c)
    ensures var a := Flow(cmp, fs, x, R, c); Eval(cmp, x, R) == if a.None? then None else Some(a.value.w)
    decreases x
  {
    hide GoIfTrue, GoIfFalse, Comp, Exp2RK, StaysPut;
    match x
    case Not(y) => FlowLogic(cmp, fs, y, R, c);
    case And(l, r) =>
      FlowLogic(cmp, fs, l, R, c);
      FlowConst(cmp, fs, l, R, c);
      var a := CondWay(ShapeFor(l), false, Flow(cmp, fs, l, R, c));
      CondLogic(ShapeFor(l), false, Flow(cmp, fs, l, R, c));
      hide CondWay;
      if a.Some? && a.value.Falls? { FlowLogic(cmp, GoIfTrue(Comp(fs, l).fs, Comp(fs, l).e).fs, r, R, a.value.c); }
    case Or(l, r) =>
      FlowLogic(cmp, fs, l, R, c);
      FlowConst(cmp, fs, l, R, c);
      var a := CondWay(ShapeFor(l), true, Flow(cmp, fs, l, R, c));
      CondLogic(ShapeFor(l), true, Flow(cmp, fs, l, R, c));
      hide CondWay;
      if a.Some? && a.value.Falls? { FlowLogic(cmp, GoIfFalse(Comp(fs, l).fs, Comp(fs, l).e).fs, r, R, a.value.c); }
    case Rel(op, l, r) =>
      FlowLogic(cmp, fs, l, R, c);
      var g1, a := Comp(fs, l), Flow(cmp, fs, l, R, c);
      if a.Some? { FlowLogic(cmp, Exp2RK(g1.fs, g1.e).fs, r, R, CarryOf(OperandWay(StaysPut(g1.fs, g1.e), a))); }
    case _ =>
  }

  /** If the operands of comparisons keep their values, the code delivers the value of the expression exactly
      if the run does not leave by a jump that carries another value. */
  lemma PreservedUnlessLost(fs: FS, x: Expr, cmp: Comparison, R: Regs)
    requires Ready(fs, x) && KeepsOperands(cmp, fs, x, R, None)
    ensures var fs' := CompileToNextReg(fs, x);
            (Leads(Eval(cmp, x, R), R, fs.freereg, Exec(Env(fs'.K, cmp), Finished(fs'), |fs.code|, R))
             <==> !Loses(Flow(cmp, fs, x, R, None)))
  {
    hide Flow, KeepsOperands, Ready, CompileToNextReg, Finished, Leads;
    MeaningPreserved(fs, x, cmp, R);
    FlowLogic(cmp, fs, x, R, None);
  }

  /** A negation never loses its value, whatever its operand does. */
  lemma NegationPreserves(fs: FS, y: Expr, cmp: Comparison, R: Regs)
    requires Ready(fs, Not(y)) && KeepsOperands(cmp, fs, Not(y), R, None)
    ensures var fs' := CompileToNextReg(fs, Not(y));
            Leads(Eval(cmp, Not(y), R), R, fs.freereg, Exec(Env(fs'.K, cmp), Finished(fs'), |fs.code|, R))
  {
    assert !Loses(Flow(cmp, fs, Not(y), R, None));
    hide Flow, KeepsOperands, Ready, CompileToNextReg, Finished, Leads;
    PreservedUnlessLost(fs, Not(y), cmp, R);
  }

  // ---------------------------------------------------------------- a condition on the syntax

  /** What the jumps of a list may carry: nothing, the value of the expression, or any value. */
  datatype Risk = Nothing | Right | Wrong

  function Worse(a: Risk, b: Risk): Risk {
    if a.Wrong? || b.Wrong? then Wrong else if a.Right? || b.Right? then Right else Nothing
  }

  /** Whether a jump that carries a value may be pending when control falls through, and what the jumps of the
      lists may carry. */
  datatype Risks = Risks(falls: bool, t: Risk, f: Risk)

  function CondRisks(s: Shape, cond: bool, k: Risks): Risks {
    var jump :=
      if NoTest(s, cond) then Nothing
      else if IsArm(s, cond) then (if k.falls then Wrong else Nothing)
      else if s.InRegister? || s.ConstNumber? then Right else Nothing;
    var out := Worse(if cond then k.t else k.f, jump);
    Risks((NoTest(s, cond) && k.falls)
      || (if cond then k.f else k.t) != Nothing, if cond then out else Nothing, if cond then Nothing else out)
  }

  function RisksOf(x: Expr, entering: bool): Risks
    decreases x
  {
    match x
    case Not(y) => Risks(IsConst(ShapeFor(y)) && RisksOf(y, entering).falls, Nothing, Nothing)
    case And(l, r) =>
      var s := CondRisks(ShapeFor(l), false, RisksOf(l, entering));
      var u := RisksOf(r, s.falls);
      u.(f := Worse(u.f, s.f))
    case Or(l, r) =>
      var s := CondRisks(ShapeFor(l), true, RisksOf(l, entering));
      var u := RisksOf(r, s.falls);
      u.(t := Worse(u.t, s.t))
    case Rel(_, _, _) => Risks(false, Nothing, Nothing)
    case _ => Risks(entering, Nothing, Nothing)
  }

  predicate NoWrong(k: Risks) { !k.t.Wrong? && !k.f.Wrong? }

  predicate OperandsSafe(x: Expr, entering: bool)
    decreases x
  {
    match x
    case Not(y) => OperandsSafe(y, entering)
    case And(l, r) => OperandsSafe(l, entering)
      && OperandsSafe(r, CondRisks(ShapeFor(l), false, RisksOf(l, entering)).falls)
    case Or(l, r) => OperandsSafe(l, entering)
      && OperandsSafe(r, CondRisks(ShapeFor(l), true, RisksOf(l, entering)).falls)
    case Rel(_, l, r) =>
      && OperandsSafe(l, entering) && NoWrong(RisksOf(l, entering))
      && OperandsSafe(r, RisksOf(l, entering).falls) && NoWrong(RisksOf(r, RisksOf(l, entering).falls))
    case _ => true
  }

  /** No list that is closed may hold a jump which was merged by a constant arm and still carries a value. */
  predicate Safe(x: Expr) { OperandsSafe(x, false) && NoWrong(RisksOf(x, false)) }

  /** The way is one of those that the risks allow. */
  ghost predicate Allowed(k: Risks, a: Option<Way>) {
    match a
    case None => true
    case Some(Falls(_, c)) => c.Some? ==> k.falls
    case Some(Leaves(w, c)) => c.Some? ==>
      var r := if Truthy(w) then k.t else k.f; !r.Nothing? && (r.Right? ==> c.value == w)
  }

  lemma CondAllowed(s: Shape, cond: bool, k: Risks, a: Option<Way>)
    requires Allowed(k, a) && (a.Some? && a.value.Falls? ==> ConstIs(s, a.value.w))
    ensures Allowed(CondRisks(s, cond, k), CondWay(s, cond, a))
  {
    CondLogic(s, cond, a);
  }

  lemma WorseAllowed(k: Risks, k': Risks, a: Option<Way>)
    requires Allowed(k, a) && (a.Some? && a.value.Falls? && k.falls ==> k'.falls)
    requires k'.t == Worse(k'.t, k.t) && k'.f == Worse(k'.f, k.f)
    ensures Allowed(k', a)
  {
  }

  lemma {:induction false} FlowAllowed(cmp: Comparison, fs: FS, x: Expr, R: Regs, c: Option<Value>, entering: bool)
    requires c.Some? ==> entering
    ensures Allowed(RisksOf(x, entering), Flow(cmp, fs, x, R, c))
    decreases x
  {
    hide GoIfTrue, GoIfFalse, Comp, Exp2RK, StaysPut, Allowed, CondWay, CondRisks, ConstIs;
    match x
    case Not(y) =>
      FlowAllowed(cmp, fs, y, R, c, entering);
      NotAllowed(ShapeFor(y), RisksOf(y, entering), Flow(cmp, fs, y, R, c));
    case And(l, r) => JunctionAllowed(cmp, fs, l, r, R, c, entering, false);
    case Or(l, r) => JunctionAllowed(cmp, fs, l, r, R, c, entering, true);
    case _ => PlainAllowed(cmp, fs, x, R, c, entering);
  }

  lemma PlainAllowed(cmp: Comparison, fs: FS, x: Expr, R: Regs, c: Option<Value>, entering: bool)
    requires c.Some? ==> entering
    requires !x.Not? && !x.And? && !x.Or?
    ensures Allowed(RisksOf(x, entering), Flow(cmp, fs, x, R, c))
  {
  }

  lemma NotAllowed(s: Shape, k: Risks, a: Option<Way>)
    requires Allowed(k, a)
    ensures Allowed(Risks(IsConst(s) && k.falls, Nothing, Nothing), NotWay(s, a))
  {
  }

  lemma JunctionFlow(cmp: Comparison, fs: FS, l: Expr, r: Expr, R: Regs, c: Option<Value>, cond: bool)
    ensures var x, g1 := if cond then Or(l, r) else And(l, r), Comp(fs, l);
            var fs2 := if cond then GoIfFalse(g1.fs, g1.e).fs else GoIfTrue(g1.fs, g1.e).fs;
            var a := CondWay(ShapeFor(l), cond, Flow(cmp, fs, l, R, c));
            Flow(cmp, fs, x, R, c) == if a.Some? && a.value.Falls? then Flow(cmp, fs2, r, R, a.value.c) else a
  {
    hide GoIfTrue, GoIfFalse, Comp, CondWay;
  }

  lemma AndRisks(l: Expr, r: Expr, entering: bool)
    ensures var s := CondRisks(ShapeFor(l), false, RisksOf(l, entering));
            var u := RisksOf(r, s.falls);
            RisksOf(And(l, r), entering) == u.(f := Worse(u.f, s.f))
  {
    hide CondRisks, Worse, ShapeFor;
  }

  lemma OrRisks(l: Expr, r: Expr, entering: bool)
    ensures var s := CondRisks(ShapeFor(l), true, RisksOf(l, entering));
            var u := RisksOf(r, s.falls);
            RisksOf(Or(l, r), entering) == u.(t := Worse(u.t, s.t))
  {
    hide CondRisks, Worse, ShapeFor;
  }

  lemma JunctionRisks(l: Expr, r: Expr, entering: bool, cond: bool)
    ensures var x, s := if cond then Or(l, r) else And(l, r), CondRisks(ShapeFor(l), cond, RisksOf(l, entering));
            var u := RisksOf(r, s.falls);
            RisksOf(x, entering) == if cond then u.(t := Worse(u.t, s.t)) else u.(f := Worse(u.f, s.f))
  {
    hide CondRisks, Worse, ShapeFor, RisksOf;
    if cond { OrRisks(l, r, entering); } else { AndRisks(l, r, entering); }
  }

  lemma {:induction false} JunctionAllowed(cmp: Comparison, fs: FS, l: Expr, r: Expr, R: Regs, c: Option<Value>,
                                           entering: bool, cond: bool)
    requires c.Some? ==> entering
    ensures var x := if cond then Or(l, r) else And(l, r); Allowed(RisksOf(x, entering), Flow(cmp, fs, x, R, c))
    decreases if cond then Or(l, r) else And(l, r), 0
  {
    hide GoIfTrue, GoIfFalse, Comp, CondWay, CondRisks, ConstIs, Allowed, Flow, RisksOf;
    var g1, k, a := Comp(fs, l), RisksOf(l, entering), Flow(cmp, fs, l, R, c);
    var fs2 := if cond then GoIfFalse(g1.fs, g1.e).fs else GoIfTrue(g1.fs, g1.e).fs;
    JunctionFlow(cmp, fs, l, r, R, c, cond);
    JunctionRisks(l, r, entering, cond);
    FlowAllowed(cmp, fs, l, R, c, entering);
    FlowConst(cmp, fs, l, R, c);
    CondAllowed(ShapeFor(l), cond, k, a);
    var s, a1 := CondRisks(ShapeFor(l), cond, k), CondWay(ShapeFor(l), cond, a);
    CondPlain(ShapeFor(l), cond, k);
    var x := if cond then Or(l, r) else And(l, r);
    if a1.Some? && a1.value.Falls? {
      CarryAllowed(s, a1);
      FlowAllowed(cmp, fs2, r, R, a1.value.c, s.falls);
      WorseAllowed(RisksOf(r, s.falls), RisksOf(x, entering), Flow(cmp, fs2, r, R, a1.value.c));
    } else {
      WorseAllowed(s, RisksOf(x, entering), a1);
    }
  }

  lemma CarryAllowed(k: Risks, a: Option<Way>)
    requires Allowed(k, a)
    ensures CarryOf(a).Some? ==> k.falls
  {
  }

  lemma CondPlain(s: Shape, cond: bool, k: Risks)
    ensures var k' := CondRisks(s, cond, k); if cond then k'.f.Nothing? else k'.t.Nothing?
  {
  }

  lemma {:induction false} OperandsKept(cmp: Comparison, fs: FS, x: Expr, R: Regs, c: Option<Value>, entering: bool)
    requires (c.Some? ==> entering) && OperandsSafe(x, entering)
    ensures KeepsOperands(cmp, fs, x, R, c)
    decreases x
  {
    hide GoIfTrue, GoIfFalse, Comp, Exp2RK, StaysPut, CondWay, CondRisks, ConstIs;
    match x
    case Not(y) => OperandsKept(cmp, fs, y, R, c, entering);
    case And(l, r) =>
      OperandsKept(cmp, fs, l, R, c, entering);
      FlowAllowed(cmp, fs, l, R, c, entering);
      FlowConst(cmp, fs, l, R, c);
      CondAllowed(ShapeFor(l), false, RisksOf(l, entering), Flow(cmp, fs, l, R, c));
      var a := CondWay(ShapeFor(l), false, Flow(cmp, fs, l, R, c));
      if a.Some? && a.value.Falls? {
        OperandsKept(cmp, GoIfTrue(Comp(fs, l).fs, Comp(fs, l).e).fs, r, R, a.value.c,
          CondRisks(ShapeFor(l), false, RisksOf(l, entering)).falls);
      }
    case Or(l, r) =>
      OperandsKept(cmp, fs, l, R, c, entering);
      FlowAllowed(cmp, fs, l, R, c, entering);
      FlowConst(cmp, fs, l, R, c);
      CondAllowed(ShapeFor(l), true, RisksOf(l, entering), Flow(cmp, fs, l, R, c));
      var a := CondWay(ShapeFor(l), true, Flow(cmp, fs, l, R, c));
      if a.Some? && a.value.Falls? {
        OperandsKept(cmp, GoIfFalse(Comp(fs, l).fs, Comp(fs, l).e).fs, r, R, a.value.c,
          CondRisks(ShapeFor(l), true, RisksOf(l, entering)).falls);
      }
    case Rel(op, l, r) =>
      OperandsKept(cmp, fs, l, R, c, entering);
      FlowAllowed(cmp, fs, l, R, c, entering);
      var g1, a := Comp(fs, l), Flow(cmp, fs, l, R, c);
      var p1, c1 := Exp2RK(g1.fs, g1.e), CarryOf(OperandWay(StaysPut(g1.fs, g1.e), a));
      OperandsKept(cmp, p1.fs, r, R, c1, RisksOf(l, entering).falls);
      FlowAllowed(cmp, p1.fs, r, R, c1, RisksOf(l, entering).falls);
    case _ =>
  }

  /** What the code of a safe expression leaves is its value, or an error if it has none. */
  lemma SafeComputes(fs: FS, x: Expr, cmp: Comparison, R: Regs)
    requires Safe(x)
    ensures Computed(cmp, fs, x, R) == Eval(cmp, x, R)
  {
    hide Flow, KeepsOperands, RisksOf, OperandsSafe;
    OperandsKept(cmp, fs, x, R, None, false);
    FlowAllowed(cmp, fs, x, R, None, false);
    FlowLogic(cmp, fs, x, R, None);
  }

  /** A safe expression keeps its meaning in every run. */
  lemma SafePreserves(fs: FS, x: Expr, cmp: Comparison, R: Regs)
    requires Ready(fs, x) && Safe(x)
    ensures var fs' := CompileToNextReg(fs, x);
            Leads(Eval(cmp, x, R), R, fs.freereg, Exec(Env(fs'.K, cmp), Finished(fs'), |fs.code|, R))
  {
    hide Flow, KeepsOperands, Ready, CompileToNextReg, Finished, Leads, RisksOf, OperandsSafe;
    OperandsKept(cmp, fs, x, R, None, false);
    FlowAllowed(cmp, fs, x, R, None, false);
    PreservedUnlessLost(fs, x, cmp, R);
  }

  /** No left operand of `and` ends in the constant `false`, no left operand of `or` in the constant `true`. */
  predicate AvoidsArms(x: Expr) {
    match x
    case Not(y) => AvoidsArms(y)
    case And(l, r) => AvoidsArms(l) && AvoidsArms(r) && ShapeFor(l) != ConstFalse
    case Or(l, r) => AvoidsArms(l) && AvoidsArms(r) && ShapeFor(l) != ConstTrue
    case Rel(_, l, r) => AvoidsArms(l) && AvoidsArms(r)
    case _ => true
  }

  /** Expressions that never use the constant arms are safe. */
  lemma {:induction false} AvoidingIsSafe(x: Expr, entering: bool)
    requires AvoidsArms(x)
    ensures OperandsSafe(x, entering) && NoWrong(RisksOf(x, entering))
    decreases x
  {
    match x
    case Not(y) => AvoidingIsSafe(y, entering);
    case And(l, r) =>
      AvoidingIsSafe(l, entering);
      AvoidingIsSafe(r, CondRisks(ShapeFor(l), false, RisksOf(l, entering)).falls);
    case Or(l, r) =>
      AvoidingIsSafe(l, entering);
      AvoidingIsSafe(r, CondRisks(ShapeFor(l), true, RisksOf(l, entering)).falls);
    case Rel(_, l, r) => AvoidingIsSafe(l, entering); AvoidingIsSafe(r, RisksOf(l, entering).falls);
    case _ =>
  }

  // ---------------------------------------------------------------- the constant arms

  /** `((x or false) and true) or false` for a local `x`. */
  function LostTruth(r: nat): Expr { Or(And(Or(Local(r), Falsity), Truth), Falsity) }

  /** Its value is `true` for every `x` that is neither nil nor false, but its code leaves `x`: it is compiled
      correctly exactly for nil, false and `true`. */
  lemma LostTruthExactly(fs: FS, r: nat, cmp: Comparison, R: Regs)
    requires Ready(fs, LostTruth(r))
    ensures var fs' := CompileToNextReg(fs, LostTruth(r));
            (Leads(Eval(cmp, LostTruth(r), R), R, fs.freereg, Exec(Env(fs'.K, cmp), Finished(fs'), |fs.code|, R))
             <==> !Truthy(R(r)) || R(r) == Bool(true))
  {
    LostTruthFlow(fs, r, cmp, R);
    hide Flow, KeepsOperands, Ready, CompileToNextReg, Finished, Leads, LostTruth;
    PreservedUnlessLost(fs, LostTruth(r), cmp, R);
  }

  lemma ShapeOfJunction(l: Expr, r: Expr)
    ensures ShapeFor(And(l, r)) == ShapeFor(r) && ShapeFor(Or(l, r)) == ShapeFor(r)
    ensures ShapeFor(Truth) == ConstTrue && ShapeFor(Falsity) == ConstFalse && ShapeFor(Numeral(1)) == ConstNumber
  {
  }

  lemma LostTruthFlow(fs: FS, r: nat, cmp: Comparison, R: Regs)
    ensures KeepsOperands(cmp, fs, LostTruth(r), R, None)
    ensures Loses(Flow(cmp, fs, LostTruth(r), R, None)) <==> Truthy(R(r)) && R(r) != Bool(true)
  {
    var x, y := Or(Local(r), Falsity), And(Or(Local(r), Falsity), Truth);
    hide GoIfTrue, GoIfFalse, Comp;
    ShapeOfJunction(Local(r), Falsity);
    ShapeOfJunction(x, Truth);
    assert KeepsOperands(cmp, fs, x, R, None);
    assert Flow(cmp, fs, x, R, None)
           == Some(if Truthy(R(r)) then Leaves(R(r), Some(R(r))) else Falls(Bool(false), None));
    assert Flow(cmp, fs, y, R, None)
           == Some(if Truthy(R(r)) then Falls(Bool(true), Some(R(r))) else Leaves(Bool(false), None));
    assert KeepsOperands(cmp, fs, y, R, None);
  }

  /** `((x and 1) or true) or y`. */
  function LostFalsity(r: nat, y: Expr): Expr { Or(Or(And(Local(r), Numeral(1)), Truth), y) }

  /** Its value is never nil or false, but for such an `x` its code leaves `x`. */
  lemma LostFalsityExactly(fs: FS, r: nat, y: Expr, cmp: Comparison, R: Regs)
    requires Ready(fs, LostFalsity(r, y))
    ensures var fs' := CompileToNextReg(fs, LostFalsity(r, y));
            (Leads(Eval(cmp, LostFalsity(r, y), R), R, fs.freereg, Exec(Env(fs'.K, cmp), Finished(fs'), |fs.code|, R))
             <==> Truthy(R(r)))
  {
    LostFalsityFlow(fs, r, y, cmp, R);
    hide Flow, KeepsOperands, Ready, CompileToNextReg, Finished, Leads, LostFalsity;
    PreservedUnlessLost(fs, LostFalsity(r, y), cmp, R);
  }

  lemma LostFalsityFlow(fs: FS, r: nat, y: Expr, cmp: Comparison, R: Regs)
    ensures KeepsOperands(cmp, fs, LostFalsity(r, y), R, None)
    ensures Loses(Flow(cmp, fs, LostFalsity(r, y), R, None)) <==> !Truthy(R(r))
  {
    var x, z := And(Local(r), Numeral(1)), Or(And(Local(r), Numeral(1)), Truth);
    hide GoIfTrue, GoIfFalse, Comp;
    ShapeOfJunction(Local(r), Numeral(1));
    ShapeOfJunction(x, Truth);
    assert KeepsOperands(cmp, fs, x, R, None);
    assert Flow(cmp, fs, x, R, None) == Some(if Truthy(R(r)) then Falls(Num(1), None) else Leaves(R(r), Some(R(r))));
    assert Flow(cmp, fs, z, R, None)
           == Some(if Truthy(R(r)) then Leaves(Num(1), Some(Num(1))) else Falls(Bool(true), Some(R(r))));
    assert KeepsOperands(cmp, fs, z, R, None);
  }

  /** Under a negation the same expression is compiled correctly, though it uses the constant arms. */
  lemma NegatedIsSafe(r: nat)
    ensures Safe(Not(LostTruth(r))) && !Safe(LostTruth(r)) && !AvoidsArms(Not(LostTruth(r)))
  {
    var x := Or(Local(r), Falsity);
    var y := And(x, Truth);
    ShapeOfJunction(Local(r), Falsity);
    ShapeOfJunction(x, Truth);
    assert RisksOf(Local(r), false) == Risks(false, Nothing, Nothing) && OperandsSafe(Local(r), false)
           && OperandsSafe(Falsity, false);
    assert RisksOf(x, false) == Risks(false, Right, Nothing);
    assert OperandsSafe(x, false);
    assert RisksOf(y, false) == Risks(true, Nothing, Nothing);
    assert OperandsSafe(y, false);
    assert RisksOf(LostTruth(r), false).t == Wrong;
    assert OperandsSafe(LostTruth(r), false);
    assert !AvoidsArms(y);
  }

  // ---------------------------------------------------------------- comparing numbers

  /** The three comparison instructions on numbers. */
  ghost predicate OrdersNumbers(cmp: Comparison) {
    forall a: int, b: int ::
      cmp(OpEq, Num(a), Num(b)) == Some(a == b) && cmp(OpLt, Num(a), Num(b)) == Some(a < b)
      && cmp(OpLe, Num(a), Num(b)) == Some(a <= b)
  }

  predicate Holds(op: RelOp, a: int, b: int) {
    match op
    case Eq => a == b
    case Ne => a != b
    case Lt => a < b
    case Le => a <= b
    case Gt => a > b
    case Ge => a >= b
  }

  /** The code of a comparison of two safe expressions whose values are numbers leaves the truth of the comparison. */
  lemma NumbersCompare(fs: FS, op: RelOp, l: Expr, r: Expr, cmp: Comparison, R: Regs, a: int, b: int)
    requires Ready(fs, Rel(op, l, r)) && Safe(Rel(op, l, r)) && OrdersNumbers(cmp)
    requires Eval(cmp, l, R) == Some(Num(a)) && Eval(cmp, r, R) == Some(Num(b))
    ensures var fs' := CompileToNextReg(fs, Rel(op, l, r));
            Leads(Some(Bool(Holds(op, a, b))), R, fs.freereg,
                  Exec(Env(fs'.K, cmp), Finished(fs'), |fs.code|, R))
  {
    hide Safe, Ready, CompileToNextReg, Finished, Leads;
    SafePreserves(fs, Rel(op, l, r), cmp, R);
    assert cmp(OpEq, Num(a), Num(b)) == Some(a == b);
    assert cmp(OpLt, Num(b), Num(a)) == Some(b < a) && cmp(OpLe, Num(b), Num(a)) == Some(b <= a);
  }
}
