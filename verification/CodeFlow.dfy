/** What the code of an expression computes, read off the expression: how control leaves it, and which value
    the jump that control leaves by carries with it. */
module CodeFlow {
  import opened Wrappers
  import opened CodeMachine
  import opened CodeGen

  /** Control falls through, or leaves by a jump of the list for its truth value. `w` is the logical value.
      `c` is the value that the jump carries by which control has come to the end or leaves. */
  datatype Way = Falls(w: Value, c: Option<Value>) | Leaves(w: Value, c: Option<Value>)

  /** From the registers and from what the jump carries by which control enters; `None` if an error is raised. */
  type Meaning = (Regs, Option<Value>) -> Option<Way>

  ghost function Via(m: Meaning, f: Option<Way> -> Option<Way>): Meaning { (R, c) => f(m(R, c)) }

  // ---------------------------------------------------------------- shapes

  /** What the descriptor of an expression is going to be. */
  datatype Shape = ConstTrue | ConstFalse | ConstNumber | InRegister | Negation | Comparison

  function ShapeOf(k: Kind): Shape {
    match k
    case VTrue => ConstTrue
    case VFalse => ConstFalse
    case VK(_) => ConstNumber
    case VKNum(_) => ConstNumber
    case VJmp(_) => Comparison
    case VReloc(_) => Negation
    case _ => InRegister
  }

  predicate IsConst(s: Shape) { s.ConstTrue? || s.ConstFalse? || s.ConstNumber? }

  function NegatedShape(s: Shape): Shape {
    match s
    case ConstFalse => ConstTrue
    case ConstTrue => ConstFalse
    case ConstNumber => ConstFalse
    case Comparison => Comparison
    case _ => Negation
  }

  function ShapeFor(x: Expr): Shape {
    match x
    case Truth => ConstTrue
    case Falsity => ConstFalse
    case Numeral(_) => ConstNumber
    case Local(_) => InRegister
    case Not(y) => NegatedShape(ShapeFor(y))
    case And(_, r) => ShapeFor(r)
    case Or(_, r) => ShapeFor(r)
    case Rel(_, _, _) => Comparison
  }

  /** The descriptor has the shape that the syntax says. */
  lemma {:induction false} CompShape(fs: FS, x: Expr)
    ensures ShapeOf(Comp(fs, x).e.k) == ShapeFor(x) && !Comp(fs, x).e.k.VK?
    decreases x
  {
    hide CodeNot, GoIfTrue, GoIfFalse, Exp2RK, Linked, CondJump, FreeExp;
    match x
    case Not(y) => CompShape(fs, y); NotShape(Comp(fs, y));
    case And(l, r) => CompShape(GoIfTrue(Comp(fs, l).fs, Comp(fs, l).e).fs, r);
    case Or(l, r) => CompShape(GoIfFalse(Comp(fs, l).fs, Comp(fs, l).e).fs, r);
    case _ =>
  }

  lemma NotShape(g: Gen)
    requires !g.e.k.VK?
    ensures var k := CodeNot(g.fs, g.e).e.k; ShapeOf(k) == NegatedShape(ShapeOf(g.e.k)) && !k.VK?
  {
  }

  // ---------------------------------------------------------------- ways

  /** An instruction has been emitted: the jumps that were pending lead here, without values. */
  function Settled(a: Option<Way>): Option<Way> {
    match a
    case Some(Falls(w, _)) => Some(Falls(w, None))
    case _ => a
  }

  /** A test and its jump: control leaves if the truth value is `cond`. */
  function TestWay(cond: bool, carries: bool, a: Option<Way>): Option<Way> {
    match a
    case Some(Falls(w, _)) =>
      if Truthy(w) == cond then Some(Leaves(w, if carries then Some(w) else None)) else Some(Falls(w, None))
    case _ => a
  }

  /** The constant arms: control leaves, and a jump that was pending keeps what it carries. */
  function ArmWay(a: Option<Way>): Option<Way> {
    match a
    case Some(Falls(w, c)) => Some(Leaves(w, c))
    case _ => a
  }

  /** The constant agrees with falling through, so no jump is needed. */
  predicate NoTest(s: Shape, cond: bool) { if cond then s.ConstFalse? else s.ConstTrue? || s.ConstNumber? }

  /** The constant arms of `luaK_goiffalse` and `luaK_goiftrue`. */
  predicate IsArm(s: Shape, cond: bool) { if cond then s.ConstTrue? else s.ConstFalse? }

  function ExitWay(s: Shape, cond: bool, a: Option<Way>): Option<Way> {
    if NoTest(s, cond) then a
    else if IsArm(s, cond) then ArmWay(a)
    else TestWay(cond, s.InRegister? || s.ConstNumber?, a)
  }

  /** The exits for `cond` become pending. */
  function PendWay(cond: bool, a: Option<Way>): Option<Way> {
    match a
    case Some(Leaves(w, c)) => if Truthy(w) == cond then Some(Falls(w, c)) else a
    case _ => a
  }

  /** `luaK_goiftrue` (`cond == false`) and `luaK_goiffalse` (`cond == true`). */
  function CondWay(s: Shape, cond: bool, a: Option<Way>): Option<Way> { PendWay(!cond, ExitWay(s, cond, a)) }

  function NotValue(keep: bool, a: Option<Way>): Option<Way> {
    match a
    case Some(Falls(w, c)) => Some(Falls(Negate(w), if keep then c else None))
    case _ => a
  }

  /** `codenot` exchanges the lists and removes their values. */
  function SwapWay(a: Option<Way>): Option<Way> {
    match a
    case Some(Leaves(w, _)) => Some(Leaves(Negate(w), None))
    case _ => a
  }

  function NotWay(s: Shape, a: Option<Way>): Option<Way> { SwapWay(NotValue(IsConst(s), a)) }

  /** The value that a register gets when the lists are closed. */
  function Delivered(a: Way): Value { if a.Leaves? && a.c.Some? then a.c.value else a.w }

  function Closed(a: Option<Way>): Option<Way> { if a.None? then None else Some(Falls(Delivered(a.value), None)) }

  /** An operand of a comparison. */
  function OperandWay(stays: bool, a: Option<Way>): Option<Way> { if stays then a else Closed(a) }

  ghost function Seq(m1: Meaning, m2: Meaning): Meaning {
    (R, c) =>
      match m1(R, c)
      case Some(Falls(_, c1)) => m2(R, c1)
      case a => a
  }

  function CompareWays(cmp: Comparison, op: RelOp, a1: Option<Way>, a2: Option<Way>): Option<Way> {
    if a1.None? || a2.None? then None
    else
      var v := Compare(cmp, op, a1.value.w, a2.value.w);
      if v.None? then None else Some(Falls(v.value, None))
  }

  function CarryOf(a: Option<Way>): Option<Value> { if a.Some? && a.value.Falls? then a.value.c else None }

  // ---------------------------------------------------------------- expressions

  /** How control goes through the code of `x` compiled from `fs`. The state matters only for the question
      whether the constants of a comparison are among the first 256. */
  function Flow(cmp: Comparison, fs: FS, x: Expr, R: Regs, c: Option<Value>): Option<Way>
    decreases x
  {
    match x
    case Truth => Some(Falls(Bool(true), c))
    case Falsity => Some(Falls(Bool(false), c))
    case Numeral(n) => Some(Falls(Num(n), c))
    case Local(r) => Some(Falls(R(r), c))
    case Not(y) => NotWay(ShapeFor(y), Flow(cmp, fs, y, R, c))
    case And(l, r) =>
      (match CondWay(ShapeFor(l), false, Flow(cmp, fs, l, R, c))
       case Some(Falls(_, c1)) => Flow(cmp, GoIfTrue(Comp(fs, l).fs, Comp(fs, l).e).fs, r, R, c1)
       case a => a)
    case Or(l, r) =>
      (match CondWay(ShapeFor(l), true, Flow(cmp, fs, l, R, c))
       case Some(Falls(_, c1)) => Flow(cmp, GoIfFalse(Comp(fs, l).fs, Comp(fs, l).e).fs, r, R, c1)
       case a => a)
    case Rel(op, l, r) =>
      var g1 := Comp(fs, l);
      var p1 := Exp2RK(g1.fs, g1.e);
      var g2 := Comp(p1.fs, r);
      var a1 := OperandWay(StaysPut(g1.fs, g1.e), Flow(cmp, fs, l, R, c));
      CompareWays(cmp, op, a1, OperandWay(StaysPut(g2.fs, g2.e), Flow(cmp, p1.fs, r, R, CarryOf(a1))))
  }

  ghost function MeaningOf(cmp: Comparison, fs: FS, x: Expr): Meaning { (R, c) => Flow(cmp, fs, x, R, c) }

  /** Only the locals of the expression matter. */
  lemma {:induction false} FlowAgrees(cmp: Comparison, fs: FS, x: Expr, R: Regs, R': Regs, c: Option<Value>, base: nat)
    requires LocalsBelow(x, base) && Agree(R, R', base, -1)
    ensures Flow(cmp, fs, x, R', c) == Flow(cmp, fs, x, R, c)
    decreases x
  {
    match x
    case Not(y) => FlowAgrees(cmp, fs, y, R, R', c, base);
    case And(l, r) =>
      FlowAgrees(cmp, fs, l, R, R', c, base);
      var a := CondWay(ShapeFor(l), false, Flow(cmp, fs, l, R, c));
      FlowAgrees(cmp, GoIfTrue(Comp(fs, l).fs, Comp(fs, l).e).fs, r, R, R', CarryOf(a), base);
    case Or(l, r) =>
      FlowAgrees(cmp, fs, l, R, R', c, base);
      var a := CondWay(ShapeFor(l), true, Flow(cmp, fs, l, R, c));
      FlowAgrees(cmp, GoIfFalse(Comp(fs, l).fs, Comp(fs, l).e).fs, r, R, R', CarryOf(a), base);
    case Rel(op, l, r) =>
      FlowAgrees(cmp, fs, l, R, R', c, base);
      var g1 := Comp(fs, l);
      var a1 := OperandWay(StaysPut(g1.fs, g1.e), Flow(cmp, fs, l, R, c));
      FlowAgrees(cmp, Exp2RK(g1.fs, g1.e).fs, r, R, R', CarryOf(a1), base);
    case _ =>
  }
}
