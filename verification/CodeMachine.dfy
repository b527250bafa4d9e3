/** The part of the Lua 5.1 virtual machine that logical expressions use (lua/lvm.c:403-581), the
    expressions themselves, and what they mean (sections 2.5.2 and 2.5.3 of the Lua 5.1 Reference Manual).

    Code under construction contains jumps whose target is not known yet: `Jump(None)`. Running code
    stops there with `Exit`. A TESTSET whose register is not known yet has `to == None`; when it accepts,
    the exit is `valued`: the value that it tested is the value to be assigned. */
module CodeMachine {
  import opened Wrappers

  // ---------------------------------------------------------------- values

  datatype Value = Nil | Bool(b: bool) | Num(n: int) | Ref(id: nat)

  predicate Truthy(v: Value) { v != Nil && v != Bool(false) }

  function Negate(v: Value): Value { Bool(!Truthy(v)) }

  datatype CmpOp = OpEq | OpLt | OpLe

  /** Comparison of two values, `None` when it raises an error. Metamethods that only compute a result
      are covered, because any such function is allowed. */
  type Comparison = (CmpOp, Value, Value) -> Option<bool>

  // ---------------------------------------------------------------- source expressions

  datatype RelOp = Eq | Ne | Lt | Le | Gt | Ge

  datatype Expr =
    | Truth
    | Falsity
    | Numeral(n: int)
    | Local(r: nat)
    | Not(x: Expr)
    | And(l: Expr, r0: Expr)
    | Or(l: Expr, r0: Expr)
    | Rel(op: RelOp, l: Expr, r0: Expr)

  type Regs = nat -> Value

  function Set(R: Regs, a: nat, v: Value): Regs { (r: nat) => if r == a then v else R(r) }

  function Compare(cmp: Comparison, op: RelOp, v: Value, w: Value): Option<Value> {
    var c := match op
      case Eq => cmp(OpEq, v, w)
      case Ne => cmp(OpEq, v, w)
      case Lt => cmp(OpLt, v, w)
      case Le => cmp(OpLe, v, w)
      case Gt => cmp(OpLt, w, v)
      case Ge => cmp(OpLe, w, v);
    if c.None? then None else Some(Bool(c.value != (op == Ne)))
  }

  /** The value of an expression, `None` when evaluating it raises an error. */
  function Eval(cmp: Comparison, x: Expr, R: Regs): Option<Value> {
    match x
    case Truth => Some(Bool(true))
    case Falsity => Some(Bool(false))
    case Numeral(n) => Some(Num(n))
    case Local(r) => Some(R(r))
    case Not(y) =>
      (match Eval(cmp, y, R)
       case None => None
       case Some(v) => Some(Negate(v)))
    case And(l, r) =>
      (match Eval(cmp, l, R)
       case None => None
       case Some(v) => if Truthy(v) then Eval(cmp, r, R) else Some(v))
    case Or(l, r) =>
      (match Eval(cmp, l, R)
       case None => None
       case Some(v) => if Truthy(v) then Some(v) else Eval(cmp, r, R))
    case Rel(op, l, r) =>
      (match (Eval(cmp, l, R), Eval(cmp, r, R))
       case (Some(v), Some(w)) => Compare(cmp, op, v, w)
       case _ => None)
  }

  /** All locals of the expression are among the first `n` registers. */
  predicate LocalsBelow(x: Expr, n: nat) {
    match x
    case Local(r) => r < n
    case Not(y) => LocalsBelow(y, n)
    case And(l, r) => LocalsBelow(l, n) && LocalsBelow(r, n)
    case Or(l, r) => LocalsBelow(l, n) && LocalsBelow(r, n)
    case Rel(_, l, r) => LocalsBelow(l, n) && LocalsBelow(r, n)
    case _ => true
  }

  /** Registers below `base` agree, except possibly `hole`. */
  ghost predicate Agree(R: Regs, R': Regs, base: nat, hole: int) {
    forall r: nat :: r < base && r != hole ==> R'(r) == R(r)
  }

  lemma {:induction false} EvalAgrees(cmp: Comparison, x: Expr, R: Regs, R': Regs, base: nat)
    requires LocalsBelow(x, base) && Agree(R, R', base, -1)
    ensures Eval(cmp, x, R') == Eval(cmp, x, R)
  {
    match x
    case Not(y) => EvalAgrees(cmp, y, R, R', base);
    case And(l, r) => EvalAgrees(cmp, l, R, R', base); EvalAgrees(cmp, r, R, R', base);
    case Or(l, r) => EvalAgrees(cmp, l, R, R', base); EvalAgrees(cmp, r, R, R', base);
    case Rel(_, l, r) => EvalAgrees(cmp, l, R, R', base); EvalAgrees(cmp, r, R, R', base);
    case _ =>
  }

  // ---------------------------------------------------------------- instructions

  datatype RK = Reg(r: nat) | Konst(i: nat)

  datatype Instr =
    | Move(a: nat, b: nat)
    | LoadK(a: nat, bx: nat)
    | LoadBool(a: nat, value: bool, skip: bool)
    | NotI(a: nat, b: nat)
    | Jump(dest: Option<nat>)
    | Cmp(op: CmpOp, accept: bool, x: RK, y: RK)
    | Test(b: nat, c: bool)
    | TestSet(to: Option<nat>, b: nat, c: bool)

  /** Instructions that are always followed by a jump (`testTMode`). */
  predicate IsTest(i: Instr) { i.Cmp? || i.Test? || i.TestSet? }

  datatype Env = Env(K: seq<Value>, cmp: Comparison)

  function Operand(env: Env, o: RK, R: Regs): Value {
    match o
    case Reg(r) => R(r)
    case Konst(i) => if i < |env.K| then env.K[i] else Nil
  }

  datatype Outcome = Reach(R: Regs) | Exit(j: nat, R: Regs, valued: bool) | Error | Stuck

  /** Runs `code` from `pc` to its end or to the first jump without a target. A test that accepts goes on
      at the jump after it, one that does not skips it. Jumps of expressions only lead forward. */
  ghost function Exec(env: Env, code: seq<Instr>, pc: nat, R: Regs): Outcome
    decreases |code| - pc
  {
    if pc > |code| then Stuck
    else if pc == |code| then Reach(R)
    else
      match code[pc]
      case Move(a, b) => Exec(env, code, pc + 1, Set(R, a, R(b)))
      case LoadK(a, bx) => Exec(env, code, pc + 1, Set(R, a, Operand(env, Konst(bx), R)))
      case LoadBool(a, v, skip) => Exec(env, code, if skip then pc + 2 else pc + 1, Set(R, a, Bool(v)))
      case NotI(a, b) => Exec(env, code, pc + 1, Set(R, a, Negate(R(b))))
      case Jump(dest) => if dest.None? then Exit(pc, R, false)
        else if dest.value <= pc then Stuck else Exec(env, code, dest.value, R)
      case Cmp(op, accept, x, y) =>
        (match env.cmp(op, Operand(env, x, R), Operand(env, y, R))
         case None => Error
         case Some(r) => Exec(env, code, if r == accept then pc + 1 else pc + 2, R))
      case Test(b, c) => Exec(env, code, if Truthy(R(b)) == c then pc + 1 else pc + 2, R)
      case TestSet(to, b, c) =>
        if Truthy(R(b)) != c then Exec(env, code, pc + 2, R)
        else if to.None? then Exit(pc + 1, R, true)
        else Exec(env, code, pc + 1, Set(R, to.value, R(b)))
  }

  // ---------------------------------------------------------------- well-formed code

  /** Every test is followed by its jump, a TESTSET has a destination exactly when its jump has, and
      nothing leads past the end. */
  ghost predicate WellFormed(code: seq<Instr>) {
    forall i :: 0 <= i < |code| ==> FitsAt(code, i)
  }

  ghost predicate FitsAt(code: seq<Instr>, i: nat)
    requires i < |code|
  {
    && (IsTest(code[i]) ==> i + 1 < |code| && code[i + 1].Jump?)
    && (code[i].TestSet? ==> code[i].to.None? == code[i + 1].dest.None?)
    && (code[i].LoadBool? && code[i].skip ==> i + 1 < |code|)
    && (code[i].Jump? && code[i].dest.Some? ==> i < code[i].dest.value <= |code|)
  }

  /** The jump at `j` is controlled by a TESTSET, so it carries a value. */
  predicate CarriesValue(code: seq<Instr>, j: nat) {
    0 < j <= |code| && code[j - 1].TestSet?
  }

  // ---------------------------------------------------------------- patching

  /** How an instruction may differ between code and a later version of it: jumps get targets, and the
      TESTSETs in front of them get registers or are demoted. */
  ghost predicate Patched(code: seq<Instr>, code': seq<Instr>, i: nat)
    requires i < |code| <= |code'|
  {
    || code'[i] == code[i]
    || (code[i] == Jump(None) && code'[i].Jump?)
    || (code[i].TestSet? && code[i].to.None? && code'[i] == Test(code[i].b, code[i].c))
    || (code[i].TestSet? && code[i].to.None? && code'[i].TestSet? && code'[i] == code[i].(to := code'[i].to))
  }

  /** `code'` is a later version of `code`. */
  ghost predicate Extends(code: seq<Instr>, code': seq<Instr>) {
    |code| <= |code'| && forall i :: 0 <= i < |code| ==> Patched(code, code', i)
  }

  /** The value that a jump carries when it is taken with registers `R`. */
  function Carry(code: seq<Instr>, j: nat, R: Regs): Option<Value> {
    if CarriesValue(code, j) then Some(R(code[j - 1].b)) else None
  }

  /** The registers when the jump at `j` is taken: the test in front of it may have assigned its value. */
  function Entered(code: seq<Instr>, j: nat, R: Regs): Regs {
    if CarriesValue(code, j) && code[j - 1].to.Some? then Set(R, code[j - 1].to.value, R(code[j - 1].b)) else R
  }

  /** Taking the jump at `q` with registers `R`, or starting at `q` where there is no jump. */
  ghost function Take(env: Env, code: seq<Instr>, q: nat, R: Regs): Outcome {
    if q < |code| && code[q] == Jump(None) then Exit(q, R, CarriesValue(code, q))
      else Exec(env, code, q, Entered(code, q, R))
  }

  /** An exit is valued exactly if its jump carries a value. */
  ghost predicate Proper(code: seq<Instr>, o: Outcome) { o.Exit? ==> o.valued == CarriesValue(code, o.j) }

  /** What a run of a piece of code becomes in a later version, in which `end` is the end of the piece. */
  ghost function Resume(env: Env, code': seq<Instr>, end: nat, o: Outcome): Outcome {
    match o
    case Reach(R) => Exec(env, code', end, R)
    case Exit(j, R, _) => Take(env, code', j, R)
    case _ => o
  }

  lemma StillCarries(code: seq<Instr>, code': seq<Instr>, j: nat)
    requires Extends(code, code') && j <= |code|
    ensures CarriesValue(code', j) ==> CarriesValue(code, j)
  {
    if j > 0 { assert Patched(code, code', j - 1); }
  }

  /** Patching and appending do not change what has been generated: runs go on where they stopped. */
  lemma {:induction false} Compose(env: Env, code: seq<Instr>, code': seq<Instr>, pc: nat, R: Regs)
    requires WellFormed(code) && WellFormed(code') && Extends(code, code') && pc <= |code|
    requires Proper(code, Exec(env, code, pc, R))
    ensures Exec(env, code', pc, R) == Resume(env, code', |code|, Exec(env, code, pc, R))
    decreases |code| - pc
  {
    if pc < |code| {
      assert FitsAt(code, pc) && FitsAt(code', pc) && Patched(code, code', pc);
      match code[pc]
      case Move(a, b) => Compose(env, code, code', pc + 1, Set(R, a, R(b)));
      case LoadK(a, bx) => Compose(env, code, code', pc + 1, Set(R, a, Operand(env, Konst(bx), R)));
      case LoadBool(a, v, skip) => Compose(env, code, code', if skip then pc + 2 else pc + 1, Set(R, a, Bool(v)));
      case NotI(a, b) => Compose(env, code, code', pc + 1, Set(R, a, Negate(R(b))));
      case Jump(dest) => if dest.Some? { Compose(env, code, code', dest.value, R); }
        else { StillCarries(code, code', pc); }
      case Cmp(op, accept, x, y) =>
        var r := env.cmp(op, Operand(env, x, R), Operand(env, y, R));
        if r.Some? { Compose(env, code, code', if r.value == accept then pc + 1 else pc + 2, R); }
      case Test(b, c) =>
        Compose(env, code, code', if Truthy(R(b)) == c then pc + 1 else pc + 2, R);
      case TestSet(to, b, c) =>
        if Truthy(R(b)) != c { Compose(env, code, code', pc + 2, R); }
        else if to.Some? { Compose(env, code, code', pc + 1, Set(R, to.value, R(b))); }
        else { assert Patched(code, code', pc + 1); }
    }
  }

  /** The first instruction of an appended piece is not controlled by a test. */
  lemma TakeStart(env: Env, code: seq<Instr>, code': seq<Instr>, R: Regs)
    requires WellFormed(code) && Extends(code, code')
    ensures Take(env, code', |code|, R) == Exec(env, code', |code|, R) && !CarriesValue(code', |code|)
            && !CarriesValue(code, |code|)
  {
    StillCarries(code, code', |code|);
    if |code| > 0 { assert FitsAt(code, |code| - 1); }
  }

  /** The same for runs that begin at a jump. */
  lemma ComposeTake(env: Env, code: seq<Instr>, code': seq<Instr>, q: nat, R: Regs)
    requires WellFormed(code) && WellFormed(code') && Extends(code, code') && q <= |code|
    requires Proper(code, Take(env, code, q, R))
    ensures Take(env, code', q, R) == Resume(env, code', |code|, Take(env, code, q, R))
  {
    if q == |code| {
      TakeStart(env, code, code, R);
      TakeStart(env, code, code', R);
    } else if code[q] != Jump(None) {
      assert Patched(code, code', q) && FitsAt(code, q);
      if q > 0 { assert FitsAt(code, q - 1) && Patched(code, code', q - 1); }
      Compose(env, code, code', q, Entered(code, q, R));
    }
  }
}
