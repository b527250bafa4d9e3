/** What the code generated so far for an expression means. */
module CodeState {
  import opened Wrappers
  import opened CodeMachine
  import opened CodeGen
  import opened CodeFlow

  /** What falling through to the end of the code stands for: the value described by the expression
      descriptor, or the fact that the expression is true, or false. */
  datatype Mode = AsValue | IsTrue | IsFalse

  /** The code without the instruction that still waits for its register (a NOT), and without the
      comparison and jump that a descriptor of kind `VJmp` stands for. */
  ghost function Body(fs: FS, e: Exp, mode: Mode): (r: seq<Instr>)
    ensures r <= fs.code
  {
    if mode == AsValue && e.k.VReloc? && |fs.code| >= 1 then fs.code[..|fs.code| - 1]
    else if mode == AsValue && e.k.VJmp? && |fs.code| >= 2 then fs.code[..|fs.code| - 2]
    else fs.code
  }

  // ---------------------------------------------------------------- shape of the state

  ghost predicate OpenJumps(code: seq<Instr>, list: seq<nat>, pc0: nat, jpc0: seq<nat>) {
    forall j :: j in list ==> j < |code| && code[j] == Jump(None) && (pc0 <= j || j in jpc0)
  }

  function Jumps(l: seq<nat>): set<nat> { set j | j in l }

  predicate Apart(l1: seq<nat>, l2: seq<nat>) { forall j :: j in l1 ==> j !in l2 }

  predicate Distinct(l: seq<nat>) { forall i, j :: 0 <= i < j < |l| ==> l[i] != l[j] }

  /** Patch lists hold open jumps, each once, and no jump is in two lists. */
  ghost predicate ListsOk(fs0: FS, fs: FS, e: Exp, mode: Mode) {
    var body := Body(fs, e, mode);
    && OpenJumps(body, fs.jpc, |fs0.code|, fs0.jpc) && OpenJumps(body, e.t, |fs0.code|, fs0.jpc)
    && OpenJumps(body, e.f, |fs0.code|, fs0.jpc)
    && Apart(fs.jpc, e.t) && Apart(fs.jpc, e.f) && Apart(e.t, e.f)
    && Distinct(fs.jpc) && Distinct(e.t) && Distinct(e.f)
  }

  predicate Unfinished(k: Kind) { k.VReloc? || k.VJmp? }

  ghost predicate PendingOk(fs0: FS, fs: FS, e: Exp) {
    match e.k
    case VReloc(pc) => |fs0.code| <= pc == |fs.code| - 1 && fs.code[pc].NotI? && fs.jpc == []
    case VJmp(pc) =>
      |fs0.code| + 1 <= pc == |fs.code| - 1 && fs.code[pc - 1].Cmp? && fs.code[pc] == Jump(None) && fs.jpc == []
    case _ => true
  }

  /** Registers in use: the locals, `base - nactvar` temporaries below, and perhaps one for the value. */
  ghost predicate RegsOk(fs0: FS, fs: FS, e: Exp, mode: Mode) {
    && fs.nactvar == fs0.nactvar <= fs0.freereg
    && if mode == AsValue && e.k.VNonReloc? && e.k.r >= fs.nactvar then
         e.k.r == fs0.freereg && fs.freereg == fs0.freereg + 1 && !HasJumps(e)
       else fs.freereg == fs0.freereg && (mode == AsValue && e.k.VLocal? ==> e.k.r < fs.nactvar)
  }

  /** The TESTSET of a jump of `J`. */
  predicate Controls(code: seq<Instr>, i: nat, J: set<nat>)
    requires i < |code|
  {
    code[i].TestSet? && i + 1 in J
  }

  /** `code'` is a later version of `code` in which only jumps of `J` and their tests have changed. */
  ghost predicate Later(code: seq<Instr>, code': seq<Instr>, J: set<nat>) {
    && Extends(code, code')
    && forall i :: 0 <= i < |code| && i !in J && !Controls(code, i, J) ==> code'[i] == code[i]
  }

  /** A state in which an expression may begin. */
  ghost predicate StartOk(fs: FS) {
    WellFormed(fs.code) && OpenJumps(fs.code, fs.jpc, 0, fs.jpc) && Distinct(fs.jpc)
  }

  ghost predicate CodeOk(fs0: FS, fs: FS, e: Exp, mode: Mode) {
    && StartOk(fs0)
    && WellFormed(Body(fs, e, mode))
    && fs0.K <= fs.K
    && (mode == AsValue ==> PendingOk(fs0, fs, e))
    && Later(fs0.code, Body(fs, e, mode), Jumps(fs0.jpc))
    && ListsOk(fs0, fs, e, mode)
  }

  // ---------------------------------------------------------------- meaning of the state

  /** A run that came by a jump carrying `c` is at the end, and the value is `w`. */
  ghost predicate Arrived(base: nat, a: Option<Way>, c: Option<Value>, R: Regs, R': Regs, w: Value) {
    a == Some(Falls(w, c)) && Agree(R, R', base, -1)
  }

  ghost predicate KindOk(env: Env, fs: FS, k: Kind, base: nat, a: Option<Way>, c: Option<Value>, R: Regs, R': Regs) {
    match k
    case VTrue => Arrived(base, a, c, R, R', Bool(true))
    case VFalse => Arrived(base, a, c, R, R', Bool(false))
    case VK(i) => i < |fs.K| && Arrived(base, a, c, R, R', fs.K[i])
    case VKNum(n) => Arrived(base, a, c, R, R', Num(n))
    case VLocal(r) => Arrived(base, a, c, R, R', R'(r))
    case VNonReloc(r) => Arrived(base, a, c, R, R', R'(r))
    case VReloc(pc) => pc < |fs.code| && fs.code[pc].NotI? && Arrived(base, a, c, R, R', Negate(R'(fs.code[pc].b)))
    case VJmp(pc) =>
      && 0 < pc <= |fs.code| && fs.code[pc - 1].Cmp?
      && var i := fs.code[pc - 1];
         match env.cmp(i.op, Operand(env, i.x, R'), Operand(env, i.y, R'))
         case None => a == None
         case Some(r) => Arrived(base, a, c, R, R', Bool(r == i.accept))
  }

  ghost predicate FallOk(env: Env, fs: FS, e: Exp, mode: Mode, base: nat, a: Option<Way>, c: Option<Value>, R: Regs,
                         R': Regs) {
    match mode
    case AsValue => KindOk(env, fs, e.k, base, a, c, R, R')
    case IsTrue => exists w :: Arrived(base, a, c, R, R', w) && Truthy(w)
    case IsFalse => exists w :: Arrived(base, a, c, R, R', w) && !Truthy(w)
  }

  /** A jump out of the expression: from the right list, and carrying what it should. A jump that carries
      nothing stands for `true` or `false`. */
  ghost predicate ExitOk(code: seq<Instr>, e: Exp, base: nat, a: Option<Way>, R: Regs, j: nat, R': Regs) {
    match a
    case Some(Leaves(w, c)) =>
      && Agree(R, R', base, -1) && (if Truthy(w) then j in e.t else j in e.f)
      && c == Carry(code, j, R') && (c.None? ==> w == Bool(Truthy(w)))
    case _ => false
  }

  ghost predicate Yields(env: Env, fs: FS, e: Exp, mode: Mode, base: nat, a: Option<Way>, R: Regs, o: Outcome) {
    match o
    case Error => a == None
    case Stuck => false
    case Reach(R') => FallOk(env, fs, e, mode, base, a, None, R, R')
    case Exit(j, R', valued) =>
      && valued == CarriesValue(fs.code, j)
      && if j in fs.jpc then FallOk(env, fs, e, mode, base, a, Carry(fs.code, j, R'), R, R')
         else ExitOk(fs.code, e, base, a, R, j, R')
  }

  /** Where a run of the expression may start: at its first instruction, or at a jump that is pending to it. */
  predicate Entry(fs0: FS, q: nat) { q == |fs0.code| || (q < |fs0.code| && q in fs0.jpc) }

  /** The way of the run that enters at `q`. */
  ghost function WayFrom(m: Meaning, fs0: FS, q: nat, R: Regs): Option<Way> { m(R, Carry(fs0.code, q, R)) }

  ghost predicate Means(env: Env, fs0: FS, fs: FS, e: Exp, mode: Mode, m: Meaning) {
    forall q, R {:trigger Take(env, Body(fs, e, mode), q, R)} :: Entry(fs0, q) ==>
      Yields(env, fs, e, mode, fs0.freereg, WayFrom(m, fs0, q, R), R, Take(env, Body(fs, e, mode), q, R))
  }

  ghost predicate Sound(env: Env, fs0: FS, fs: FS, e: Exp, mode: Mode, m: Meaning) {
    CodeOk(fs0, fs, e, mode) && Means(env, fs0, fs, e, mode, m)
  }

  /** The invariant of code generation for an expression, which began in state `fs0`. */
  ghost predicate Ok(env: Env, fs0: FS, fs: FS, e: Exp, mode: Mode, m: Meaning) {
    Sound(env, fs0, fs, e, mode, m) && RegsOk(fs0, fs, e, mode)
  }

  ghost predicate SameWays(m: Meaning, m': Meaning) { forall R, c :: m'(R, c) == m(R, c) }

  lemma SameMeaning(env: Env, fs0: FS, fs: FS, e: Exp, mode: Mode, m: Meaning, m': Meaning)
    requires Sound(env, fs0, fs, e, mode, m) && SameWays(m, m')
    ensures Sound(env, fs0, fs, e, mode, m')
  {
    forall q, R | Entry(fs0, q)
      ensures Yields(env, fs, e, mode, fs0.freereg, WayFrom(m', fs0, q, R), R, Take(env, Body(fs, e, mode), q, R))
    {
      assert WayFrom(m', fs0, q, R) == WayFrom(m, fs0, q, R);
    }
  }

  /** An exit of the code is by a jump of a list, so it is known whether it carries a value. */
  lemma YieldsProper(env: Env, fs0: FS, fs: FS, e: Exp, mode: Mode, base: nat, a: Option<Way>, R: Regs, o: Outcome)
    requires ListsOk(fs0, fs, e, mode) && Yields(env, fs, e, mode, base, a, R, o)
    ensures Proper(Body(fs, e, mode), o)
    ensures o.Exit? ==> o.j < |Body(fs, e, mode)| && Body(fs, e, mode)[o.j] == Jump(None)
  {
  }

  // ---------------------------------------------------------------- emitting after a body

  /** `code'` continues `body` at its end, where the jumps of `jpc` now lead. */
  ghost predicate Continues(body: seq<Instr>, jpc: seq<nat>, code': seq<Instr>) {
    |body| <= |code'| && code'[..|body|] == PatchList(body, jpc, |body|, None, |body|)
  }

  lemma ContinuesAt(body: seq<Instr>, jpc: seq<nat>, code': seq<Instr>)
    requires Continues(body, jpc, code')
    ensures forall i :: 0 <= i < |body| ==> code'[i] == PatchAt(body, i, jpc, |body|, None, |body|)
  {
    forall i | 0 <= i < |body| ensures code'[i] == PatchAt(body, i, jpc, |body|, None, |body|) {
      assert code'[..|body|][i] == code'[i];
    }
  }

  lemma LaterSelf(code: seq<Instr>, J: set<nat>)
    ensures Later(code, code, J)
  {
  }

  lemma LaterTwice(code0: seq<Instr>, J0: set<nat>, code1: seq<Instr>, J1: set<nat>, code2: seq<Instr>)
    requires WellFormed(code0) && Later(code0, code1, J0) && Later(code1, code2, J1)
    requires forall j :: j in J1 && j < |code0| ==> j in J0
    ensures Later(code0, code2, J0)
  {
    forall i | 0 <= i < |code0|
      ensures Patched(code0, code2, i)
      ensures i !in J0 && !Controls(code0, i, J0) ==> code2[i] == code0[i]
    {
      assert Patched(code0, code1, i) && Patched(code1, code2, i) && FitsAt(code0, i);
    }
  }

  /** Code that continues a body is a later version of it. */
  lemma ContinuesLater(body: seq<Instr>, jpc: seq<nat>, code': seq<Instr>)
    requires WellFormed(body) && Continues(body, jpc, code')
    requires forall j :: j in jpc ==> j < |body| && body[j] == Jump(None)
    ensures Later(body, code', Jumps(jpc))
  {
    ContinuesAt(body, jpc, code');
    forall i | 0 <= i < |body| ensures Patched(body, code', i) {
      assert FitsAt(body, i);
    }
  }

  lemma ContinuesWellFormed(body: seq<Instr>, jpc: seq<nat>, code': seq<Instr>)
    requires WellFormed(body) && Continues(body, jpc, code')
    requires forall j :: j in jpc ==> j < |body| && body[j] == Jump(None)
    requires forall i :: |body| <= i < |code'| ==> FitsAt(code', i)
    ensures WellFormed(code')
  {
    ContinuesAt(body, jpc, code');
    forall i | 0 <= i < |body| ensures FitsAt(code', i) {
      assert FitsAt(body, i);
    }
  }

  /** A run that falls through goes on at `end`; it may also get there by a pending jump. */
  ghost function FallTo(env: Env, code': seq<Instr>, end: nat, jpc: seq<nat>, o: Outcome): Outcome {
    match o
    case Reach(R') => Exec(env, code', end, R')
    case Exit(j, R', _) => if j in jpc then Exec(env, code', end, R') else o
    case _ => o
  }

  lemma Continue(env: Env, body: seq<Instr>, jpc: seq<nat>, code': seq<Instr>, q: nat, R: Regs)
    requires WellFormed(body) && WellFormed(code') && Continues(body, jpc, code') && q <= |body|
    requires forall j :: j in jpc ==> j < |body| && body[j] == Jump(None)
    requires var o := Take(env, body, q, R); Proper(body, o) && (o.Exit? ==> o.j < |body| && body[o.j] == Jump(None))
    ensures Take(env, code', q, R) == FallTo(env, code', |body|, jpc, Take(env, body, q, R))
  {
    ContinuesAt(body, jpc, code');
    ContinuesLater(body, jpc, code');
    ComposeTake(env, body, code', q, R);
    var o := Take(env, body, q, R);
    if o.Exit? {
      StillCarries(body, code', o.j);
      if o.j in jpc {
        assert code'[o.j] == Jump(Some(|body|));
        assert Entered(code', o.j, o.R) == o.R;
      } else {
        assert code'[o.j] == body[o.j];
        if o.j > 0 { assert code'[o.j - 1] == PatchAt(body, o.j - 1, jpc, |body|, None, |body|); }
      }
    }
  }
}
