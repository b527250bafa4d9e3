/** Appending instructions: values are put into registers, and constants into the constant table. */
module CodeSteps {
  import opened Wrappers
  import opened CodeMachine
  import opened CodeGen
  import opened CodeFlow
  import opened CodeState

  predicate HasNew(e: Exp, e': Exp) { e'.t != e.t || e'.f != e.f }

  lemma AppendedLists(fs0: FS, fs: FS, e: Exp, mode: Mode, fs': FS, e': Exp, mode': Mode)
    requires CodeOk(fs0, fs, e, mode) && Continues(Body(fs, e, mode), fs.jpc, Body(fs', e', mode')) && fs'.jpc == []
    requires e'.t == e.t || (e'.t == e.t + [|Body(fs', e', mode')| - 1] && e'.f == e.f)
    requires e'.f == e.f || (e'.f == e.f + [|Body(fs', e', mode')| - 1] && e'.t == e.t)
    requires HasNew(e, e') ==>
               var body' := Body(fs', e', mode'); |Body(fs, e, mode)| < |body'| && body'[|body'| - 1] == Jump(None)
    ensures ListsOk(fs0, fs', e', mode')
  {
    var body, body' := Body(fs, e, mode), Body(fs', e', mode');
    ContinuesAt(body, fs.jpc, body');
    assert |fs0.code| <= |body|;
    assert forall i :: 0 <= i < |e.t| ==> e.t[i] in e.t;
    assert forall i :: 0 <= i < |e.f| ==> e.f[i] in e.f;
  }

  /** `fs'` is `fs` with its pending jumps discharged and some instructions appended. The last of them may
      be a jump that joins a list. */
  lemma Appended(fs0: FS, fs: FS, e: Exp, mode: Mode, fs': FS, e': Exp, mode': Mode)
    requires CodeOk(fs0, fs, e, mode)
    requires var body, body' := Body(fs, e, mode), Body(fs', e', mode');
             && Continues(body, fs.jpc, body')
             && (forall i :: |body| <= i < |body'| ==> FitsAt(body', i))
    requires fs'.jpc == [] && fs.K <= fs'.K
    requires mode' == AsValue ==> PendingOk(fs0, fs', e')
    requires e'.t == e.t || (e'.t == e.t + [|Body(fs', e', mode')| - 1] && e'.f == e.f)
    requires e'.f == e.f || (e'.f == e.f + [|Body(fs', e', mode')| - 1] && e'.t == e.t)
    requires HasNew(e, e') ==>
               var body' := Body(fs', e', mode'); |Body(fs, e, mode)| < |body'| && body'[|body'| - 1] == Jump(None)
    ensures CodeOk(fs0, fs', e', mode')
  {
    var body, body' := Body(fs, e, mode), Body(fs', e', mode');
    AppendedLists(fs0, fs, e, mode, fs', e', mode');
    hide ListsOk, PendingOk;
    ContinuesWellFormed(body, fs.jpc, body');
    ContinuesLater(body, fs.jpc, body');
    LaterTwice(fs0.code, Jumps(fs0.jpc), body, Jumps(fs.jpc), body');
  }

  /** The appended code turns what falling through meant into what the new state says. */
  ghost predicate Turns(env: Env, base: nat, fs: FS, e: Exp, mode: Mode, fs': FS, e': Exp, mode': Mode,
                        f: Option<Way> -> Option<Way>) {
    forall a, c, R, R' {:trigger FallOk(env, fs, e, mode, base, a, c, R, R')} ::
      FallOk(env, fs, e, mode, base, a, c, R, R')
      ==> Yields(env, fs', e', mode', base, f(a), R, Exec(env, Body(fs', e', mode'), |Body(fs, e, mode)|, R'))
  }

  /** A step that concerns only runs that fall through. */
  ghost predicate OnlyFalls(f: Option<Way> -> Option<Way>) {
    f(None) == None && forall w, c :: f(Some(Leaves(w, c))) == Some(Leaves(w, c))
  }

  lemma MeansAfter(env: Env, fs0: FS, fs: FS, e: Exp, mode: Mode, fs': FS, e': Exp, mode': Mode, m: Meaning,
                   f: Option<Way> -> Option<Way>)
    requires CodeOk(fs0, fs, e, mode) && CodeOk(fs0, fs', e', mode') && Means(env, fs0, fs, e, mode, m)
    requires Continues(Body(fs, e, mode), fs.jpc, Body(fs', e', mode')) && fs'.jpc == []
    requires Turns(env, fs0.freereg, fs, e, mode, fs', e', mode', f) && OnlyFalls(f)
    requires forall j :: j in e.t ==> j in e'.t
    requires forall j :: j in e.f ==> j in e'.f
    ensures Means(env, fs0, fs', e', mode', Via(m, f))
  {
    var base, body, body' := fs0.freereg, Body(fs, e, mode), Body(fs', e', mode');
    forall q, R | Entry(fs0, q)
      ensures Yields(env, fs', e', mode', base, WayFrom(Via(m, f), fs0, q, R), R, Take(env, body', q, R))
    {
      var o, a := Take(env, body, q, R), WayFrom(m, fs0, q, R);
      assert Yields(env, fs, e, mode, base, a, R, o);
      YieldsProper(env, fs0, fs, e, mode, base, a, R, o);
      Continue(env, body, fs.jpc, body', q, R);
      AfterOutcome(env, fs0, fs, e, mode, fs', e', mode', f, a, R, o);
    }
  }

  lemma AfterOutcome(env: Env, fs0: FS, fs: FS, e: Exp, mode: Mode, fs': FS, e': Exp, mode': Mode,
                     f: Option<Way> -> Option<Way>, a: Option<Way>, R: Regs, o: Outcome)
    requires CodeOk(fs0, fs, e, mode) && CodeOk(fs0, fs', e', mode')
    requires Continues(Body(fs, e, mode), fs.jpc, Body(fs', e', mode')) && fs'.jpc == []
    requires Turns(env, fs0.freereg, fs, e, mode, fs', e', mode', f) && OnlyFalls(f)
    requires forall j :: j in e.t ==> j in e'.t
    requires forall j :: j in e.f ==> j in e'.f
    requires Yields(env, fs, e, mode, fs0.freereg, a, R, o)
    ensures Yields(env, fs', e', mode', fs0.freereg, f(a), R,
            FallTo(env, Body(fs', e', mode'), |Body(fs, e, mode)|, fs.jpc, o))
  {
    var base, body, body' := fs0.freereg, Body(fs, e, mode), Body(fs', e', mode');
    YieldsProper(env, fs0, fs, e, mode, base, a, R, o);
    if o.Exit? && o.j !in fs.jpc {
      ExitStays(fs, fs', e, e', body, body', base, a, R, o.j, o.R);
    }
  }

  lemma ExitStays(fs: FS, fs': FS, e: Exp, e': Exp, body: seq<Instr>, body': seq<Instr>, base: nat, a: Option<Way>,
                  R: Regs, j: nat, R': Regs)
    requires WellFormed(body) && Continues(body, fs.jpc, body') && body <= fs.code && body' <= fs'.code && j < |body|
             && body[j] == Jump(None)
    requires ExitOk(fs.code, e, base, a, R, j, R') && j !in fs.jpc
    requires forall j :: j in fs.jpc ==> j < |body| && body[j] == Jump(None)
    requires (j in e.t ==> j in e'.t) && (j in e.f ==> j in e'.f)
    ensures ExitOk(fs'.code, e', base, a, R, j, R') && CarriesValue(fs'.code, j) == CarriesValue(fs.code, j)
  {
    ContinuesAt(body, fs.jpc, body');
    if j > 0 {
      assert fs.code[j - 1] == body[j - 1] && fs'.code[j - 1] == body'[j - 1];
      assert body'[j - 1] == PatchAt(body, j - 1, fs.jpc, |body|, None, |body|);
    }
  }

  lemma EmitContinues(fs: FS, i: Instr)
    ensures Continues(fs.code, fs.jpc, Emit(fs, i).code)
    ensures Emit(fs, i).code == Emit(fs, i).code[..|fs.code|] + [i]
  {
  }

  // ---------------------------------------------------------------- values in registers

  /** The registers after an instruction that does not branch. */
  ghost function Result(env: Env, i: Instr, R: Regs): Regs {
    match i
    case Move(a, b) => Set(R, a, R(b))
    case LoadK(a, bx) => Set(R, a, Operand(env, Konst(bx), R))
    case LoadBool(a, v, _) => Set(R, a, Bool(v))
    case NotI(a, b) => Set(R, a, Negate(R(b)))
    case _ => R
  }

  predicate Plain(i: Instr) { !IsTest(i) && !i.Jump? && !(i.LoadBool? && i.skip) }

  lemma EmitSound(env: Env, fs0: FS, fs: FS, e: Exp, i: Instr, e': Exp, m: Meaning)
    requires Sound(env, fs0, fs, e, AsValue, m) && !Unfinished(e.k) && Plain(i)
    requires e' == e.(k := e'.k) && !Unfinished(e'.k)
    requires forall a, c, R, R' :: KindOk(env, fs, e.k, fs0.freereg, a, c, R, R')
               ==> KindOk(env, fs, e'.k, fs0.freereg, Settled(a), None, R, Result(env, i, R'))
    ensures Sound(env, fs0, Emit(fs, i), e', AsValue, Via(m, Settled))
  {
    var fs' := Emit(fs, i);
    EmitContinues(fs, i);
    Appended(fs0, fs, e, AsValue, fs', e', AsValue);
    forall a, c, R, R' | FallOk(env, fs, e, AsValue, fs0.freereg, a, c, R, R')
      ensures Yields(env, fs', e', AsValue, fs0.freereg, Settled(a), R, Exec(env, fs'.code, |fs.code|, R'))
    {
      var R'' := Result(env, i, R');
      assert Exec(env, fs'.code, |fs.code|, R') == Exec(env, fs'.code, |fs.code| + 1, R'') == Reach(R'');
    }
    MeansAfter(env, fs0, fs, e, AsValue, fs', e', AsValue, m, Settled);
  }

  lemma YieldsMoreK(env: Env, fs: FS, fs': FS, e: Exp, mode: Mode, base: nat, a: Option<Way>, R: Regs, o: Outcome)
    requires Yields(env, fs, e, mode, base, a, R, o)
    requires fs'.code == fs.code && fs'.jpc == fs.jpc && fs.K <= fs'.K
    ensures Yields(env, fs', e, mode, base, a, R, o)
  {
  }

  lemma CodeMoreK(fs0: FS, fs: FS, fs': FS, e: Exp, mode: Mode)
    requires CodeOk(fs0, fs, e, mode)
    requires fs'.code == fs.code && fs'.jpc == fs.jpc && fs.K <= fs'.K
    ensures CodeOk(fs0, fs', e, mode)
  {
  }

  lemma AddKSound(env: Env, fs0: FS, fs: FS, e: Exp, v: Value, m: Meaning)
    requires Sound(env, fs0, fs, e, AsValue, m)
    ensures Sound(env, fs0, AddK(fs, v).fs, e, AsValue, m)
  {
    var fs' := AddK(fs, v).fs;
    CodeMoreK(fs0, fs, fs', e, AsValue);
    forall q, R | Entry(fs0, q)
      ensures Yields(env, fs', e, AsValue, fs0.freereg, WayFrom(m, fs0, q, R), R,
              Take(env, Body(fs', e, AsValue), q, R))
    {
      YieldsMoreK(env, fs, fs', e, AsValue, fs0.freereg, WayFrom(m, fs0, q, R), R,
        Take(env, Body(fs, e, AsValue), q, R));
    }
  }

  lemma DischargeVarsSound(env: Env, fs0: FS, fs: FS, e: Exp, m: Meaning)
    requires Sound(env, fs0, fs, e, AsValue, m)
    ensures Sound(env, fs0, fs, DischargeVars(e), AsValue, m)
  {
    var e1 := DischargeVars(e);
    forall q, R | Entry(fs0, q)
      ensures Yields(env, fs, e1, AsValue, fs0.freereg, WayFrom(m, fs0, q, R), R,
              Take(env, Body(fs, e1, AsValue), q, R))
    {
      assert Yields(env, fs, e, AsValue, fs0.freereg, WayFrom(m, fs0, q, R), R, Take(env, Body(fs, e, AsValue), q, R));
    }
  }

  /** The instruction computes the described value into `reg`. */
  ghost predicate Loads(fs: FS, k: Kind, i: Instr, reg: nat) {
    match k
    case VTrue => i == LoadBool(reg, true, false)
    case VFalse => i == LoadBool(reg, false, false)
    case VK(n) => i == LoadK(reg, n)
    case VKNum(n) => i.LoadK? && i.a == reg && i.bx < |fs.K| && fs.K[i.bx] == Num(n)
    case VNonReloc(r) => i == Move(reg, r)
    case _ => false
  }

  lemma LoadSound(env: Env, fs0: FS, fs: FS, e: Exp, i: Instr, reg: nat, m: Meaning)
    requires Sound(env, fs0, fs, e, AsValue, m) && reg >= fs0.freereg && fs.K <= env.K
    requires Loads(fs, e.k, i, reg)
    ensures Sound(env, fs0, Emit(fs, i), e.(k := VNonReloc(reg)), AsValue, Via(m, Settled))
  {
    var e' := e.(k := VNonReloc(reg));
    forall a, c, R, R' | KindOk(env, fs, e.k, fs0.freereg, a, c, R, R')
      ensures KindOk(env, fs, e'.k, fs0.freereg, Settled(a), None, R, Result(env, i, R'))
    {
    }
    EmitSound(env, fs0, fs, e, i, e', m);
  }

  lemma RelocSound(env: Env, fs0: FS, fs: FS, e: Exp, reg: nat, m: Meaning)
    requires Sound(env, fs0, fs, e, AsValue, m) && reg >= fs0.freereg && e.k.VReloc?
    ensures var g := Discharge2Reg(fs, e, reg); Sound(env, fs0, g.fs, g.e, AsValue, Via(m, Settled))
  {
    var g := Discharge2Reg(fs, e, reg);
    var body, body' := Body(fs, e, AsValue), g.fs.code;
    assert PatchList(body, [], |body|, None, |body|) == body == body'[..|body|];
    Appended(fs0, fs, e, AsValue, g.fs, g.e, AsValue);
    forall a, c, R, R' | FallOk(env, fs, e, AsValue, fs0.freereg, a, c, R, R')
      ensures Yields(env, g.fs, g.e, AsValue, fs0.freereg, Settled(a), R, Exec(env, body', |body|, R'))
    {
      assert body'[|body|] == NotI(reg, fs.code[e.k.pc].b);
      var R'' := Result(env, body'[|body|], R');
      assert Exec(env, body', |body|, R') == Exec(env, body', |body| + 1, R'') == Reach(R'');
    }
    MeansAfter(env, fs0, fs, e, AsValue, g.fs, g.e, AsValue, m, Settled);
  }

  /** `discharge2reg` puts the value into a register that is not in use. */
  lemma Discharge2RegSound(env: Env, fs0: FS, fs: FS, e: Exp, reg: nat, m: Meaning)
    requires Sound(env, fs0, fs, e, AsValue, m) && !e.k.VJmp? && reg >= fs0.freereg
    requires Discharge2Reg(fs, e, reg).fs.K <= env.K && DischargeVars(e).k != VNonReloc(reg)
    ensures var g := Discharge2Reg(fs, e, reg); Sound(env, fs0, g.fs, g.e, AsValue, Via(m, Settled)) && g.fs.jpc == []
    ensures Discharge2Reg(fs, e, reg).e == e.(k := VNonReloc(reg))
  {
    var e1 := DischargeVars(e);
    DischargeVarsSound(env, fs0, fs, e, m);
    hide Sound;
    match e1.k {
      case VTrue => LoadSound(env, fs0, fs, e1, LoadBool(reg, true, false), reg, m);
      case VFalse => LoadSound(env, fs0, fs, e1, LoadBool(reg, false, false), reg, m);
      case VK(i) => LoadSound(env, fs0, fs, e1, LoadK(reg, i), reg, m);
      case VKNum(n) =>
        var a := AddK(fs, Num(n));
        AddKSound(env, fs0, fs, e1, Num(n), m);
        LoadSound(env, fs0, a.fs, e1, LoadK(reg, a.i), reg, m);
      case VNonReloc(r) => LoadSound(env, fs0, fs, e1, Move(reg, r), reg, m);
      case VReloc(pc) => RelocSound(env, fs0, fs, e1, reg, m); RelocJpc(env, fs0, fs, e1, m);
    }
  }

  lemma RelocJpc(env: Env, fs0: FS, fs: FS, e: Exp, m: Meaning)
    requires Sound(env, fs0, fs, e, AsValue, m) && Unfinished(e.k)
    ensures fs.jpc == []
  {
  }

  // ---------------------------------------------------------------- the same code

  lemma YieldsSame(env: Env, fs: FS, fs': FS, e: Exp, e': Exp, mode: Mode, base: nat, a: Option<Way>, R: Regs,
                   o: Outcome)
    requires Yields(env, fs, e, mode, base, a, R, o)
    requires fs'.code == fs.code && fs'.jpc == fs.jpc && fs'.K == fs.K
    requires e' == e || (mode != AsValue && e' == e.(k := e'.k))
    ensures Yields(env, fs', e', mode, base, a, R, o)
  {
  }

  lemma CodeSame(fs0: FS, fs: FS, fs': FS, e: Exp, e': Exp, mode: Mode)
    requires CodeOk(fs0, fs, e, mode)
    requires fs'.code == fs.code && fs'.jpc == fs.jpc && fs'.K == fs.K
    requires e' == e || (mode != AsValue && e' == e.(k := e'.k))
    ensures CodeOk(fs0, fs', e', mode)
  {
  }

  /** Registers in use and the error flag do not matter for the generated code, and in a condition the kind
      of the descriptor does not matter either. */
  lemma SameCode(env: Env, fs0: FS, fs: FS, fs': FS, e: Exp, e': Exp, mode: Mode, m: Meaning)
    requires Sound(env, fs0, fs, e, mode, m)
    requires fs'.code == fs.code && fs'.jpc == fs.jpc && fs'.K == fs.K
    requires e' == e || (mode != AsValue && e' == e.(k := e'.k))
    ensures Sound(env, fs0, fs', e', mode, m)
  {
    CodeSame(fs0, fs, fs', e, e', mode);
    forall q, R | Entry(fs0, q)
      ensures Yields(env, fs', e', mode, fs0.freereg, WayFrom(m, fs0, q, R), R, Take(env, Body(fs', e', mode), q, R))
    {
      YieldsSame(env, fs, fs', e, e', mode, fs0.freereg, WayFrom(m, fs0, q, R), R, Take(env, Body(fs, e, mode), q, R));
    }
  }

  /** What is known after `discharge2anyreg`. */
  lemma Discharge2AnyRegSound(env: Env, fs0: FS, fs: FS, e: Exp, m: Meaning)
    requires Ok(env, fs0, fs, e, AsValue, m) && !e.k.VLocal? && !e.k.VJmp?
    requires Discharge2AnyReg(fs, e).fs.K <= env.K
    ensures var g := Discharge2AnyReg(fs, e);
            && Sound(env, fs0, g.fs, g.e, AsValue, if e.k.VNonReloc? then m else Via(m, Settled))
            && g.e.k.VNonReloc? && g.e == e.(k := g.e.k)
            && g.fs.nactvar == fs0.nactvar
            && FreeExp(g.fs, g.e).freereg == fs0.freereg
            && (g.e.k.r < fs0.nactvar || g.e.k.r == fs0.freereg)
  {
    if !e.k.VNonReloc? {
      var fs1 := ReserveReg(fs);
      hide Sound;
      SameCode(env, fs0, fs, fs1, e, e, AsValue, m);
      Discharge2RegSound(env, fs0, fs1, e, fs.freereg, m);
    }
  }
}
