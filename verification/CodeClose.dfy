/** `exp2reg`: the lists of an expression are closed, and its value ends in a register. */
module CodeClose {
  import opened Wrappers
  import opened CodeMachine
  import opened CodeGen
  import opened CodeFlow
  import opened CodeState
  import opened CodeSteps

  // ---------------------------------------------------------------- patched exits

  /** `code` with its exits patched: every jump of the lists leads to the end if it carries a value, and
      otherwise to the load of `false` or `true`. */
  ghost predicate ExitsClosed(body: seq<Instr>, code: seq<Instr>, code': seq<Instr>, e: Exp, reg: nat, pf: nat,
                              pt: nat) {
    && body <= code && |code'| == |code|
    && forall i :: 0 <= i < |code'| ==> code'[i] == ExitAt(code, i, e, |code|, reg, pf, pt)
  }

  ghost predicate OpenExits(code: seq<Instr>, e: Exp, end: nat) {
    forall j :: j in e.t || j in e.f ==> j < end <= |code| && code[j] == Jump(None)
  }

  /** Every jump has somewhere to go. */
  ghost predicate HasTargets(code: seq<Instr>, e: Exp, pf: nat, pt: nat) {
    && (forall j :: j in e.f ==> CarriesValue(code, j) || j < pf <= |code|)
    && (forall j :: j in e.t ==> CarriesValue(code, j) || j < pt <= |code|)
  }

  lemma ExitsLater(body: seq<Instr>, code: seq<Instr>, code': seq<Instr>, e: Exp, reg: nat, pf: nat, pt: nat)
    requires WellFormed(code) && WellFormed(body) && ExitsClosed(body, code, code', e, reg, pf, pt)
             && OpenExits(code, e, |code|)
    ensures Later(body, code', Jumps(e.t) + Jumps(e.f))
  {
    forall i | 0 <= i < |body| ensures Patched(body, code', i) {
      assert FitsAt(code, i) && FitsAt(body, i);
    }
  }

  lemma ExitsWellFormed(body: seq<Instr>, code: seq<Instr>, code': seq<Instr>, e: Exp, reg: nat, pf: nat, pt: nat)
    requires WellFormed(code) && ExitsClosed(body, code, code', e, reg, pf, pt) && OpenExits(code, e, |code|)
             && HasTargets(code, e, pf, pt)
    ensures WellFormed(code')
  {
    forall i | 0 <= i < |code'| ensures FitsAt(code', i) {
      assert FitsAt(code, i);
    }
  }

  /** A jump that carries its value assigns it. */
  lemma ExitTaken(env: Env, body: seq<Instr>, code: seq<Instr>, code': seq<Instr>, e: Exp, reg: nat, pf: nat, pt: nat,
                  j: nat, R: Regs)
    requires WellFormed(code) && ExitsClosed(body, code, code', e, reg, pf, pt) && OpenExits(code, e, |code|)
    requires (j in e.t || j in e.f) && CarriesValue(code, j)
    ensures var o := Take(env, code', j, R);
            o.Reach? && o.R(reg) == R(code[j - 1].b) && forall r: nat :: r != reg ==> o.R(r) == R(r)
  {
    assert FitsAt(code, j - 1);
    assert code'[j - 1] == ExitAt(code, j - 1, e, |code|, reg, pf, pt);
    var R1 := Entered(code', j, R);
    assert code'[j] == ExitAt(code, j, e, |code|, reg, pf, pt) == Jump(Some(|code|));
    assert Exec(env, code', j, R1) == Exec(env, code', |code'|, R1) == Reach(R1);
  }

  /** The two loads of `exp2reg` stand at the end of the code. */
  ghost predicate HasLoads(code: seq<Instr>, reg: nat) {
    && |code| >= 2
    && code[|code| - 2] == LoadBool(reg, false, true) && code[|code| - 1] == LoadBool(reg, true, false)
  }

  /** A jump without a value goes to the load of its truth value. */
  lemma ExitLoads(env: Env, body: seq<Instr>, code: seq<Instr>, code': seq<Instr>, e: Exp, reg: nat, j: nat, R: Regs)
    requires WellFormed(code) && HasLoads(code, reg) && ExitsClosed(body, code, code', e, reg, |code| - 2, |code| - 1)
    requires OpenExits(code, e, |code| - 2)
    requires (j in e.t || j in e.f) && !CarriesValue(code, j) && Apart(e.t, e.f)
    ensures Take(env, code', j, R) == Reach(Set(R, reg, Bool(j in e.t)))
  {
    var n := |code|;
    assert code'[j] == ExitAt(code, j, e, n, reg, n - 2, n - 1);
    assert code'[n - 2] == ExitAt(code, n - 2, e, n, reg, n - 2, n - 1) == code[n - 2];
    assert code'[n - 1] == ExitAt(code, n - 1, e, n, reg, n - 2, n - 1) == code[n - 1];
    assert Entered(code', j, R) == R by {
      if j > 0 {
        assert code'[j - 1] == ExitAt(code, j - 1, e, n, reg, n - 2, n - 1);
      }
    }
    if j in e.t {
      assert Exec(env, code', n - 1, R) == Exec(env, code', n, Set(R, reg, Bool(true)))
             == Reach(Set(R, reg, Bool(true)));
    } else {
      assert Exec(env, code', n - 2, R) == Exec(env, code', n, Set(R, reg, Bool(false)))
             == Reach(Set(R, reg, Bool(false)));
    }
  }

  /** Without loads every jump carries its value; with loads they are where `pf` and `pt` say. */
  ghost predicate LoadsOrValues(code: seq<Instr>, e: Exp, reg: nat, pf: nat, pt: nat) {
    || (forall j :: j in e.t || j in e.f ==> CarriesValue(code, j))
    || (HasLoads(code, reg) && pf == |code| - 2 && pt == |code| - 1 && OpenExits(code, e, |code| - 2))
  }

  /** Where the exits of an expression lead once they have been patched: to the end, with the value in `reg`. */
  lemma ExitDelivers(env: Env, body: seq<Instr>, code: seq<Instr>, code': seq<Instr>, fs': FS, e: Exp, reg: nat,
                     pf: nat, pt: nat, base: nat, a: Option<Way>, R: Regs, j: nat, R': Regs)
    requires WellFormed(code) && ExitsClosed(body, code, code', e, reg, pf, pt) && Apart(e.t, e.f) && reg >= base
    requires OpenExits(code, e, |code|) && LoadsOrValues(code, e, reg, pf, pt)
    requires ExitOk(code, e, base, a, R, j, R')
    ensures var o := Take(env, code', j, R');
            o.Reach? && Yields(env, fs', Exp(VNonReloc(reg), [], []), AsValue, base, Closed(a), R, o)
  {
    if CarriesValue(code, j) {
      ExitTaken(env, body, code, code', e, reg, pf, pt, j, R');
    } else {
      ExitLoads(env, body, code, code', e, reg, j, R');
    }
    var R1 := Take(env, code', j, R').R;
    assert Arrived(base, Closed(a), None, R, R1, R1(reg));
  }

  // ---------------------------------------------------------------- closing

  /** What closing needs to know of the state, the code with its loads, and the patched code. */
  ghost predicate ReadyToClose(fs: FS, e: Exp, e1: Exp, code: seq<Instr>, fs': FS, reg: nat, pf: nat, pt: nat) {
    && WellFormed(fs.code) && WellFormed(code) && ExitsClosed(fs.code, code, fs'.code, e1, reg, pf, pt)
    && Apart(e1.t, e1.f) && OpenExits(code, e1, |fs.code|) && LoadsOrValues(code, e1, reg, pf, pt)
    && HasTargets(code, e1, pf, pt)
    && fs.jpc == []
    && (e.k == VNonReloc(reg) ==>
          && e1 == e
          && (|fs.code| == |code| ==> fs'.jpc == [])
          && (|fs.code| < |code| ==>
                HasLoads(code, reg) && |fs.code| == |code| - 3 && code[|fs.code|] == Jump(None)
                && fs'.jpc == [|fs.code|]))
    && (e.k != VNonReloc(reg) ==>
          && e.k.VJmp? && e1 == e.(t := e.t + [e.k.pc]) && HasLoads(code, reg) && |code| == |fs.code| + 2
          && pf == |code| - 2 && pt == |code| - 1 && fs'.jpc == []
          && 1 <= e.k.pc == |fs.code| - 1 && fs.code[e.k.pc] == Jump(None) && fs.code[e.k.pc - 1].Cmp?
          && OpenExits(code, e, |fs.code| - 2))
  }

  /** Falling through with the value in the register. */
  lemma ValueFalls(env: Env, fs: FS, e: Exp, code: seq<Instr>, fs': FS, reg: nat, pf: nat, pt: nat, base: nat,
                   a: Option<Way>, R: Regs, R': Regs)
    requires ReadyToClose(fs, e, e, code, fs', reg, pf, pt) && e.k == VNonReloc(reg) && reg >= base
    requires KindOk(env, fs, e.k, base, a, None, R, R')
    ensures Yields(env, fs', Exp(VNonReloc(reg), [], []), AsValue, base, Closed(a), R,
            Exec(env, fs'.code, |fs.code|, R'))
  {
    var n := |fs.code|;
    assert Arrived(base, Closed(a), None, R, R', R'(reg));
    if n < |code| {
      assert fs'.code[n] == ExitAt(code, n, e, |code|, reg, pf, pt) == Jump(None);
      assert Exec(env, fs'.code, n, R') == Exit(n, R', false);
      if n > 0 { assert FitsAt(fs.code, n - 1) && fs'.code[n - 1] == ExitAt(code, n - 1, e, |code|, reg, pf, pt); }
    }
  }

  /** The comparison is made, and its outcome is loaded. */
  lemma ComparisonFalls(env: Env, fs: FS, e: Exp, e1: Exp, code: seq<Instr>, fs': FS, reg: nat, pf: nat, pt: nat,
                        base: nat, a: Option<Way>, R: Regs, R': Regs)
    requires ReadyToClose(fs, e, e1, code, fs', reg, pf, pt) && e.k.VJmp? && reg >= base
    requires KindOk(env, fs, e.k, base, a, None, R, R')
    ensures Yields(env, fs', Exp(VNonReloc(reg), [], []), AsValue, base, Closed(a), R,
            Exec(env, fs'.code, |fs.code| - 2, R'))
  {
    var n := |fs.code|;
    var i := fs.code[n - 2];
    var r := env.cmp(i.op, Operand(env, i.x, R'), Operand(env, i.y, R'));
    assert fs'.code[n - 2] == ExitAt(code, n - 2, e1, |code|, reg, n, n + 1) == i;
    if r.Some? {
      var v := r.value == i.accept;
      var R1 := Set(R', reg, Bool(v));
      if v {
        assert !CarriesValue(code, n - 1);
        ExitLoads(env, fs.code, code, fs'.code, e1, reg, n - 1, R');
        assert Take(env, fs'.code, n - 1, R') == Exec(env, fs'.code, n - 1, R');
      } else {
        assert fs'.code[n] == ExitAt(code, n, e1, |code|, reg, n, n + 1) == code[n];
        assert Exec(env, fs'.code, n, R') == Exec(env, fs'.code, n + 2, R1) == Reach(R1);
      }
      assert Arrived(base, Closed(a), None, R, R1, R1(reg));
    }
  }

  lemma ClosedOutcome(env: Env, fs: FS, e: Exp, e1: Exp, code: seq<Instr>, fs': FS, reg: nat, pf: nat, pt: nat,
                      base: nat, a: Option<Way>, R: Regs, o: Outcome)
    requires Yields(env, fs, e, AsValue, base, a, R, o) && reg >= base
    requires ReadyToClose(fs, e, e1, code, fs', reg, pf, pt) && OpenExits(code, e, |Body(fs, e, AsValue)|)
    ensures Yields(env, fs', Exp(VNonReloc(reg), [], []), AsValue, base, Closed(a), R,
            Resume(env, fs'.code, |Body(fs, e, AsValue)|, o))
  {
    match o {
      case Reach(R') =>
        if e.k.VJmp? { ComparisonFalls(env, fs, e, e1, code, fs', reg, pf, pt, base, a, R, R'); }
        else { ValueFalls(env, fs, e, code, fs', reg, pf, pt, base, a, R, R'); }
      case Exit(j, R', valued) =>
        assert Carry(code, j, R') == Carry(fs.code, j, R');
        assert ExitOk(code, e1, base, a, R, j, R');
        ExitDelivers(env, fs.code, code, fs'.code, fs', e1, reg, pf, pt, base, a, R, j, R');
      case _ =>
    }
  }

  lemma ClosedMeans(env: Env, fs0: FS, fs: FS, e: Exp, e1: Exp, code: seq<Instr>, fs': FS, reg: nat, pf: nat, pt: nat,
                    m: Meaning)
    requires Means(env, fs0, fs, e, AsValue, m) && ReadyToClose(fs, e, e1, code, fs', reg, pf, pt) && reg >= fs0.freereg
             && CodeOk(fs0, fs, e, AsValue)
    ensures Means(env, fs0, fs', Exp(VNonReloc(reg), [], []), AsValue, Via(m, Closed))
  {
    var body, e' := Body(fs, e, AsValue), Exp(VNonReloc(reg), [], []);
    assert body <= code;
    assert ExitsClosed(body, code, fs'.code, e1, reg, pf, pt) && OpenExits(code, e1, |code|);
    ExitsLater(body, code, fs'.code, e1, reg, pf, pt);
    ExitsWellFormed(body, code, fs'.code, e1, reg, pf, pt);
    assert OpenExits(code, e, |body|);
    forall q, R | Entry(fs0, q)
      ensures Yields(env, fs', e', AsValue, fs0.freereg, WayFrom(Via(m, Closed), fs0, q, R), R,
              Take(env, fs'.code, q, R))
    {
      var a, o := WayFrom(m, fs0, q, R), Take(env, body, q, R);
      assert Yields(env, fs, e, AsValue, fs0.freereg, a, R, o);
      YieldsProper(env, fs0, fs, e, AsValue, fs0.freereg, a, R, o);
      ComposeTake(env, body, fs'.code, q, R);
      ClosedOutcome(env, fs, e, e1, code, fs', reg, pf, pt, fs0.freereg, a, R, o);
    }
  }

  lemma ClosedCode(fs0: FS, fs: FS, e: Exp, e1: Exp, code: seq<Instr>, fs': FS, reg: nat, pf: nat, pt: nat)
    requires CodeOk(fs0, fs, e, AsValue) && ReadyToClose(fs, e, e1, code, fs', reg, pf, pt) && fs.K <= fs'.K
    ensures CodeOk(fs0, fs', Exp(VNonReloc(reg), [], []), AsValue)
  {
    var body, J := Body(fs, e, AsValue), Jumps(e1.t) + Jumps(e1.f);
    assert ExitsClosed(body, code, fs'.code, e1, reg, pf, pt) && OpenExits(code, e1, |code|);
    ExitsLater(body, code, fs'.code, e1, reg, pf, pt);
    ExitsWellFormed(body, code, fs'.code, e1, reg, pf, pt);
    LaterTwice(fs0.code, Jumps(fs0.jpc), body, J, fs'.code);
    if |fs.code| < |code| { assert fs'.code[|fs.code|] == ExitAt(code, |fs.code|, e1, |code|, reg, pf, pt); }
  }

  lemma ClosedSound(env: Env, fs0: FS, fs: FS, e: Exp, e1: Exp, code: seq<Instr>, fs': FS, reg: nat, pf: nat, pt: nat,
                    m: Meaning)
    requires Sound(env, fs0, fs, e, AsValue, m) && ReadyToClose(fs, e, e1, code, fs', reg, pf, pt) && reg >= fs0.freereg
             && fs.K <= fs'.K
    ensures Sound(env, fs0, fs', Exp(VNonReloc(reg), [], []), AsValue, Via(m, Closed))
  {
    ClosedCode(fs0, fs, e, e1, code, fs', reg, pf, pt);
    ClosedMeans(env, fs0, fs, e, e1, code, fs', reg, pf, pt, m);
  }

  lemma CodeWellFormed(fs0: FS, fs: FS, e: Exp)
    requires CodeOk(fs0, fs, e, AsValue)
    ensures WellFormed(fs.code)
  {
    var body := Body(fs, e, AsValue);
    forall i | 0 <= i < |fs.code| ensures FitsAt(fs.code, i) {
      if i < |body| { assert FitsAt(body, i); }
    }
  }

  lemma LoadsCode(fs: FS, isJump: bool, reg: nat)
    requires WellFormed(fs.code) && fs.jpc == []
    ensures var fs2 := EmitLoads(fs, isJump, reg);
            && fs2.code
                 == fs.code + (if isJump then [] else [Jump(None)])
                 + [LoadBool(reg, false, true), LoadBool(reg, true, false)]
            && fs2.jpc == (if isJump then [] else [|fs.code|])
            && WellFormed(fs2.code) && fs2.K == fs.K && fs2.freereg == fs.freereg && fs2.nactvar == fs.nactvar
  {
    if isJump { assert DischargeJpc(fs).code == fs.code; }
    var code := EmitLoads(fs, isJump, reg).code;
    forall i | 0 <= i < |code| ensures FitsAt(code, i) {
      if i < |fs.code| { assert FitsAt(fs.code, i); }
    }
  }

  lemma {:induction false} AllCarry(code: seq<Instr>, list: seq<nat>)
    requires !NeedValue(code, list)
    ensures forall j :: j in list ==> CarriesValue(code, j)
  {
    if list != [] {
      AllCarry(code, list[1..]);
      assert forall j :: j in list ==> j == list[0] || j in list[1..];
    }
  }

  lemma {:induction false} NeedsOne(code: seq<Instr>, list: seq<nat>, j: nat)
    requires j in list && !CarriesValue(code, j)
    ensures NeedValue(code, list)
  {
    if j != list[0] { NeedsOne(code, list[1..], j); }
  }

  lemma ExitsOpen(fs0: FS, fs: FS, e: Exp, code: seq<Instr>)
    requires CodeOk(fs0, fs, e, AsValue) && fs.code <= code
    ensures OpenExits(code, Exits(e), |fs.code|) && OpenExits(code, e, |Body(fs, e, AsValue)|)
            && Apart(Exits(e).t, Exits(e).f)
  {
    var body := Body(fs, e, AsValue);
    assert forall j :: j in e.t || j in e.f ==> j < |body| && code[j] == body[j];
  }

  lemma PatchedExits(fs: FS, body: seq<Instr>, e: Exp, reg: nat, pf: nat, pt: nat)
    requires body <= fs.code
    ensures var fs' := PatchExits(fs, e, reg, pf, pt);
            ExitsClosed(body, fs.code, fs'.code, e, reg, pf, pt) && fs'.jpc == fs.jpc && fs'.K == fs.K
  {
  }

  /** What the loads, and the jump over them or the jump of the comparison, add to the code. */
  ghost predicate LoadsFollow(fs: FS, e: Exp, code: seq<Instr>, jpc: seq<nat>) {
    if e.k.VJmp? then
      && |code| == |fs.code| + 2 && jpc == [] && 1 <= e.k.pc == |fs.code| - 1
      && fs.code[e.k.pc] == Jump(None) && fs.code[e.k.pc - 1].Cmp? && OpenExits(code, e, |fs.code| - 2)
    else
      |code| == |fs.code| + 3 && code[|fs.code|] == Jump(None) && jpc == [|fs.code|]
  }

  lemma LoadsSuffice(fs: FS, e: Exp, code: seq<Instr>, fs': FS, reg: nat)
    requires WellFormed(fs.code) && WellFormed(code) && HasLoads(code, reg) && |fs.code| <= |code| - 2 && fs.jpc == []
    requires ExitsClosed(fs.code, code, fs'.code, Exits(e), reg, |code| - 2, |code| - 1)
    requires Apart(Exits(e).t, Exits(e).f) && OpenExits(code, Exits(e), |fs.code|)
    requires (e.k == VNonReloc(reg) || e.k.VJmp?) && LoadsFollow(fs, e, code, fs'.jpc)
    ensures ReadyToClose(fs, e, Exits(e), code, fs', reg, |code| - 2, |code| - 1)
  {
    hide WellFormed, ExitsClosed;
  }

  lemma LoadsReady(fs0: FS, fs: FS, e: Exp, reg: nat)
    requires CodeOk(fs0, fs, e, AsValue) && (e.k == VNonReloc(reg) || e.k.VJmp?) && fs.jpc == []
    requires NeedValue(fs.code, Exits(e).t) || NeedValue(fs.code, Exits(e).f)
    ensures var fs2 := EmitLoads(Joined(fs, e), e.k.VJmp?, reg);
            var n := |fs2.code|;
            n >= 2 && ReadyToClose(fs, e, Exits(e), fs2.code, PatchExits(fs2, Exits(e), reg, n - 2, n - 1), reg, n - 2,
              n - 1)
  {
    var fs1, fs2 := Joined(fs, e), EmitLoads(Joined(fs, e), e.k.VJmp?, reg);
    var n := |fs2.code|;
    assert fs1.code == fs.code && fs1.jpc == [];
    if e.k.VJmp? { ComparisonEnds(fs0, fs, e); }
    hide CodeOk, WellFormed, EmitLoads, Joined, NeedValue, PatchExits, ReadyToClose, ExitsClosed, OpenExits, Exits,
      Apart, Body;
    CodeWellFormed(fs0, fs, e);
    LoadsCode(fs1, e.k.VJmp?, reg);
    assert fs.code <= fs2.code;
    ExitsOpen(fs0, fs, e, fs2.code);
    PatchedExits(fs2, fs.code, Exits(e), reg, n - 2, n - 1);
    LoadsSuffice(fs, e, fs2.code, PatchExits(fs2, Exits(e), reg, n - 2, n - 1), reg);
  }

  lemma ComparisonEnds(fs0: FS, fs: FS, e: Exp)
    requires CodeOk(fs0, fs, e, AsValue) && e.k.VJmp?
    ensures |fs.code| >= 2 && |Body(fs, e, AsValue)| == |fs.code| - 2
    ensures 1 <= e.k.pc == |fs.code| - 1 && fs.code[e.k.pc] == Jump(None) && fs.code[e.k.pc - 1].Cmp?
  {
  }

  lemma CloseLoads(fs: FS, e: Exp, reg: nat)
    requires NeedValue(fs.code, Exits(e).t) || NeedValue(fs.code, Exits(e).f)
    ensures var fs2 := EmitLoads(Joined(fs, e), e.k.VJmp?, reg);
            var fs' := PatchExits(fs2, Exits(e), reg, |fs2.code| - 2, |fs2.code| - 1);
            fs.K <= fs'.K && Close(fs, e, reg) == Gen(fs', Exp(VNonReloc(reg), [], []))
  {
    hide ExitCode;
  }

  lemma SoundCode(env: Env, fs0: FS, fs: FS, e: Exp, m: Meaning)
    requires Sound(env, fs0, fs, e, AsValue, m)
    ensures CodeOk(fs0, fs, e, AsValue)
  {
  }

  lemma CloseWithLoads(env: Env, fs0: FS, fs: FS, e: Exp, reg: nat, m: Meaning)
    requires Sound(env, fs0, fs, e, AsValue, m) && reg >= fs0.freereg && (e.k == VNonReloc(reg) || e.k.VJmp?)
             && fs.jpc == []
    requires NeedValue(fs.code, Exits(e).t) || NeedValue(fs.code, Exits(e).f)
    ensures Sound(env, fs0, Close(fs, e, reg).fs, Exp(VNonReloc(reg), [], []), AsValue, Via(m, Closed))
  {
    var fs2 := EmitLoads(Joined(fs, e), e.k.VJmp?, reg);
    var n := |fs2.code|;
    hide Sound, CodeOk, Means, ReadyToClose, EmitLoads, PatchExits, NeedValue, Close, Exits, Joined;
    CloseLoads(fs, e, reg);
    assert CodeOk(fs0, fs, e, AsValue) by { SoundCode(env, fs0, fs, e, m); }
    LoadsReady(fs0, fs, e, reg);
    ClosedSound(env, fs0, fs, e, Exits(e), fs2.code, PatchExits(fs2, Exits(e), reg, n - 2, n - 1), reg, n - 2, n - 1,
      m);
  }

  lemma CloseWithoutLoads(env: Env, fs0: FS, fs: FS, e: Exp, reg: nat, m: Meaning)
    requires Sound(env, fs0, fs, e, AsValue, m) && reg >= fs0.freereg && HasJumps(e) && e.k == VNonReloc(reg)
             && fs.jpc == []
    requires !NeedValue(fs.code, e.t) && !NeedValue(fs.code, e.f)
    ensures Sound(env, fs0, Close(fs, e, reg).fs, Exp(VNonReloc(reg), [], []), AsValue, Via(m, Closed))
  {
    AllCarry(fs.code, e.t);
    AllCarry(fs.code, e.f);
    CodeWellFormed(fs0, fs, e);
    ExitsOpen(fs0, fs, e, fs.code);
    var fs' := PatchExits(fs, e, reg, 0, 0);
    assert ReadyToClose(fs, e, e, fs.code, fs', reg, 0, 0);
    ClosedSound(env, fs0, fs, e, e, fs.code, fs', reg, 0, 0, m);
  }

  /** Nothing is to be closed. */
  lemma CloseNothing(env: Env, fs0: FS, fs: FS, e: Exp, reg: nat, m: Meaning)
    requires Sound(env, fs0, fs, e, AsValue, m) && !HasJumps(e) && e.k == VNonReloc(reg) && fs.jpc == []
    ensures Sound(env, fs0, fs, e, AsValue, Via(m, Closed))
  {
    forall q, R | Entry(fs0, q)
      ensures Yields(env, fs, e, AsValue, fs0.freereg, WayFrom(Via(m, Closed), fs0, q, R), R, Take(env, fs.code, q, R))
    {
      assert Yields(env, fs, e, AsValue, fs0.freereg, WayFrom(m, fs0, q, R), R, Take(env, fs.code, q, R));
    }
  }

  lemma CloseSound(env: Env, fs0: FS, fs: FS, e: Exp, reg: nat, m: Meaning)
    requires Sound(env, fs0, fs, e, AsValue, m) && reg >= fs0.freereg
    requires (e.k == VNonReloc(reg) || e.k.VJmp?) && fs.jpc == []
    ensures Sound(env, fs0, Close(fs, e, reg).fs, Exp(VNonReloc(reg), [], []), AsValue, Via(m, Closed))
  {
    if e.k.VJmp? {
      assert !CarriesValue(fs.code, e.k.pc);
      NeedsOne(fs.code, Exits(e).t, e.k.pc);
    }
    if NeedValue(fs.code, Exits(e).t) || NeedValue(fs.code, Exits(e).f) {
      CloseWithLoads(env, fs0, fs, e, reg, m);
    } else if HasJumps(e) {
      CloseWithoutLoads(env, fs0, fs, e, reg, m);
    } else {
      assert Close(fs, e, reg).fs == fs && e == Exp(VNonReloc(reg), [], []);
      CloseNothing(env, fs0, fs, e, reg, m);
    }
  }

  // ---------------------------------------------------------------- exp2reg

  lemma CloseKeeps(fs: FS, e: Exp, reg: nat)
    ensures var g := Close(fs, e, reg); g.fs.K == fs.K && g.fs.freereg == fs.freereg && g.fs.nactvar == fs.nactvar
    ensures Close(fs, e, reg).e == Exp(VNonReloc(reg), [], [])
  {
  }

  lemma Discharge2RegKeeps(fs: FS, e: Exp, reg: nat)
    ensures var g := Discharge2Reg(fs, e, reg);
            && (g.e.k.VNonReloc? || g.e.k.VJmp?) && (g.e.k.VJmp? <==> e.k.VJmp?)
            && (e.k.VJmp? ==> g == Gen(fs, e))
            && g.fs.freereg == fs.freereg && g.fs.nactvar == fs.nactvar
  {
  }

  /** `exp2reg` leaves the value of the expression in `reg`, however control got there; a jump that carries a
      value delivers that one. */
  lemma Exp2RegSound(env: Env, fs0: FS, fs: FS, e: Exp, reg: nat, m: Meaning)
    requires Sound(env, fs0, fs, e, AsValue, m) && reg >= fs0.freereg && Exp2Reg(fs, e, reg).fs.K <= env.K
    requires DischargeVars(e).k != VNonReloc(reg)
    ensures var g := Exp2Reg(fs, e, reg);
            Sound(env, fs0, g.fs, g.e, AsValue, Via(m, Closed)) && g.e == Exp(VNonReloc(reg), [], [])
  {
    var g := Discharge2Reg(fs, e, reg);
    Discharge2RegKeeps(fs, e, reg);
    CloseKeeps(g.fs, g.e, reg);
    if e.k.VJmp? {
      RelocJpc(env, fs0, fs, e, m);
      hide Sound;
      CloseSound(env, fs0, fs, e, reg, m);
    } else {
      hide Sound;
      Discharge2RegSound(env, fs0, fs, e, reg, m);
      CloseSound(env, fs0, g.fs, g.e, reg, Via(m, Settled));
      ClosedSettled(m);
      SameMeaning(env, fs0, Close(g.fs, g.e, reg).fs, Exp(VNonReloc(reg), [], []), AsValue,
        Via(Via(m, Settled), Closed), Via(m, Closed));
    }
  }

  lemma ClosedSettled(m: Meaning)
    ensures SameWays(Via(Via(m, Settled), Closed), Via(m, Closed))
  {
    var m1, m2 := Via(Via(m, Settled), Closed), Via(m, Closed);
    forall R, c ensures m2(R, c) == m1(R, c) {
      assert Closed(Settled(m(R, c))) == Closed(m(R, c));
    }
  }
}
