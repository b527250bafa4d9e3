/** One piece of generated code after another: `and` and `or`. */
module CodeSequel {
  import opened Wrappers
  import opened CodeMachine
  import opened CodeGen
  import opened CodeFlow
  import opened CodeState
  import opened CodeConditions

  /** What the meaning says depends only on the registers below `base`. */
  ghost predicate Locally(m: Meaning, base: nat) {
    forall R, R', c {:trigger Agree(R, R', base, -1), m(R, c)} :: Agree(R, R', base, -1) ==> m(R', c) == m(R, c)
  }

  /** The descriptor of `l and r` (`cond == false`) or `l or r` (`cond == true`): the exits of the first
      operand join those of the second. */
  ghost function Merged(e: Exp, e2: Exp, cond: bool): Exp {
    if cond then e.(t := e.t + e2.t) else e.(f := e.f + e2.f)
  }

  ghost predicate Junction(fs0: FS, fs1: FS, e1: Exp, fs2: FS, e2: Exp, cond: bool) {
    && CodeOk(fs0, fs1, e1, Otherwise(cond)) && CodeOk(fs1, fs2, e2, AsValue)
    && (if cond then e1.f == [] else e1.t == [])
  }

  ghost predicate SameExit(code: seq<Instr>, code': seq<Instr>, j: nat) {
    && j < |code'| && code'[j] == Jump(None)
    && CarriesValue(code', j) == CarriesValue(code, j) && (CarriesValue(code, j) ==> code'[j - 1] == code[j - 1])
  }

  /** The exits of the first operand stay as they were. */
  lemma ExitsKept(fs0: FS, fs1: FS, e1: Exp, fs2: FS, e2: Exp, cond: bool)
    requires Junction(fs0, fs1, e1, fs2, e2, cond)
    ensures forall j :: j in e1.t || j in e1.f ==> SameExit(fs1.code, Body(fs2, e2, AsValue), j)
  {
    var body2, J := Body(fs2, e2, AsValue), Jumps(fs1.jpc);
    forall j | j in e1.t || j in e1.f
      ensures SameExit(fs1.code, body2, j)
    {
      assert j < |fs1.code| && fs1.code[j] == Jump(None) && j !in J;
      assert body2[j] == fs1.code[j];
      if j > 0 { assert Patched(fs1.code, body2, j - 1); }
    }
  }

  lemma JunctionLists(fs0: FS, fs1: FS, e1: Exp, fs2: FS, e2: Exp, cond: bool)
    requires Junction(fs0, fs1, e1, fs2, e2, cond)
    ensures ListsOk(fs0, fs2, Merged(e2, e1, cond), AsValue)
  {
    var l1, l2 := if cond then e1.t else e1.f, if cond then e2.t else e2.f;
    ExitsKept(fs0, fs1, e1, fs2, e2, cond);
    assert forall j :: j in l1 ==> SameExit(fs1.code, Body(fs2, e2, AsValue), j);
    DistinctAppend(l2, l1);
  }

  lemma JunctionCode(fs0: FS, fs1: FS, e1: Exp, fs2: FS, e2: Exp, cond: bool)
    requires Junction(fs0, fs1, e1, fs2, e2, cond)
    ensures CodeOk(fs0, fs2, Merged(e2, e1, cond), AsValue)
  {
    JunctionLists(fs0, fs1, e1, fs2, e2, cond);
    LaterTwice(fs0.code, Jumps(fs0.jpc), fs1.code, Jumps(fs1.jpc), Body(fs2, e2, AsValue));
  }

  /** An exit of the first operand is an exit of the whole. */
  lemma ExitOfWhole(code1: seq<Instr>, e1: Exp, fs2: FS, body2: seq<Instr>, e: Exp, base: nat, a: Option<Way>, R: Regs,
                    j: nat, R': Regs)
    requires ExitOk(code1, e1, base, a, R, j, R') && SameExit(code1, body2, j) && body2 <= fs2.code
    requires (j in e1.t ==> j in e.t) && (j in e1.f ==> j in e.f)
    ensures ExitOk(fs2.code, e, base, a, R, j, R') && CarriesValue(fs2.code, j) == CarriesValue(code1, j)
  {
    assert j > 0 ==> fs2.code[j - 1] == body2[j - 1];
  }

  lemma KindOfWhole(env: Env, fs: FS, k: Kind, base: nat, a: Option<Way>, c: Option<Value>, R: Regs, R': Regs,
                    R'': Regs)
    requires KindOk(env, fs, k, base, a, c, R', R'') && Agree(R, R', base, -1)
    ensures KindOk(env, fs, k, base, a, c, R, R'')
  {
    assert forall w :: Arrived(base, a, c, R', R'', w) ==> Arrived(base, a, c, R, R'', w);
  }

  /** A result of the second operand, from the registers that the first left, is a result of the whole. */
  lemma RestOfWhole(env: Env, fs: FS, e2: Exp, e: Exp, base: nat, a: Option<Way>, R: Regs, R': Regs, o: Outcome)
    requires Yields(env, fs, e2, AsValue, base, a, R', o) && Agree(R, R', base, -1)
    requires e.k == e2.k && (forall j :: j in e2.t ==> j in e.t) && (forall j :: j in e2.f ==> j in e.f)
    ensures Yields(env, fs, e, AsValue, base, a, R, o)
  {
    match o {
      case Reach(R'') => KindOfWhole(env, fs, e2.k, base, a, None, R, R', R'');
      case Exit(j, R'', _) => if j in fs.jpc { KindOfWhole(env, fs, e2.k, base, a, Carry(fs.code, j, R''), R, R', R'');
        }
      case _ =>
    }
  }

  /** The first operand has fallen through, so the value is that of the second. */
  lemma JunctionFalls(env: Env, fs0: FS, fs1: FS, e1: Exp, fs2: FS, e2: Exp, cond: bool, a1: Option<Way>,
                      c: Option<Value>, m2: Meaning, R: Regs, R': Regs, q: nat)
    requires FallOk(env, fs1, e1, Otherwise(cond), fs0.freereg, a1, c, R, R')
    requires Entry(fs1, q) && c == Carry(fs1.code, q, R') && Means(env, fs1, fs2, e2, AsValue, m2)
             && Locally(m2, fs0.freereg)
    requires fs1.freereg == fs0.freereg
    ensures Yields(env, fs2, Merged(e2, e1, cond), AsValue, fs0.freereg, Follow(a1, m2, R), R,
            Take(env, Body(fs2, e2, AsValue), q, R'))
  {
    var o := Take(env, Body(fs2, e2, AsValue), q, R');
    assert Yields(env, fs2, e2, AsValue, fs0.freereg, WayFrom(m2, fs1, q, R'), R', o);
    assert Agree(R, R', fs0.freereg, -1);
    assert m2(R', c) == m2(R, c);
    RestOfWhole(env, fs2, e2, Merged(e2, e1, cond), fs0.freereg, m2(R', c), R, R', o);
  }

  ghost function Follow(a1: Option<Way>, m2: Meaning, R: Regs): Option<Way> {
    match a1
    case Some(Falls(_, c1)) => m2(R, c1)
    case _ => a1
  }

  lemma JunctionOutcome(env: Env, fs0: FS, fs1: FS, e1: Exp, fs2: FS, e2: Exp, cond: bool, a1: Option<Way>, m2: Meaning,
                        R: Regs, o: Outcome)
    requires Yields(env, fs1, e1, Otherwise(cond), fs0.freereg, a1, R, o) && Junction(fs0, fs1, e1, fs2, e2, cond)
    requires Means(env, fs1, fs2, e2, AsValue, m2) && Locally(m2, fs0.freereg)
    requires fs1.freereg == fs0.freereg
    ensures Yields(env, fs2, Merged(e2, e1, cond), AsValue, fs0.freereg, Follow(a1, m2, R), R,
            Resume(env, Body(fs2, e2, AsValue), |fs1.code|, o))
  {
    var body2 := Body(fs2, e2, AsValue);
    match o {
      case Reach(R') =>
        TakeStart(env, fs1.code, body2, R');
        JunctionFalls(env, fs0, fs1, e1, fs2, e2, cond, a1, None, m2, R, R', |fs1.code|);
      case Exit(j, R', valued) =>
        if j in fs1.jpc {
          JunctionFalls(env, fs0, fs1, e1, fs2, e2, cond, a1, Carry(fs1.code, j, R'), m2, R, R', j);
        } else {
          ExitsKept(fs0, fs1, e1, fs2, e2, cond);
          JunctionLists(fs0, fs1, e1, fs2, e2, cond);
          ExitOfWhole(fs1.code, e1, fs2, body2, Merged(e2, e1, cond), fs0.freereg, a1, R, j, R');
        }
      case _ =>
    }
  }

  lemma JunctionSound(env: Env, fs0: FS, fs1: FS, e1: Exp, fs2: FS, e2: Exp, cond: bool, m1: Meaning, m2: Meaning)
    requires Junction(fs0, fs1, e1, fs2, e2, cond)
    requires Means(env, fs0, fs1, e1, Otherwise(cond), m1) && Means(env, fs1, fs2, e2, AsValue, m2)
             && Locally(m2, fs0.freereg)
    requires fs1.freereg == fs0.freereg
    ensures Sound(env, fs0, fs2, Merged(e2, e1, cond), AsValue, Seq(m1, m2))
  {
    var e, body2 := Merged(e2, e1, cond), Body(fs2, e2, AsValue);
    JunctionCode(fs0, fs1, e1, fs2, e2, cond);
    forall q, R | Entry(fs0, q)
      ensures Yields(env, fs2, e, AsValue, fs0.freereg, WayFrom(Seq(m1, m2), fs0, q, R), R, Take(env, body2, q, R))
    {
      var a1, o := WayFrom(m1, fs0, q, R), Take(env, fs1.code, q, R);
      assert Yields(env, fs1, e1, Otherwise(cond), fs0.freereg, a1, R, o);
      YieldsProper(env, fs0, fs1, e1, Otherwise(cond), fs0.freereg, a1, R, o);
      ComposeTake(env, fs1.code, body2, q, R);
      JunctionOutcome(env, fs0, fs1, e1, fs2, e2, cond, a1, m2, R, o);
      assert WayFrom(Seq(m1, m2), fs0, q, R) == Follow(a1, m2, R);
    }
  }
}
