/** Code generation as lua/lcode.c does it: `FuncState` is updated in place and patch lists are threaded
    through its code array. Every method is proved to do what its function in `CodeGen` does to the lists
    themselves, and to leave alone the jumps of all other lists. */
module CodeEmit {
  import opened Wrappers
  import opened CodeMachine
  import opened CodeGen
  import opened CodeState
  import opened CodeLists
  import opened CodeStored
  import opened CodeErrors
  import opened CodeTheorem
  import opened CodeExact
  import opened CodeLimits
  import opened CodeCompare

  /** How an instruction is stored, if it is not a jump. */
  function WordOf(i: Instr): Word { if i.TestSet? then TSet(NO_REG, i.b, i.c) else Plain(i) }

  /** The instruction that puts a value of this kind into a register. */
  function LoadOf(k: Kind, reg: nat): (i: Instr)
    ensures !IsTest(i) && !i.Jump?
  {
    match k
    case VTrue => LoadBool(reg, true, false)
    case VK(i) => LoadK(reg, i)
    case VNonReloc(r) => Move(reg, r)
    case _ => LoadBool(reg, false, false)
  }

  /** The part of `FuncState` that code generation updates. `abs` is its state as `CodeGen` sees it. Once
      an error has been raised, nothing is promised but that it stays raised. */
  class FuncState {
    var code: seq<Word>
    var jpc: int
    var freereg: nat
    var nactvar: nat
    var K: seq<Value>
    var failed: bool
    ghost var abs: FS

    ghost predicate Stored()
      reads this
    {
      && failed == abs.err
      && (!failed ==> StoresAll(code, abs.code) && freereg == abs.freereg && nactvar == abs.nactvar && K == abs.K)
    }

    /** `head` is the head of the pending list `l`. */
    ghost predicate Holds(head: int, l: seq<nat>)
      reads this
    {
      !failed ==> IsList(code, head, l) && AllOpen(abs.code, l)
    }

    ghost predicate Valid()
      reads this
    {
      Stored() && Holds(jpc, abs.jpc)
    }

    constructor (nactvar: nat)
      ensures Valid() && abs == FS([], [], nactvar, nactvar, [], false)
    {
      code, jpc, freereg, this.nactvar, K, failed := [], NO_JUMP, nactvar, nactvar, [], false;
      abs := FS([], [], nactvar, nactvar, [], false);
    }

    // -------------------------------------------------------------- single jumps

    method FixJump(pc: nat, dest: int)
      requires !failed && pc < |code| && code[pc].Jmp?
      modifies this`code, this`failed
      ensures failed <==> TooFar(pc, dest)
      ensures code == if failed then old(code) else old(code)[pc := Jmp(dest - (pc + 1))]
    {
      var offset := dest - (pc + 1);
      if offset > MAXARG_sBx || -offset > MAXARG_sBx {
        failed := true;
      } else {
        code := code[pc := Jmp(offset)];
      }
    }

    method GetJump(pc: nat) returns (next: int)
      requires pc < |code| && code[pc].Jmp?
      ensures next == Next(code, pc)
    {
      var offset := code[pc].sbx;
      if offset == NO_JUMP { return NO_JUMP; }
      return pc + 1 + offset;
    }

    method PatchTestReg(node: nat, reg: nat) returns (valued: bool)
      requires node < |code| && code[node].Jmp?
      modifies this`code
      ensures valued == ValuedWord(old(code), node)
      ensures code == if valued then old(code)[node - 1 := PatchWord(old(code)[node - 1], reg)] else old(code)
    {
      if node < 1 || !code[node - 1].TSet? { return false; }
      var i := code[node - 1];
      if reg != NO_REG && reg != i.b {
        code := code[node - 1 := i.(a := reg)];
      } else {
        code := code[node - 1 := Plain(Test(i.b, i.c))];
      }
      return true;
    }

    // -------------------------------------------------------------- walks along a list

    method NeedValue(head: int, ghost L: seq<nat>) returns (r: bool)
      requires Stored() && !failed && Holds(head, L)
      ensures r == CodeGen.NeedValue(abs.code, L)
    {
      var list := head;
      ghost var k := 0;
      while list != NO_JUMP
        invariant 0 <= k <= |L| && IsList(code, list, L[k..])
        invariant CodeGen.NeedValue(abs.code, L) == CodeGen.NeedValue(abs.code, L[k..])
        decreases |L| - k
      {
        assert L[k..][0] in L;
        var valued := list >= 1 && code[list - 1].TSet?;
        assert Stores(code[list], abs.code[list], list);
        assert list >= 1 ==> Stores(code[list - 1], abs.code[list - 1], list - 1);
        if !valued { return true; }
        assert L[k..][1..] == L[k + 1..];
        list := GetJump(list);
        k := k + 1;
      }
      return false;
    }

    method RemoveValues(head: int, ghost L: seq<nat>)
      requires Stored() && !failed && Holds(head, L)
      modifies this`code, this`abs
      ensures Stored() && abs == old(abs).(code := Demote(old(abs.code), L))
      ensures Kept(old(code), old(abs.code), code, abs.code, {})
    {
      var list := head;
      ghost var k := 0;
      while list != NO_JUMP
        invariant 0 <= k <= |L| && IsList(code, list, L[k..])
        invariant DemotedWords(old(code), code, L[..k]) && abs == old(abs)
        decreases |L| - k
      {
        DemotedStep(old(code), code, list, L, k);
        var next := GetJump(list);
        var _ := PatchTestReg(list, NO_REG);
        list := next;
        k := k + 1;
      }
      assert L[..k] == L;
      DemotedStored(old(code), abs.code, code, L);
      abs := abs.(code := Demote(abs.code, L));
    }

    /** Every jump of the list is given a target once: `vtarget` if it carries a value, `dtarget` otherwise. */
    method PatchListAux(head: int, vtarget: int, reg: nat, dtarget: int, ghost L: seq<nat>)
      requires !failed && IsList(code, head, L)
      modifies this`code, this`failed
      ensures failed == AnyTooFar(old(code), L, vtarget, dtarget)
      ensures !failed ==> PatchedWords(old(code), code, Jumps(L), vtarget, reg, dtarget)
    {
      hide PatchedWords, Front, AnyTooFar, IsList;
      PatchedNone(code, L, vtarget, reg, dtarget);
      assert L[0..] == L;
      var list := head;
      ghost var k: nat, done: set<nat> := 0, {};
      while list != NO_JUMP
        invariant 0 <= k <= |L| && IsList(old(code), head, L) && IsList(code, list, L[k..]) && !failed
        invariant Front(L, k, done)
        invariant PatchedWords(old(code), code, done, vtarget, reg, dtarget)
        invariant AnyTooFar(old(code), L, vtarget, dtarget) == AnyTooFar(old(code), L[k..], vtarget, dtarget)
        decreases |L| - k
      {
        ghost var before := code;
        ListStep(before, list, L, k);
        FarStep(old(code), L, k, vtarget, dtarget);
        PatchedStep(old(code), before, head, L, k, done, vtarget, reg, dtarget);
        var next := GetJump(list);
        var valued := PatchTestReg(list, reg);
        FixJump(list, if valued then vtarget else dtarget);
        if failed { return; }
        assert code == PatchOne(before, list, vtarget, reg, dtarget);
        list := next;
        k, done := k + 1, done + {L[k]};
      }
      PatchedEnd(code, list, L, k, done);
      NoneFar(old(code), L, vtarget, dtarget);
    }

    /** The same for the lists of the generation state. */
    method PatchListTo(head: int, vtarget: nat, reg: nat, dtarget: int, ghost L: seq<nat>, ghost d: nat)
      requires Stored() && !failed && Holds(head, L)
      requires SameTargets(abs.code, L, dtarget, d)
      modifies this`code, this`abs, this`failed
      ensures Stored()
      ensures abs == old(abs).(code := PatchList(old(abs.code), L, vtarget, RegOf(reg), d),
                               err := AnyFar(old(abs.code), L, vtarget, d))
      ensures !failed ==> Kept(old(code), old(abs.code), code, abs.code, Jumps(L))
    {
      FarAlike(code, abs.code, L, vtarget, dtarget, d);
      PatchListAux(head, vtarget, reg, dtarget, L);
      if !failed { PatchedStored(old(code), abs.code, code, L, vtarget, reg, dtarget, d); }
      abs := abs.(code := PatchList(abs.code, L, vtarget, RegOf(reg), d), err := AnyFar(abs.code, L, vtarget, d));
    }

    /** `luaK_concat` appends: only the last jump of the first list changes. */
    method Concat(l1: int, l2: int, ghost L1: seq<nat>, ghost L2: seq<nat>) returns (l: int)
      requires Stored() && !failed && Holds(l1, L1) && Holds(l2, L2) && Apart(L1, L2)
      modifies this`code, this`failed, this`abs
      ensures Stored() && abs == Linked(old(abs), L1, L2) && Holds(l, L1 + L2)
      ensures !failed ==> Kept(old(code), old(abs.code), code, abs.code, Jumps(L1))
    {
      if l2 == NO_JUMP {
        assert L1 + L2 == L1;
        return l1;
      } else if l1 == NO_JUMP {
        assert L1 + L2 == L2;
        return l2;
      }
      var list: nat := l1;
      ghost var k := 0;
      var next := GetJump(list);
      while next != NO_JUMP
        invariant 0 <= k < |L1| && list == L1[k] && IsList(code, list, L1[k..])
        invariant code == old(code) && abs == old(abs) && !failed
        invariant code[list].Jmp? && next == Next(code, list)
        decreases |L1| - k
      {
        assert L1[k..][1..] == L1[k + 1..];
        list := next;
        k := k + 1;
        next := GetJump(list);
      }
      assert L1[k..][1..] == L1[k + 1..];
      assert list in L1 && L2[0] in L2;
      assert abs.code[list] == Jump(None) && Stores(code[list], abs.code[list], list);
      FixJump(list, l2);
      abs := Linked(abs, L1, L2);
      if !failed {
        AppendList(old(code), code, l1, L1, l2, L2);
      }
      return l1;
    }

    // -------------------------------------------------------------- code

    /** `dischargejpc`: the jumps pending to this place lead here. */
    method DischargeJpc()
      requires Valid() && !failed
      modifies this`code, this`jpc, this`failed, this`abs
      ensures Valid() && abs == CodeGen.DischargeJpc(old(abs))
      ensures !failed ==> Kept(old(code), old(abs.code), code, abs.code, Jumps(old(abs.jpc)))
    {
      ghost var jumps := abs.jpc;
      PatchListTo(jpc, |code|, NO_REG, |code|, jumps, |code|);
      jpc := NO_JUMP;
      abs := abs.(jpc := []);
    }

    /** `luaK_code`. */
    method Emit(i: Instr) returns (pc: nat)
      requires Valid() && !failed && !i.Jump? && (i.TestSet? ==> i.to.None?)
      modifies this`code, this`jpc, this`failed, this`abs
      ensures Valid() && abs == CodeGen.Emit(old(abs), i) && pc == |old(code)|
      ensures !failed ==> Kept(old(code), old(abs.code), code, abs.code, Jumps(old(abs.jpc)))
    {
      pc := |code|;
      DischargeJpc();
      abs := abs.(code := abs.code + [i]);
      if failed { return; }
      code := code + [WordOf(i)];
    }

    /** `luaK_jump`: the jumps pending to this place join the list of the new jump. */
    method EmitJump() returns (j: int, ghost J: seq<nat>)
      requires Valid() && !failed
      modifies this`code, this`jpc, this`failed, this`abs
      ensures Valid() && Jumped(abs, J) == CodeGen.EmitJump(old(abs)) && Holds(j, J)
      ensures !failed ==> Kept(old(code), old(abs.code), code, abs.code, {})
    {
      var pending := jpc;
      ghost var jumps := abs.jpc;
      jpc := NO_JUMP;
      abs := abs.(jpc := []);
      j := |code|;
      code := code + [Jmp(NO_JUMP)];
      abs := abs.(code := abs.code + [Jump(None)]);
      J := [j as nat];
      ListKept(old(code), old(abs.code), code, abs.code, {}, pending, jumps);
      j := Concat(j, pending, J, jumps);
      J := J + jumps;
    }

    /** `luaK_patchtohere`. */
    method PatchToHere(list: int, ghost L: seq<nat>)
      requires Valid() && !failed && Holds(list, L) && Apart(abs.jpc, L)
      modifies this`code, this`jpc, this`failed, this`abs
      ensures Valid() && abs == CodeGen.PatchToHere(old(abs), L)
      ensures !failed ==> Kept(old(code), old(abs.code), code, abs.code, Jumps(old(abs.jpc)))
    {
      ghost var jumps := abs.jpc;
      jpc := Concat(jpc, list, jumps, L);
      abs := abs.(jpc := jumps + L);
    }

    // -------------------------------------------------------------- registers and constants

    method ReserveReg()
      requires Valid() && !failed
      modifies this`freereg, this`failed, this`abs
      ensures Valid() && abs == CodeGen.ReserveReg(old(abs))
    {
      freereg := freereg + 1;
      if freereg >= MAXSTACK { failed := true; }
      abs := CodeGen.ReserveReg(abs);
    }

    method FreeExp(k: Kind, ghost E: Exp)
      requires Valid() && !failed && k == E.k
      modifies this`freereg, this`abs
      ensures Valid() && abs == CodeGen.FreeExp(old(abs), E)
    {
      if k.VNonReloc? && k.r >= nactvar && freereg > 0 { freereg := freereg - 1; }
      abs := CodeGen.FreeExp(abs, E);
    }

    method AddK(v: Value) returns (i: nat)
      requires Valid() && !failed
      modifies this`K, this`failed, this`abs
      ensures Valid() && Added(abs, i) == CodeGen.AddK(old(abs), v)
    {
      i := IndexOf(K, v);
      if i == |K| {
        if |K| >= MAXARG_Bx { failed := true; }
        K := K + [v];
      }
      abs := CodeGen.AddK(abs, v).fs;
    }

    // -------------------------------------------------------------- values in registers

    /** The descriptor has the heads of the lists of `E`. */
    ghost predicate Describes(e: ExpDesc, E: Exp)
      reads this
    {
      e.k == E.k && (!failed ==> Heads(code, abs.code, e, E))
    }

    /** `hasjumps`. */
    lemma JumpsSeen(e: ExpDesc, E: Exp)
      requires Describes(e, E) && !failed && Apart(E.t, E.f)
      ensures e.t != e.f <==> HasJumps(E)
    {
      if E.t != [] && E.f != [] { assert E.t[0] in E.t && E.f[0] in E.f; }
    }

    /** The destination of the instruction at `pc`, a NOT, is set. */
    method SetDestination(pc: nat, reg: nat)
      requires Valid() && !failed && pc < |abs.code| && abs.code[pc].NotI?
      modifies this`code, this`abs
      ensures Valid() && !failed && abs == old(abs).(code := old(abs.code)[pc := SetA(old(abs.code)[pc], reg)])
      ensures Kept(old(code), old(abs.code), code, abs.code, {})
    {
      ghost var fs := abs;
      assert Stores(code[pc], abs.code[pc], pc);
      code := code[pc := Plain(NotI(reg, code[pc].i.b))];
      abs := abs.(code := abs.code[pc := SetA(abs.code[pc], reg)]);
      ListKept(old(code), fs.code, code, abs.code, {}, jpc, abs.jpc);
    }

    method Discharge2Reg(e: ExpDesc, reg: nat, ghost E: Exp) returns (e': ExpDesc)
      requires Valid() && !failed && Describes(e, E) && WellKept(abs, E)
      modifies this`code, this`jpc, this`K, this`failed, this`abs
      ensures Valid() && abs == CodeGen.Discharge2Reg(old(abs), E, reg).fs
      ensures !failed ==> var E' := CodeGen.Discharge2Reg(old(abs), E, reg).e;
                          Describes(e', E') && WellKept(abs, E')
                            && Kept(old(code), old(abs.code), code, abs.code, Jumps(old(abs.jpc)))
    {
      var k := DischargeVars(Exp(e.k, [], [])).k;
      if k.VJmp? { return e; }
      if k.VKNum? {
        var i := AddK(Num(k.n));
        if failed { abs := CodeGen.Discharge2Reg(old(abs), E, reg).fs; return e; }
        var _ := Emit(LoadK(reg, i));
      } else if k.VReloc? {
        SetDestination(k.pc, reg);
      } else if k != VNonReloc(reg) {
        var _ := Emit(LoadOf(k, reg));
      }
      e' := e.(k := VNonReloc(reg));
      if !failed { HeadsKept(old(code), old(abs.code), code, abs.code, Jumps(old(abs.jpc)), e, E, VNonReloc(reg)); }
    }

    method Discharge2AnyReg(e: ExpDesc, ghost E: Exp) returns (e': ExpDesc)
      requires Valid() && !failed && Describes(e, E) && WellKept(abs, E)
      modifies this`code, this`jpc, this`freereg, this`K, this`failed, this`abs
      ensures Valid() && abs == CodeGen.Discharge2AnyReg(old(abs), E).fs
      ensures !failed ==> var E' := CodeGen.Discharge2AnyReg(old(abs), E).e;
                          Describes(e', E') && WellKept(abs, E')
                            && Kept(old(code), old(abs.code), code, abs.code, Jumps(old(abs.jpc)))
    {
      if e.k.VNonReloc? { return e; }
      ReserveReg();
      if failed {
        Discharge2RegErr(abs, E, old(abs.freereg));
        abs := CodeGen.Discharge2AnyReg(old(abs), E).fs;
        return e;
      }
      e' := Discharge2Reg(e, freereg - 1, E);
    }

    // -------------------------------------------------------------- closing the lists

    /** A jump over the loads, and `code_label` for both of them. */
    method EmitLoads(isJump: bool, reg: nat) returns (pf: nat, pt: nat)
      requires Valid() && !failed && (isJump ==> abs.jpc == [])
      modifies this`code, this`jpc, this`failed, this`abs
      ensures Valid() && abs == CodeGen.EmitLoads(old(abs), isJump, reg)
      ensures !failed ==> pf == |code| - 2 && pt == |code| - 1 && Kept(old(code), old(abs.code), code, abs.code, {})
    {
      LoadsAre(abs, isJump, reg);
      pf, pt := 0, 0;
      var fj := NO_JUMP;
      ghost var J: seq<nat> := [];
      if !isJump {
        fj, J := EmitJump();
        if failed { abs := CodeGen.EmitLoads(old(abs), isJump, reg); return; }
      }
      ghost var code1, abs1 := code, abs;
      NothingPending(abs);
      pf := Emit(LoadBool(reg, false, true));
      NothingPending(abs);
      pt := Emit(LoadBool(reg, true, false));
      assert Kept(code1, abs1.code, code, abs.code, {});
      if !isJump { ListKept(code1, abs1.code, code, abs.code, {}, fj, J); }
      PatchToHere(fj, J);
      KeptTwice(old(code), old(abs.code), code1, abs1.code, code, abs.code, {}, {}, {});
    }

    /** Both lists are patched: jumps that carry values lead to the end. */
    method PatchExits(t: int, f: int, reg: nat, pf: int, pt: int, ghost E: Exp, ghost df: nat, ghost dt: nat)
      requires Valid() && !failed && Holds(t, E.t) && Holds(f, E.f) && reg < NO_REG
      requires Apart(abs.jpc, E.t) && Apart(abs.jpc, E.f) && Apart(E.t, E.f)
      requires SameTargets(abs.code, E.f, pf, df) && SameTargets(abs.code, E.t, pt, dt)
      modifies this`code, this`abs, this`failed
      ensures Valid() && abs == CodeGen.PatchExits(old(abs), E, reg, df, dt)
      ensures !failed ==> Kept(old(code), old(abs.code), code, abs.code, Jumps(E.t) + Jumps(E.f))
    {
      BothPatched(abs.code, E, reg, df, dt);
      PatchListTo(f, |code|, reg, pf, E.f, df);
      if failed { abs := CodeGen.PatchExits(old(abs), E, reg, df, dt); return; }
      ghost var code1, abs1 := code, abs;
      ListKept(old(code), old(abs.code), code, abs.code, Jumps(E.f), t, E.t);
      ListKept(old(code), old(abs.code), code, abs.code, Jumps(E.f), jpc, abs.jpc);
      PatchListTo(t, |code|, reg, pt, E.t, dt);
      if failed { abs := CodeGen.PatchExits(old(abs), E, reg, df, dt); return; }
      ListKept(code1, abs1.code, code, abs.code, Jumps(E.t), jpc, abs.jpc);
      KeptTwice(old(code), old(abs.code), code1, abs1.code, code, abs.code, Jumps(E.f), Jumps(E.t),
        Jumps(E.t) + Jumps(E.f));
    }

    /** The jump of a comparison joins the exits for `true`. */
    method JoinExit(e: ExpDesc, ghost E: Exp) returns (t: int)
      requires Valid() && !failed && Describes(e, E) && WellKept(abs, E)
      modifies this`code, this`abs, this`failed
      ensures Valid() && abs == Joined(old(abs), E) && Holds(t, Exits(E).t) && Holds(e.f, E.f)
      ensures !failed ==> Kept(old(code), old(abs.code), code, abs.code, Jumps(E.t))
    {
      if !e.k.VJmp? { return e.t; }
      t := Concat(e.t, e.k.pc, E.t, [E.k.pc]);
      if failed { return; }
      ListKept(old(code), old(abs.code), code, abs.code, Jumps(E.t), e.f, E.f);
      ListKept(old(code), old(abs.code), code, abs.code, Jumps(E.t), jpc, abs.jpc);
    }

    /** Some jump has no value with it: the loads are generated before the lists are patched. */
    method PatchWithLoads(t: int, f: int, isJump: bool, reg: nat, ghost E: Exp)
      requires Valid() && !failed && Holds(t, E.t) && Holds(f, E.f) && reg < NO_REG && (isJump ==> abs.jpc == [])
      requires Apart(abs.jpc, E.t) && Apart(abs.jpc, E.f) && Apart(E.t, E.f)
      modifies this`code, this`jpc, this`failed, this`abs
      ensures Valid() && abs == WithLoads(old(abs), E, isJump, reg)
      ensures !failed ==> Kept(old(code), old(abs.code), code, abs.code, Jumps(E.t) + Jumps(E.f))
    {
      hide StoresAll, IsList, AllOpen;
      ghost var fs := abs;
      WithLoadsErr(fs, E, isJump, reg);
      LoadsApart(fs, E, isJump, reg);
      var pf, pt := EmitLoads(isJump, reg);
      hide CodeGen.EmitLoads, CodeGen.PatchExits;
      if failed { abs := WithLoads(fs, E, isJump, reg); return; }
      ListKept(old(code), fs.code, code, abs.code, {}, t, E.t);
      ListKept(old(code), fs.code, code, abs.code, {}, f, E.f);
      ghost var code2, abs2 := code, abs;
      PatchExits(t, f, reg, pf, pt, E, pf, pt);
      if !failed {
        KeptTwice(old(code), fs.code, code2, abs2.code, code, abs.code, {}, Jumps(E.t) + Jumps(E.f),
          Jumps(E.t) + Jumps(E.f));
      }
    }

    /** `exp2reg` after `discharge2reg`. */
    method Close(e: ExpDesc, reg: nat, ghost E: Exp) returns (e': ExpDesc)
      requires Valid() && !failed && Describes(e, E) && WellKept(abs, E) && reg < NO_REG
      modifies this`code, this`jpc, this`failed, this`abs
      ensures Valid() && abs == CodeGen.Close(old(abs), E, reg).fs && e' == ExpDesc(VNonReloc(reg), NO_JUMP, NO_JUMP)
      ensures !failed ==> Kept(old(code), old(abs.code), code, abs.code, Touch(old(abs), E))
    {
      ghost var fs, E1 := abs, Exits(E);
      CloseIs(fs, E, reg);
      ExitsApart(fs, E);
      hide CodeGen.Close, WithLoads, Joined, WellKept, Exits;
      e' := ExpDesc(VNonReloc(reg), NO_JUMP, NO_JUMP);
      var t := JoinExit(e, E);
      if failed { JoinedErr(fs, E, reg); abs := CodeGen.Close(fs, E, reg).fs; return; }
      ghost var code1, abs1 := code, abs;
      HeadsDiffer(code, t, e.f, E1);
      if t == e.f { return; }
      var need := NeedValue(t, E1.t);
      if !need { need := NeedValue(e.f, E1.f); }
      if need {
        PatchWithLoads(t, e.f, e.k.VJmp?, reg, E1);
      } else {
        NoneNeeded(abs.code, E1);
        PatchExits(t, e.f, reg, NO_JUMP, NO_JUMP, E1, 0, 0);
      }
      if !failed {
        KeptTwice(old(code), fs.code, code1, abs1.code, code, abs.code, Jumps(E.t), Jumps(E1.t) + Jumps(E1.f),
          Touch(fs, E));
      }
    }

    method Exp2Reg(e: ExpDesc, reg: nat, ghost E: Exp) returns (e': ExpDesc)
      requires Valid() && !failed && Describes(e, E) && WellKept(abs, E) && reg < NO_REG
      modifies this`code, this`jpc, this`K, this`failed, this`abs
      ensures Valid() && abs == CodeGen.Exp2Reg(old(abs), E, reg).fs
              && (!failed ==> e' == ExpDesc(VNonReloc(reg), NO_JUMP, NO_JUMP))
      ensures !failed ==> Kept(old(code), old(abs.code), code, abs.code, Touch(old(abs), E))
    {
      ghost var fs := abs;
      e' := Discharge2Reg(e, reg, E);
      if failed { Exp2RegErr(fs, E, reg); abs := CodeGen.Exp2Reg(fs, E, reg).fs; return; }
      ghost var code1, g := code, CodeGen.Discharge2Reg(fs, E, reg);
      DischargedTouch(fs, E, reg);
      e' := Close(e', reg, g.e);
      if !failed {
        KeptTwice(old(code), fs.code, code1, g.fs.code, code, abs.code, Jumps(fs.jpc), Touch(g.fs, g.e), Touch(fs, E));
      }
    }

    method Exp2NextReg(e: ExpDesc, ghost E: Exp) returns (e': ExpDesc)
      requires Valid() && !failed && Describes(e, E) && WellKept(abs, E)
      modifies this`code, this`jpc, this`freereg, this`K, this`failed, this`abs
      ensures Valid() && abs == CodeGen.Exp2NextReg(old(abs), E).fs
      ensures !failed ==>
                Describes(e', CodeGen.Exp2NextReg(old(abs), E).e) && !HasJumps(CodeGen.Exp2NextReg(old(abs), E).e)
                && e'.k.VNonReloc? && e'.k.r < NO_REG
                && Kept(old(code), old(abs.code), code, abs.code, Touch(old(abs), E))
    {
      hide StoresAll;
      ghost var fs, E1 := abs, DischargeVars(E);
      var e1 := e.(k := DischargeVars(Exp(e.k, [], [])).k);
      CloseEnd(fs, E);
      hide CodeGen.Exp2Reg;
      FreeExp(e1.k, E1);
      ReserveReg();
      if failed { NextRegErr(fs, E); abs := CodeGen.Exp2NextReg(fs, E).fs; return e1; }
      hide CodeGen.FreeExp, CodeGen.ReserveReg;
      e' := Exp2Reg(e1, freereg - 1, E1);
    }

    method Exp2AnyReg(e: ExpDesc, ghost E: Exp) returns (e': ExpDesc)
      requires Valid() && !failed && Describes(e, E) && WellKept(abs, E)
               && (DischargeVars(E).k.VNonReloc? ==> DischargeVars(E).k.r < NO_REG)
      modifies this`code, this`jpc, this`freereg, this`K, this`failed, this`abs
      ensures Valid() && abs == CodeGen.Exp2AnyReg(old(abs), E).fs
      ensures !failed ==>
                Describes(e', CodeGen.Exp2AnyReg(old(abs), E).e) && !HasJumps(CodeGen.Exp2AnyReg(old(abs), E).e)
                && e'.k.VNonReloc? && e'.k.r < NO_REG
                && Kept(old(code), old(abs.code), code, abs.code, Touch(old(abs), E))
    {
      ghost var fs, E1 := abs, DischargeVars(E);
      var e1 := e.(k := DischargeVars(Exp(e.k, [], [])).k);
      JumpsSeen(e1, E1);
      if e1.k.VNonReloc? {
        if e1.t == e1.f { return e1; }
        if e1.k.r >= nactvar {
          CloseEnd(fs, E);
          e' := Exp2Reg(e1, e1.k.r, E1);
          return;
        }
      }
      e' := Exp2NextReg(e1, E1);
    }

    // -------------------------------------------------------------- operands

    method Operate(e: ExpDesc, ghost E: Exp) returns (e': ExpDesc, o: RK)
      requires Valid() && !failed && Describes(e, E) && WellKept(abs, E) && !HasJumps(E) && !E.k.VLocal?
               && (E.k.VNonReloc? ==> E.k.r < NO_REG)
      modifies this`code, this`jpc, this`freereg, this`K, this`failed, this`abs
      ensures Valid() && abs == CodeGen.Operate(old(abs), E).fs
      ensures !failed ==> var p := CodeGen.Operate(old(abs), E);
                          Describes(e', p.e) && !HasJumps(p.e) && o == p.o && (e'.k.VNonReloc? ==> e'.k.r < NO_REG)
                            && Kept(old(code), old(abs.code), code, abs.code, Touch(old(abs), E))
    {
      if ConstantOf(e.k).Some? && |K| <= MAXINDEXRK {
        var i := AddK(ConstantOf(e.k).value);
        return e.(k := VK(i)), Konst(i);
      }
      if e.k.VK? && e.k.i <= MAXINDEXRK { return e, Konst(e.k.i); }
      e' := Exp2AnyReg(e, E);
      o := Reg(if e'.k.VNonReloc? then e'.k.r else 0);
    }

    method Exp2Val(e: ExpDesc, ghost E: Exp) returns (e': ExpDesc)
      requires Valid() && !failed && Describes(e, E) && WellKept(abs, E)
               && (DischargeVars(E).k.VNonReloc? ==> DischargeVars(E).k.r < NO_REG)
      modifies this`code, this`jpc, this`freereg, this`K, this`failed, this`abs
      ensures Valid() && abs == CodeGen.Exp2Val(old(abs), E).fs
      ensures !failed ==> var E' := CodeGen.Exp2Val(old(abs), E).e;
                          Describes(e', E') && !HasJumps(E') && WellKept(abs, E') && !E'.k.VLocal?
                          && (E'.k.VNonReloc? ==> E'.k.r < NO_REG)
                          && Kept(old(code), old(abs.code), code, abs.code, Touch(old(abs), E))

    {
      JumpsSeen(e, E);
      ValTouch(abs, E);
      hide CodeGen.Exp2AnyReg;
      if e.t != e.f { e' := Exp2AnyReg(e, E); } else { e' := e.(k := DischargeVars(Exp(e.k, [], [])).k); }
    }

    method Exp2RK(e: ExpDesc, ghost E: Exp) returns (e': ExpDesc, o: RK)
      requires Valid() && !failed && Describes(e, E) && WellKept(abs, E)
               && (DischargeVars(E).k.VNonReloc? ==> DischargeVars(E).k.r < NO_REG)
      modifies this`code, this`jpc, this`freereg, this`K, this`failed, this`abs
      ensures Valid() && abs == CodeGen.Exp2RK(old(abs), E).fs
      ensures !failed ==> var p := CodeGen.Exp2RK(old(abs), E);
                          Describes(e', p.e) && !HasJumps(p.e) && o == p.o && (e'.k.VNonReloc? ==> e'.k.r < NO_REG)
                            && Kept(old(code), old(abs.code), code, abs.code, Touch(old(abs), E))
    {
      hide StoresAll, IsList, AllOpen, Heads, WellKept, CodeGen.Exp2RK, CodeGen.Exp2Val, CodeGen.Operate, DischargeVars;
      RKIs(abs, E);
      ghost var fs, g := abs, CodeGen.Exp2Val(abs, E);
      o := Reg(0);
      e' := Exp2Val(e, E);
      if failed { RKErr(fs, E); abs := CodeGen.Exp2RK(fs, E).fs; return; }
      ValTouch(fs, E);
      ghost var code1 := code;
      e', o := Operate(e', g.e);
      if !failed {
        KeptTwice(old(code), fs.code, code1, g.fs.code, code, abs.code, Touch(fs, E), Touch(g.fs, g.e), Touch(fs, E));
      }
    }

    // -------------------------------------------------------------- conditions

    method InvertJump(pc: nat)
      requires Valid() && !failed && 0 < pc < |abs.code| && abs.code[pc - 1].Cmp?
      modifies this`code, this`abs
      ensures Valid() && abs == CodeGen.InvertJump(old(abs), pc)
      ensures Kept(old(code), old(abs.code), code, abs.code, {})
    {
      assert Stores(code[pc - 1], abs.code[pc - 1], pc - 1);
      ghost var fs := abs;
      var i := code[pc - 1].i;
      code := code[pc - 1 := Plain(i.(accept := !i.accept))];
      abs := CodeGen.InvertJump(abs, pc);
      ListKept(old(code), fs.code, code, abs.code, {}, jpc, abs.jpc);
    }

    method CondJump(i: Instr) returns (j: int, ghost J: seq<nat>)
      requires Valid() && !failed && IsTest(i) && (i.TestSet? ==> i.to.None?)
      modifies this`code, this`jpc, this`failed, this`abs
      ensures Valid() && Jumped(abs, J) == CodeGen.CondJump(old(abs), i) && Holds(j, J)
      ensures !failed ==> Kept(old(code), old(abs.code), code, abs.code, Jumps(old(abs.jpc)))
    {
      ghost var fs := abs;
      var pc := Emit(i);
      if failed { j, J, abs := NO_JUMP, CodeGen.CondJump(fs, i).list, CodeGen.CondJump(fs, i).fs; return; }
      ghost var code1, abs1 := code, abs;
      j, J := EmitJump();
      if !failed { KeptTwice(old(code), fs.code, code1, abs1.code, code, abs.code, Jumps(fs.jpc), {}, Jumps(fs.jpc)); }
    }

    /** A NOT at the end of the code is removed, and the opposite is tested. */
    method DropNot(pc: nat) returns (b: nat)
      requires Valid() && !failed && pc == |abs.code| - 1 && abs.code[pc].NotI? && abs.jpc == []
      modifies this`code, this`abs
      ensures Valid() && abs == old(abs).(code := old(abs.code)[..pc]) && b == old(abs.code)[pc].b
      ensures Kept(old(code), old(abs.code), code, abs.code, {})
    {
      assert Stores(code[pc], abs.code[pc], pc);
      b := code[pc].i.b;
      code := code[..pc];
      abs := abs.(code := abs.code[..pc]);
    }

    method JumpOnCond(e: ExpDesc, cond: bool, ghost E: Exp) returns (j: int, ghost J: seq<nat>)
      requires Valid() && !failed && Describes(e, E) && WellKept(abs, E) && !E.k.VJmp? && !E.k.VLocal?
      modifies this`code, this`jpc, this`freereg, this`K, this`failed, this`abs
      ensures Valid() && Jumped(abs, J) == CodeGen.JumpOnCond(old(abs), E, cond) && Holds(j, J)
      ensures !failed ==> Kept(old(code), old(abs.code), code, abs.code, Jumps(old(abs.jpc)))
    {
      ghost var fs := abs;
      if e.k.VReloc? {
        var b := DropNot(e.k.pc);
        ghost var code1, abs1 := code, abs;
        j, J := CondJump(Test(b, !cond));
        if !failed { KeptTwice(old(code), fs.code, code1, abs1.code, code, abs.code, {}, {}, {}); }
      } else {
        var d := Discharge2AnyReg(e, E);
        if failed {
          JumpOnCondErr(fs, E, cond);
          j, J, abs := NO_JUMP, CodeGen.JumpOnCond(fs, E, cond).list, CodeGen.JumpOnCond(fs, E, cond).fs;
          return;
        }
        ghost var code1, g := code, CodeGen.Discharge2AnyReg(fs, E);
        AnyRegIs(fs, E);
        hide CodeGen.Discharge2AnyReg, WellKept;
        FreeExp(d.k, g.e);
        j, J := CondJump(TestSet(None, d.k.r, cond));
        if !failed {
          KeptTwice(old(code), fs.code, code1, g.fs.code, code, abs.code, Jumps(fs.jpc), Jumps(g.fs.jpc),
            Jumps(fs.jpc));
        }
      }
    }

    /** The jump of `luaK_goiftrue`. */
    method TrueJump(e: ExpDesc, ghost E: Exp) returns (j: int, ghost J: seq<nat>)
      requires Valid() && !failed && Describes(e, E) && WellKept(abs, E) && !E.k.VLocal?
      modifies this`code, this`jpc, this`freereg, this`K, this`failed, this`abs
      ensures Valid() && Jumped(abs, J) == CodeStored.TrueJump(old(abs), E) && Holds(j, J)
      ensures !failed ==> Kept(old(code), old(abs.code), code, abs.code, Jumps(old(abs.jpc)))
    {
      ghost var fs := abs;
      if e.k.VK? || e.k.VKNum? || e.k.VTrue? {
        j, J := NO_JUMP, [];
      } else if e.k.VFalse? {
        j, J := EmitJump();
      } else if e.k.VJmp? {
        InvertJump(e.k.pc);
        j, J := e.k.pc, [e.k.pc];
        ListKept(old(code), fs.code, code, abs.code, {}, j, J);
      } else {
        j, J := JumpOnCond(e, false, E);
      }
    }

    /** The jump of `luaK_goiffalse`. */
    method FalseJump(e: ExpDesc, ghost E: Exp) returns (j: int, ghost J: seq<nat>)
      requires Valid() && !failed && Describes(e, E) && WellKept(abs, E) && !E.k.VLocal?
      modifies this`code, this`jpc, this`freereg, this`K, this`failed, this`abs
      ensures Valid() && Jumped(abs, J) == CodeStored.FalseJump(old(abs), E) && Holds(j, J)
      ensures !failed ==> Kept(old(code), old(abs.code), code, abs.code, Jumps(old(abs.jpc)))
    {
      if e.k.VFalse? {
        j, J := NO_JUMP, [];
      } else if e.k.VTrue? {
        j, J := EmitJump();
      } else if e.k.VJmp? {
        j, J := e.k.pc, [e.k.pc];
      } else {
        j, J := JumpOnCond(e, true, E);
      }
    }

    /** The new jump joins one list, and the other list leads here. */
    method Branch(list: int, j: int, here: int, ghost L: seq<nat>, ghost J: seq<nat>, ghost H: seq<nat>)
        returns (l: int)
      requires Valid() && !failed && Holds(list, L) && Holds(j, J) && Holds(here, H)
      requires Apart(L, J) && Apart(L, H) && Apart(abs.jpc, L) && Apart(abs.jpc, J) && Apart(abs.jpc, H) && Apart(J, H)
      modifies this`code, this`jpc, this`failed, this`abs
      ensures Valid() && abs == CodeGen.PatchToHere(Linked(old(abs), L, J), H) && Holds(l, L + J)
      ensures !failed ==> Kept(old(code), old(abs.code), code, abs.code, Jumps(L) + Jumps(old(abs.jpc)))
    {
      ghost var fs := abs;
      l := Concat(list, j, L, J);
      if failed { abs := CodeGen.PatchToHere(abs, H); return; }
      ghost var code1, abs1 := code, abs;
      ListKept(old(code), fs.code, code, abs.code, Jumps(L), here, H);
      ListKept(old(code), fs.code, code, abs.code, Jumps(L), jpc, abs.jpc);
      PatchToHere(here, H);
      if failed { return; }
      ListKept(code1, abs1.code, code, abs.code, Jumps(abs1.jpc), l, L + J);
      KeptTwice(old(code), fs.code, code1, abs1.code, code, abs.code, Jumps(L), Jumps(fs.jpc),
        Jumps(L) + Jumps(fs.jpc));
    }

    method GoIfTrue(e: ExpDesc, ghost E: Exp) returns (e': ExpDesc)
      requires Valid() && !failed && Describes(e, E) && WellKept(abs, E)
      modifies this`code, this`jpc, this`freereg, this`K, this`failed, this`abs
      ensures Valid() && abs == CodeGen.GoIfTrue(old(abs), E).fs
      ensures !failed ==> var E' := CodeGen.GoIfTrue(old(abs), E).e;
                          e'.t == NO_JUMP && IsOpenList(code, abs.code, e'.f, E'.f)
                            && Kept(old(code), old(abs.code), code, abs.code, Touch(old(abs), E))
    {
      hide StoresAll, IsList;
      ghost var fs, E1 := abs, DischargeVars(E);
      GoIfTrueIs(fs, E);
      TrueJumpApart(fs, E1);
      hide CodeGen.GoIfTrue, CodeStored.TrueJump;
      var e1 := e.(k := DischargeVars(Exp(e.k, [], [])).k);
      ghost var J;
      var j;
      j, J := TrueJump(e1, E1);
      if failed { abs := CodeGen.GoIfTrue(fs, E).fs; return e; }
      hide WellKept;
      ghost var code1, abs1 := code, abs;
      ListKept(old(code), fs.code, code, abs.code, Jumps(fs.jpc), e1.f, E1.f);
      ListKept(old(code), fs.code, code, abs.code, Jumps(fs.jpc), e1.t, E1.t);
      var f := Branch(e1.f, j, e1.t, E1.f, J, E1.t);
      e' := ExpDesc(e1.k, NO_JUMP, f);
      if !failed {
        KeptTwice(old(code), fs.code, code1, abs1.code, code, abs.code, Jumps(fs.jpc), Jumps(E1.f) + Jumps(abs1.jpc),
          Touch(fs, E));
      }
    }

    method GoIfFalse(e: ExpDesc, ghost E: Exp) returns (e': ExpDesc)
      requires Valid() && !failed && Describes(e, E) && WellKept(abs, E)
      modifies this`code, this`jpc, this`freereg, this`K, this`failed, this`abs
      ensures Valid() && abs == CodeGen.GoIfFalse(old(abs), E).fs
      ensures !failed ==> var E' := CodeGen.GoIfFalse(old(abs), E).e;
                          e'.f == NO_JUMP && IsOpenList(code, abs.code, e'.t, E'.t)
                            && Kept(old(code), old(abs.code), code, abs.code, Touch(old(abs), E))
    {
      hide StoresAll, IsList;
      ghost var fs, E1 := abs, DischargeVars(E);
      GoIfFalseIs(fs, E);
      FalseJumpApart(fs, E1);
      hide CodeGen.GoIfFalse, CodeStored.FalseJump;
      var e1 := e.(k := DischargeVars(Exp(e.k, [], [])).k);
      ghost var J;
      var j;
      j, J := FalseJump(e1, E1);
      if failed { abs := CodeGen.GoIfFalse(fs, E).fs; return e; }
      hide WellKept;
      ghost var code1, abs1 := code, abs;
      ListKept(old(code), fs.code, code, abs.code, Jumps(fs.jpc), e1.f, E1.f);
      ListKept(old(code), fs.code, code, abs.code, Jumps(fs.jpc), e1.t, E1.t);
      var t := Branch(e1.t, j, e1.f, E1.t, J, E1.f);
      e' := ExpDesc(e1.k, t, NO_JUMP);
      if !failed {
        KeptTwice(old(code), fs.code, code1, abs1.code, code, abs.code, Jumps(fs.jpc), Jumps(E1.t) + Jumps(abs1.jpc),
          Touch(fs, E));
      }
    }

    /** `codenot` for a value in a register. */
    method NegateReg(e: ExpDesc, ghost E: Exp) returns (e': ExpDesc)
      requires Valid() && !failed && Describes(e, E) && WellKept(abs, E) && (E.k.VReloc? || E.k.VNonReloc?)
      modifies this`code, this`jpc, this`freereg, this`K, this`failed, this`abs
      ensures Valid() && abs == Negated(old(abs), E).fs
      ensures !failed ==>
                Describes(e', Negated(old(abs), E).e)
                && Kept(old(code), old(abs.code), code, abs.code, Jumps(old(abs.jpc)))
    {
      ghost var fs, g, n := abs, CodeGen.Discharge2AnyReg(abs, E), Negated(abs, E);
      NegatedIs(fs, E);
      AnyRegIs(fs, E);
      e' := Discharge2AnyReg(e, E);
      hide CodeGen.Discharge2AnyReg, WellKept, Negated;
      if failed { abs := n.fs; return; }
      ghost var code1, d := code, e';
      FreeExp(e'.k, g.e);
      hide CodeGen.FreeExp;
      var pc := Emit(NotI(0, e'.k.r));
      e' := e'.(k := VReloc(pc));
      if failed { return; }
      HeadsKept(code1, g.fs.code, code, abs.code, Jumps(g.fs.jpc), d, g.e, VReloc(pc));
      KeptTwice(old(code), fs.code, code1, g.fs.code, code, abs.code, Jumps(fs.jpc), Jumps(g.fs.jpc), Jumps(fs.jpc));
    }

    /** The first half of `codenot`: the value itself is negated. */
    method Negate(e: ExpDesc, ghost E: Exp) returns (e': ExpDesc)
      requires Valid() && !failed && Describes(e, E) && WellKept(abs, E) && !E.k.VLocal?
      modifies this`code, this`jpc, this`freereg, this`K, this`failed, this`abs
      ensures Valid() && abs == Negated(old(abs), E).fs
      ensures !failed ==>
                Describes(e', Negated(old(abs), E).e)
                && Kept(old(code), old(abs.code), code, abs.code, Jumps(old(abs.jpc)))
    {
      ghost var fs := abs;
      if e.k.VFalse? {
        e' := e.(k := VTrue);
      } else if e.k.VK? || e.k.VKNum? || e.k.VTrue? {
        e' := e.(k := VFalse);
      } else if e.k.VJmp? {
        e' := e;
        InvertJump(e.k.pc);
        HeadsKept(old(code), fs.code, code, abs.code, {}, e, E, e.k);
      } else {
        e' := NegateReg(e, E);
      }
    }

    method CodeNot(e: ExpDesc, ghost E: Exp) returns (e': ExpDesc)
      requires Valid() && !failed && Describes(e, E) && WellKept(abs, E)
      modifies this`code, this`jpc, this`freereg, this`K, this`failed, this`abs
      ensures Valid() && abs == CodeGen.CodeNot(old(abs), E).fs
      ensures !failed ==>
                Describes(e', CodeGen.CodeNot(old(abs), E).e)
                && Kept(old(code), old(abs.code), code, abs.code, Jumps(old(abs.jpc)))
    {
      hide StoresAll, IsList, AllOpen;
      ghost var fs, E1 := abs, DischargeVars(E);
      CodeNotIs(fs, E);
      hide CodeGen.CodeNot;
      ghost var g := Negated(fs, E1);
      var n := Negate(e.(k := DischargeVars(Exp(e.k, [], [])).k), E1);
      hide Negated, WellKept;
      e' := ExpDesc(n.k, n.f, n.t);
      if failed { abs := CodeGen.CodeNot(fs, E).fs; return; }
      ghost var code1 := code;
      RemoveValues(n.t, g.e.t);
      ghost var code2, abs2 := code, abs;
      HeadsKept(code1, g.fs.code, code, abs.code, {}, n, g.e, g.e.k);
      ListKept(code1, g.fs.code, code, abs.code, {}, jpc, abs.jpc);
      RemoveValues(n.f, g.e.f);
      HeadsKept(code2, abs2.code, code, abs.code, {}, n, g.e, g.e.k);
      ListKept(code2, abs2.code, code, abs.code, {}, jpc, abs.jpc);
      KeptTwice(code1, g.fs.code, code2, abs2.code, code, abs.code, {}, {}, {});
      KeptTwice(old(code), fs.code, code1, g.fs.code, code, abs.code, Jumps(fs.jpc), {}, Jumps(fs.jpc));
    }

    // -------------------------------------------------------------- comparisons

    /** Both operands of a comparison; the first has been an operand since before the second was compiled. */
    method BothOperands(e1: ExpDesc, e2: ExpDesc, ghost E1: Exp, ghost o: RK, ghost E2: Exp)
        returns (d1: ExpDesc, o1: RK, d2: ExpDesc, o2: RK)
      requires Valid() && !failed && Describes(e1, E1) && Describes(e2, E2) && WellKept(abs, E2)
      requires IsOperand(E1.k, o) && !HasJumps(E1) && (E1.k.VNonReloc? ==> E1.k.r < NO_REG)
      requires DischargeVars(E2).k.VNonReloc? ==> DischargeVars(E2).k.r < NO_REG
      modifies this`code, this`jpc, this`freereg, this`K, this`failed, this`abs
      ensures Valid() && abs == CodeGen.Exp2RK(old(abs), E2).fs
      ensures !failed ==> var p := CodeGen.Exp2RK(old(abs), E2);
                          d1 == ExpDesc(E1.k, NO_JUMP, NO_JUMP) && o1 == o && d2.k == p.e.k && o2 == p.o
                            && Kept(old(code), old(abs.code), code, abs.code, Touch(old(abs), E2))
    {
      ghost var fs, p := abs, CodeGen.Exp2RK(abs, E2);
      OperandStable(fs, E1, o);
      hide CodeGen.Exp2RK;
      d1, o1 := Exp2RK(e1, E1);
      ghost var code1 := code;
      HeadsKept(old(code), fs.code, code, fs.code, Jumps(fs.jpc), e2, E2, E2.k);
      d2, o2 := Exp2RK(e2, E2);
      if failed { return; }
      hide WellKept, IsOperand;
      KeptTwice(old(code), fs.code, code1, fs.code, code, p.fs.code, Jumps(fs.jpc), Touch(fs, E2), Touch(fs, E2));
    }

    /** The end of `codecomp`: the registers of the operands are free, and a jump follows the comparison. */
    method EmitCompare(i: Instr, k1: Kind, k2: Kind, ghost E1: Exp, ghost E2: Exp) returns (pc: nat)
      requires Valid() && !failed && i.Cmp? && k1 == E1.k && k2 == E2.k
      modifies this`code, this`jpc, this`freereg, this`failed, this`abs
      ensures Valid() && abs == CodeGen.CondJump(CodeGen.FreeExp(CodeGen.FreeExp(old(abs), E2), E1), i).fs
      ensures !failed ==>
                pc == |old(code)| + 1 && IsOpenList(code, abs.code, pc, [pc])
                && Kept(old(code), old(abs.code), code, abs.code, Jumps(old(abs.jpc)))
    {
      FreeExp(k2, E2);
      FreeExp(k1, E1);
      var j, J := CondJump(i);
      if failed { return 0; }
      assert J == [|old(code)| + 1];
      pc := j;
    }

    /** `codecomp`. */
    method CodeComp(op: RelOp, e1: ExpDesc, e2: ExpDesc, ghost E1: Exp, ghost o: RK, ghost E2: Exp)
        returns (e': ExpDesc)
      requires Valid() && !failed && Describes(e1, E1) && Describes(e2, E2) && WellKept(abs, E2)
      requires IsOperand(E1.k, o) && !HasJumps(E1) && (E1.k.VNonReloc? ==> E1.k.r < NO_REG)
      requires DischargeVars(E2).k.VNonReloc? ==> DischargeVars(E2).k.r < NO_REG
      modifies this`code, this`jpc, this`freereg, this`K, this`failed, this`abs
      ensures Valid() && abs == CodeGen.CodeComp(old(abs), op, E1, E2).fs
      ensures !failed ==> var p := CodeGen.Exp2RK(old(abs), E2);
                          Describes(e', CodeGen.CodeComp(old(abs), op, E1, E2).e)
                            && Kept(old(code), old(abs.code), code, abs.code, Touch(old(abs), E2) + Touch(p.fs, p.e))
    {
      hide StoresAll, IsList, AllOpen, Heads, CodeGen.CodeComp, CodeGen.Exp2RK, CodeGen.CondJump, CodeGen.FreeExp,
        WellKept, IsOperand;
      ghost var fs, p := abs, CodeGen.Exp2RK(abs, E2);
      OperandStable(fs, E1, o);
      ComparedIs(fs, op, E1, o, E2);
      var d1, o1, d2, o2 := BothOperands(e1, e2, E1, o, E2);
      if failed { abs := CodeGen.CodeComp(fs, op, E1, E2).fs; return e1; }
      ghost var code1 := code;
      var (opcode, accept, swap) := CompOp(op);
      var i := if swap then Cmp(opcode, accept, o2, o1) else Cmp(opcode, accept, o1, o2);
      assert i == CmpInstr(op, o, p.o);
      var pc := EmitCompare(i, d1.k, d2.k, E1, p.e);
      e' := d1.(k := VJmp(pc));
      if failed { return; }
      NoExits(code, abs.code, CodeGen.CodeComp(fs, op, E1, E2).e, pc);
      KeptTwice(old(code), fs.code, code1, p.fs.code, code, abs.code, Touch(fs, E2), Jumps(p.fs.jpc),
        Touch(fs, E2) + Touch(p.fs, p.e));
    }

    // -------------------------------------------------------------- expressions

    /** `subexpr` for a given tree, with the calls that lua/lparser.c makes between and after the operands. */
    method Comp(x: Expr) returns (e: ExpDesc)
      requires Valid() && !failed && Ready(abs, x) && nactvar < NO_REG
      modifies this`code, this`jpc, this`freereg, this`K, this`failed, this`abs
      ensures Valid() && abs == CodeGen.Comp(old(abs), x).fs
      ensures !failed ==>
                Describes(e, CodeGen.Comp(old(abs), x).e) && WellKept(abs, CodeGen.Comp(old(abs), x).e)
                && Kept(old(code), old(abs.code), code, abs.code, Jumps(old(abs.jpc)))
      decreases x, 1
    {
      CompLists(abs, x);
      match x
      case Truth => e := ExpDesc(VTrue, NO_JUMP, NO_JUMP);
      case Falsity => e := ExpDesc(VFalse, NO_JUMP, NO_JUMP);
      case Numeral(n) => e := ExpDesc(VKNum(n), NO_JUMP, NO_JUMP);
      case Local(r) => e := ExpDesc(VLocal(r), NO_JUMP, NO_JUMP);
      case Not(y) => e := CompNot(y);
      case And(l, r) => e := CompAnd(l, r);
      case Or(l, r) => e := CompOr(l, r);
      case Rel(op, l, r) => e := CompRel(op, l, r);
    }

    method CompNot(y: Expr) returns (e: ExpDesc)
      requires Valid() && !failed && Ready(abs, Not(y)) && nactvar < NO_REG
      modifies this`code, this`jpc, this`freereg, this`K, this`failed, this`abs
      ensures Valid() && abs == CodeGen.Comp(old(abs), Not(y)).fs
      ensures !failed ==>
                Describes(e, CodeGen.Comp(old(abs), Not(y)).e)
                && Kept(old(code), old(abs.code), code, abs.code, Jumps(old(abs.jpc)))
      decreases Not(y), 0
    {
      hide StoresAll, IsList, AllOpen, Heads, CodeOk, Ready, LocalsBelow, CodeGen.Comp, CodeGen.CodeNot, WellKept;
      ghost var fs, g := abs, CodeGen.Comp(abs, y);
      ReadyParts(fs, Not(y));
      CompLists(fs, y);
      CompNotIs(fs, y);
      e := Comp(y);
      if failed { abs := CodeGen.CodeNot(g.fs, g.e).fs; return; }
      ghost var code1 := code;
      e := CodeNot(e, g.e);
      if failed { return; }
      KeptTwice(old(code), fs.code, code1, g.fs.code, code, abs.code, Jumps(fs.jpc), Jumps(g.fs.jpc), Jumps(fs.jpc));
    }

    method CompAnd(l: Expr, r: Expr) returns (e: ExpDesc)
      requires Valid() && !failed && Ready(abs, And(l, r)) && nactvar < NO_REG
      modifies this`code, this`jpc, this`freereg, this`K, this`failed, this`abs
      ensures Valid() && abs == CodeGen.Comp(old(abs), And(l, r)).fs
      ensures !failed ==>
                Describes(e, CodeGen.Comp(old(abs), And(l, r)).e)
                && Kept(old(code), old(abs.code), code, abs.code, Jumps(old(abs.jpc)))
      decreases And(l, r), 0
    {
      hide StoresAll, IsList, AllOpen, CodeOk, Ready, LocalsBelow, CodeGen.Comp, CodeGen.GoIfTrue;
      ReadyParts(abs, And(l, r));
      ghost var fs, g1, end := abs, CodeGen.Comp(abs, l), CodeGen.Comp(abs, And(l, r));
      ghost var g2 := CodeGen.GoIfTrue(g1.fs, g1.e);
      ghost var g3 := CodeGen.Comp(g2.fs, r);
      CompAndIs(fs, l, r);
      AndErr(fs, l, r);
      CompLists(fs, l);
      AndLists(fs, l, r);
      CompLists(g2.fs, r);
      e := Comp(l);
      if failed { abs := end.fs; return; }
      ghost var code1 := code;
      var e2 := GoIfTrue(e, g1.e);
      if failed { abs := end.fs; return; }
      ghost var code2 := code;
      hide WellKept;
      KeptTwice(old(code), fs.code, code1, g1.fs.code, code, abs.code, Jumps(fs.jpc), Touch(g1.fs, g1.e),
        Jumps(fs.jpc));
      e := Comp(r);
      if failed { abs := end.fs; return; }
      ListKept(code2, g2.fs.code, code, abs.code, Jumps(g2.fs.jpc), e2.f, g2.e.f);
      KeptTwice(old(code), fs.code, code2, g2.fs.code, code, abs.code, Jumps(fs.jpc), Jumps(g2.fs.jpc), Jumps(fs.jpc));
      e := JoinAnd(e, e2.f, g3.e, g2.e.f, fs, old(code));
    }

    /** The exits of the first operand join those of the second. */
    method JoinAnd(e: ExpDesc, list: int, ghost E: Exp, ghost L: seq<nat>, ghost fs: FS, ghost code0: seq<Word>)
        returns (e': ExpDesc)
      requires Valid() && !failed && Describes(e, E) && WellKept(abs, E) && Holds(list, L) && Apart(E.f, L)
      requires Kept(code0, fs.code, code, abs.code, Jumps(fs.jpc)) && Since(fs, Jumps(E.f))
      modifies this`code, this`failed, this`abs
      ensures Valid() && abs == Linked(old(abs), E.f, L)
      ensures !failed ==>
                Describes(e', DischargeVars(E).(f := E.f + L)) && Kept(code0, fs.code, code, abs.code, Jumps(fs.jpc))
    {
      var f := Concat(e.f, list, E.f, L);
      e' := e.(k := DischargeVars(Exp(e.k, [], [])).k, f := f);
      if failed { return; }
      HeadsKept(old(code), old(abs.code), code, abs.code, Jumps(E.f), e.(f := NO_JUMP), E.(f := []), E.k);
      ListKept(old(code), old(abs.code), code, abs.code, Jumps(E.f), jpc, abs.jpc);
      KeptTwice(code0, fs.code, old(code), old(abs.code), code, abs.code, Jumps(fs.jpc), Jumps(E.f), Jumps(fs.jpc));
    }

    method CompOr(l: Expr, r: Expr) returns (e: ExpDesc)
      requires Valid() && !failed && Ready(abs, Or(l, r)) && nactvar < NO_REG
      modifies this`code, this`jpc, this`freereg, this`K, this`failed, this`abs
      ensures Valid() && abs == CodeGen.Comp(old(abs), Or(l, r)).fs
      ensures !failed ==>
                Describes(e, CodeGen.Comp(old(abs), Or(l, r)).e)
                && Kept(old(code), old(abs.code), code, abs.code, Jumps(old(abs.jpc)))
      decreases Or(l, r), 0
    {
      hide StoresAll, IsList, AllOpen, CodeOk, Ready, LocalsBelow, CodeGen.Comp, CodeGen.GoIfFalse;
      ReadyParts(abs, Or(l, r));
      ghost var fs, g1, end := abs, CodeGen.Comp(abs, l), CodeGen.Comp(abs, Or(l, r));
      ghost var g2 := CodeGen.GoIfFalse(g1.fs, g1.e);
      ghost var g3 := CodeGen.Comp(g2.fs, r);
      CompOrIs(fs, l, r);
      OrErr(fs, l, r);
      CompLists(fs, l);
      OrLists(fs, l, r);
      CompLists(g2.fs, r);
      e := Comp(l);
      if failed { abs := end.fs; return; }
      ghost var code1 := code;
      var e2 := GoIfFalse(e, g1.e);
      if failed { abs := end.fs; return; }
      ghost var code2 := code;
      hide WellKept;
      KeptTwice(old(code), fs.code, code1, g1.fs.code, code, abs.code, Jumps(fs.jpc), Touch(g1.fs, g1.e),
        Jumps(fs.jpc));
      e := Comp(r);
      if failed { abs := end.fs; return; }
      ListKept(code2, g2.fs.code, code, abs.code, Jumps(g2.fs.jpc), e2.t, g2.e.t);
      KeptTwice(old(code), fs.code, code2, g2.fs.code, code, abs.code, Jumps(fs.jpc), Jumps(g2.fs.jpc), Jumps(fs.jpc));
      e := JoinOr(e, e2.t, g3.e, g2.e.t, fs, old(code));
    }

    /** The exits of the first operand join those of the second. */
    method JoinOr(e: ExpDesc, list: int, ghost E: Exp, ghost L: seq<nat>, ghost fs: FS, ghost code0: seq<Word>)
        returns (e': ExpDesc)
      requires Valid() && !failed && Describes(e, E) && WellKept(abs, E) && Holds(list, L) && Apart(E.t, L)
      requires Kept(code0, fs.code, code, abs.code, Jumps(fs.jpc)) && Since(fs, Jumps(E.t))
      modifies this`code, this`failed, this`abs
      ensures Valid() && abs == Linked(old(abs), E.t, L)
      ensures !failed ==>
                Describes(e', DischargeVars(E).(t := E.t + L)) && Kept(code0, fs.code, code, abs.code, Jumps(fs.jpc))
    {
      var t := Concat(e.t, list, E.t, L);
      e' := e.(k := DischargeVars(Exp(e.k, [], [])).k, t := t);
      if failed { return; }
      HeadsKept(old(code), old(abs.code), code, abs.code, Jumps(E.t), e.(t := NO_JUMP), E.(t := []), E.k);
      ListKept(old(code), old(abs.code), code, abs.code, Jumps(E.t), jpc, abs.jpc);
      KeptTwice(code0, fs.code, old(code), old(abs.code), code, abs.code, Jumps(fs.jpc), Jumps(E.t), Jumps(fs.jpc));
    }

    /** The first operand of a comparison, and `luaK_infix`. */
    method FirstOperand(l: Expr) returns (e: ExpDesc)
      requires Valid() && !failed && Ready(abs, l) && nactvar < NO_REG
      modifies this`code, this`jpc, this`freereg, this`K, this`failed, this`abs
      ensures var g := CodeGen.Comp(old(abs), l); var p := CodeGen.Exp2RK(g.fs, g.e);
              && Valid() && abs == (if g.fs.err then g.fs else p.fs)
              && (!failed ==>
                    !g.fs.err && Describes(e, p.e) && !HasJumps(p.e) && (p.e.k.VNonReloc? ==> p.e.k.r < NO_REG)
                              && Kept(old(code), old(abs.code), code, abs.code, Jumps(old(abs.jpc))))
      decreases l, 2
    {
      hide StoresAll, IsList, AllOpen, Heads, CodeOk, Ready, LocalsBelow, CodeGen.Comp, CodeGen.Exp2RK;
      ghost var fs, g := abs, CodeGen.Comp(abs, l);
      CompLists(fs, l);
      e := Comp(l);
      if failed { return; }
      ghost var code1 := code;
      var o;
      e, o := Exp2RK(e, g.e);
      if failed { return; }
      KeptTwice(old(code), fs.code, code1, g.fs.code, code, abs.code, Jumps(fs.jpc), Touch(g.fs, g.e), Jumps(fs.jpc));
    }

    method CompRel(op: RelOp, l: Expr, r: Expr) returns (e: ExpDesc)
      requires Valid() && !failed && Ready(abs, Rel(op, l, r)) && nactvar < NO_REG
      modifies this`code, this`jpc, this`freereg, this`K, this`failed, this`abs
      ensures Valid() && abs == CodeGen.Comp(old(abs), Rel(op, l, r)).fs
      ensures !failed ==>
                Describes(e, CodeGen.Comp(old(abs), Rel(op, l, r)).e)
                && Kept(old(code), old(abs.code), code, abs.code, Jumps(old(abs.jpc)))
      decreases Rel(op, l, r), 0
    {
      hide StoresAll, IsList, AllOpen, Heads, CodeOk, Ready, LocalsBelow, CodeGen.Comp, CodeGen.Exp2RK,
        CodeGen.CodeComp;
      ReadyParts(abs, Rel(op, l, r));
      ghost var fs, g1, end := abs, CodeGen.Comp(abs, l), CodeGen.Comp(abs, Rel(op, l, r));
      ghost var p1 := CodeGen.Exp2RK(g1.fs, g1.e);
      ghost var g2 := CodeGen.Comp(p1.fs, r);
      CompRelIs(fs, op, l, r);
      RelErr(fs, op, l, r);
      RelLists(fs, op, l, r);
      CompLists(p1.fs, r);
      var e1 := FirstOperand(l);
      if failed { abs := end.fs; return e1; }
      ghost var code2 := code;
      OperandHeads(code, abs.code, e1, p1.e);
      e := Comp(r);
      if failed { abs := end.fs; return; }
      ghost var code3 := code;
      NoneHeads(code, abs.code, e1, p1.e);
      KeptTwice(old(code), fs.code, code2, p1.fs.code, code, abs.code, Jumps(fs.jpc), Jumps(p1.fs.jpc), Jumps(fs.jpc));
      e := CodeComp(op, e1, e, p1.e, p1.o, g2.e);
      if failed { return; }
      ghost var p2 := CodeGen.Exp2RK(g2.fs, g2.e);
      KeptTwice(old(code), fs.code, code3, g2.fs.code, code, abs.code, Jumps(fs.jpc),
        Touch(g2.fs, g2.e) + Touch(p2.fs, p2.e), Jumps(fs.jpc));
    }

    /** Compiles an expression to the next register and makes the jumps that are pending after it lead here: the
        words that have been stored compute what `Computed` says, for every comparison and all registers, which is
        the value of the expression if it is safe. */
    method Compile(x: Expr) returns (target: nat)
      requires Valid() && !failed && Ready(abs, x) && nactvar < NO_REG
      modifies this`code, this`jpc, this`freereg, this`K, this`failed, this`abs
      ensures Valid() && target == old(abs.freereg)
              && (!failed ==> abs == CodeGen.DischargeJpc(CompileToNextReg(old(abs), x)))
      ensures failed ==> LimitMet(old(abs), x)
      ensures !failed ==> freereg == target + 1 < MAXSTACK && (|old(K)| <= MAXARG_Bx ==> |K| <= MAXARG_Bx)
      ensures !failed ==>
                forall cmp, R ::
                  Leads(Computed(cmp, old(abs), x, R), R, target, Run(Env(K, cmp), code, |old(abs.code)|, R))
      ensures !failed && Safe(x) ==>
                forall cmp, R :: Leads(Eval(cmp, x, R), R, target, Run(Env(K, cmp), code, |old(abs.code)|, R))
    {
      ghost var fs, g := abs, CodeGen.Comp(abs, x);
      target := freereg;
      CompLists(fs, x);
      RefusedOnlyAtLimits(fs, x);
      hide LimitMet;
      var e := Comp(x);
      if failed { return; }
      e := Exp2NextReg(e, g.e);
      if failed { return; }
      DischargeJpc();
      if failed { return; }
      forall cmp, R ensures Leads(Computed(cmp, fs, x, R), R, target, Run(Env(K, cmp), code, |fs.code|, R)) {
        CodeComputes(fs, x, cmp, R);
        StoredRun(Env(K, cmp), code, abs.code, |fs.code|, R);
      }
      hide Computed;
      if Safe(x) {
        forall cmp, R ensures Computed(cmp, fs, x, R) == Eval(cmp, x, R) { SafeComputes(fs, x, cmp, R); }
      }
    }
  }
}
