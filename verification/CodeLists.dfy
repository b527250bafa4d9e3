/** The code array of lua/lcode.c as it is in memory: a pending jump holds the distance to the next jump of
    its patch list in its sBx field, and -1, a jump to itself, ends a list. */
module CodeLists {
  import opened Wrappers
  import opened CodeMachine
  import opened CodeGen
  import opened CodeState

  const NO_JUMP := -1
  const NO_REG := 255

  /** Instructions with their stored fields. All others are as in `CodeMachine`. */
  datatype Word = Jmp(sbx: int) | TSet(a: nat, b: nat, c: bool) | Plain(i: Instr)

  /** The sBx field holds the distance with an excess of `MAXARG_sBx` in 18 bits. */
  predicate Encodes(sbx: int) { 0 <= sbx + MAXARG_sBx < 0x40000 }

  /** `word` at position `pc` stores the instruction `i`. The field of a pending jump is not fixed by this. */
  predicate Stores(word: Word, i: Instr, pc: nat) {
    match i
    case Jump(None) => word.Jmp? && Encodes(word.sbx)
    case Jump(Some(d)) => word == Jmp(d - (pc + 1)) && Encodes(word.sbx)
    case TestSet(to, b, c) => word == TSet(if to.None? then NO_REG else to.value, b, c) && to != Some(NO_REG)
    case _ => word == Plain(i)
  }

  /** `getjump`. */
  function Next(code: seq<Word>, pc: nat): int
    requires pc < |code| && code[pc].Jmp?
  {
    if code[pc].sbx == NO_JUMP then NO_JUMP else pc + 1 + code[pc].sbx
  }

  /** The list that starts at `head` consists of the jumps of `l`, in this order. */
  predicate IsList(code: seq<Word>, head: int, l: seq<nat>)
    decreases |l|
  {
    if l == [] then head == NO_JUMP
    else head == l[0] && l[0] < |code| && code[l[0]].Jmp? && IsList(code, Next(code, l[0]), l[1..])
  }

  lemma {:induction false} IsListFrame(code: seq<Word>, code': seq<Word>, head: int, l: seq<nat>)
    requires IsList(code, head, l)
    requires forall j :: j in l ==> j < |code| && j < |code'| && code'[j] == code[j]
    ensures IsList(code', head, l)
    decreases |l|
  {
    if l != [] {
      assert forall j :: j in l[1..] ==> j in l;
      IsListFrame(code, code', Next(code, l[0]), l[1..]);
    }
  }

  lemma {:induction false} IsListRange(code: seq<Word>, head: int, l: seq<nat>)
    requires IsList(code, head, l)
    ensures forall j :: j in l ==> j < |code| && code[j].Jmp?
    decreases |l|
  {
    if l != [] {
      assert forall j :: j in l ==> j == l[0] || j in l[1..];
      IsListRange(code, Next(code, l[0]), l[1..]);
    }
  }

  /** Walking a list ends: its jumps are different, whatever their order in the code. */
  lemma {:induction false} IsListNoDup(code: seq<Word>, head: int, l: seq<nat>, i: nat, j: nat)
    requires IsList(code, head, l) && i < j < |l|
    ensures l[i] != l[j]
    decreases |l|
  {
    if i > 0 {
      IsListNoDup(code, Next(code, l[0]), l[1..], i - 1, j - 1);
    } else if l[0] == l[j] {
      IsListTail(code, head, l, j);
      IsListDetermined(code, l[0], l, l[j..]);
    }
  }

  lemma {:induction false} IsListTail(code: seq<Word>, head: int, l: seq<nat>, k: nat)
    requires IsList(code, head, l) && k < |l|
    ensures IsList(code, l[k], l[k..])
    decreases k
  {
    if k > 0 {
      IsListTail(code, Next(code, l[0]), l[1..], k - 1);
      assert l[1..][k - 1..] == l[k..];
    }
  }

  /** The head determines the list, so lists with a common jump end alike. */
  lemma {:induction false} IsListDetermined(code: seq<Word>, head: int, l: seq<nat>, l': seq<nat>)
    requires IsList(code, head, l) && IsList(code, head, l')
    ensures l == l'
    decreases |l|
  {
    if l != [] && l' != [] {
      IsListDetermined(code, Next(code, l[0]), l[1..], l'[1..]);
      assert l == [l[0]] + l[1..] && l' == [l'[0]] + l'[1..];
    }
  }

  /** Appending: only the field of the last jump of the first list changes. */
  lemma {:induction false} IsListAppend(code: seq<Word>, code': seq<Word>, head: int, l1: seq<nat>, head2: int,
                                        l2: seq<nat>)
    requires IsList(code, head, l1) && l1 != [] && IsList(code, head2, l2) && l2 != []
    requires |code'| == |code| && l1[|l1| - 1] < |code|
             && code' == code[l1[|l1| - 1] := Jmp(head2 - (l1[|l1| - 1] + 1))]
    requires Distinct(l1) && Apart(l1, l2)
    requires head2 != l1[|l1| - 1]
    ensures IsList(code', head, l1 + l2)
    decreases |l1|
  {
    var last := l1[|l1| - 1];
    assert last in l1;
    if |l1| == 1 {
      IsListRange(code, head2, l2);
      IsListFrame(code, code', head2, l2);
      assert (l1 + l2)[1..] == l2;
    } else {
      assert l1[0] != last;
      IsListAppend(code, code', Next(code, l1[0]), l1[1..], head2, l2);
      assert (l1 + l2)[1..] == l1[1..] + l2;
    }
  }

  lemma AppendList(code: seq<Word>, code': seq<Word>, head: int, l1: seq<nat>, head2: int, l2: seq<nat>)
    requires IsList(code, head, l1) && l1 != [] && IsList(code, head2, l2) && l2 != [] && Apart(l1, l2)
    requires l1[|l1| - 1] < |code| && code' == code[l1[|l1| - 1] := Jmp(head2 - (l1[|l1| - 1] + 1))]
    ensures IsList(code', head, l1 + l2)
  {
    forall i, j | 0 <= i < j < |l1| ensures l1[i] != l1[j] { IsListNoDup(code, head, l1, i, j); }
    assert l2[0] in l2 && l1[|l1| - 1] in l1;
    IsListAppend(code, code', head, l1, head2, l2);
  }

  /** The stored code is the code of the generation state. */
  ghost predicate StoresAll(code: seq<Word>, abs: seq<Instr>) {
    |code| == |abs| && forall i :: 0 <= i < |code| ==> Stores(code[i], abs[i], i)
  }

  ghost predicate AllOpen(abs: seq<Instr>, l: seq<nat>) {
    forall j :: j in l ==> j < |abs| && abs[j] == Jump(None)
  }

  /** No pending jump outside `touched` has changed. */
  ghost predicate Kept(code: seq<Word>, abs: seq<Instr>, code': seq<Word>, abs': seq<Instr>, touched: set<nat>) {
    && |code| == |abs| && |code'| == |abs'|
    && forall j :: 0 <= j < |abs| && abs[j] == Jump(None) && j !in touched ==>
         j < |abs'| && abs'[j] == Jump(None) && code'[j] == code[j]
  }

  lemma KeptTwice(c0: seq<Word>, a0: seq<Instr>, c1: seq<Word>, a1: seq<Instr>, c2: seq<Word>, a2: seq<Instr>,
                  t0: set<nat>, t1: set<nat>, t: set<nat>)
    requires Kept(c0, a0, c1, a1, t0) && Kept(c1, a1, c2, a2, t1)
    requires forall j :: (j in t0 || j in t1) && j < |a0| ==> j in t
    ensures Kept(c0, a0, c2, a2, t)
  {
  }

  /** A list survives whatever does not touch its jumps. */
  lemma ListKept(code: seq<Word>, abs: seq<Instr>, code': seq<Word>, abs': seq<Instr>, touched: set<nat>, head: int,
                 l: seq<nat>)
    requires Kept(code, abs, code', abs', touched) && IsList(code, head, l) && AllOpen(abs, l)
    requires forall j :: j in l ==> j !in touched
    ensures IsList(code', head, l) && AllOpen(abs', l)
  {
    IsListFrame(code, code', head, l);
  }

  /** `expdesc`: the heads of the lists, or `NO_JUMP`. */
  datatype ExpDesc = ExpDesc(k: Kind, t: int, f: int)

  ghost predicate IsOpenList(code: seq<Word>, abs: seq<Instr>, head: int, l: seq<nat>) {
    IsList(code, head, l) && AllOpen(abs, l)
  }

  /** `e` has the heads of the lists of `E`, and the jump of a comparison is a list of its own. */
  ghost predicate Heads(code: seq<Word>, abs: seq<Instr>, e: ExpDesc, E: Exp) {
    && e.k == E.k && IsOpenList(code, abs, e.t, E.t) && IsOpenList(code, abs, e.f, E.f)
    && (E.k.VJmp? ==> IsOpenList(code, abs, E.k.pc, [E.k.pc]))
  }

  lemma HeadsKept(code: seq<Word>, abs: seq<Instr>, code': seq<Word>, abs': seq<Instr>, touched: set<nat>, e: ExpDesc,
                  E: Exp, k: Kind)
    requires Kept(code, abs, code', abs', touched) && Heads(code, abs, e, E)
    requires forall j :: j in E.t || j in E.f || (k.VJmp? && j == k.pc) ==> j !in touched
    requires k == E.k || !k.VJmp?
    ensures Heads(code', abs', e.(k := k), E.(k := k))
  {
    ListKept(code, abs, code', abs', touched, e.t, E.t);
    ListKept(code, abs, code', abs', touched, e.f, E.f);
    if k.VJmp? { ListKept(code, abs, code', abs', touched, k.pc, [k.pc]); }
  }

  // ---------------------------------------------------------------- patching

  /** What `patchtestreg` does to the word in front of a jump. */
  function PatchWord(w: Word, reg: nat): Word
    requires w.TSet?
  {
    if reg != NO_REG && reg != w.b then w.(a := reg) else Plain(Test(w.b, w.c))
  }

  function RegOf(reg: nat): Option<nat> { if reg == NO_REG then None else Some(reg) }

  predicate ValuedWord(code: seq<Word>, j: nat) { 0 < j <= |code| && code[j - 1].TSet? }

  /** `patchlistaux` at one place, when the jumps of `done` have been patched. */
  function WordAt(code: seq<Word>, i: nat, done: set<nat>, vtarget: int, reg: nat, dtarget: int): Word
    requires i < |code|
  {
    if i in done then Jmp((if ValuedWord(code, i) then vtarget else dtarget) - (i + 1))
    else if i + 1 in done && code[i].TSet? then PatchWord(code[i], reg)
    else code[i]
  }

  ghost predicate PatchedWords(code: seq<Word>, code': seq<Word>, done: set<nat>, vtarget: int, reg: nat,
                               dtarget: int) {
    |code'| == |code| && forall i :: 0 <= i < |code| ==> code'[i] == WordAt(code, i, done, vtarget, reg, dtarget)
  }

  /** `removevalues` at every place, when the jumps of `done` have been seen. */
  ghost predicate DemotedWords(code: seq<Word>, code': seq<Word>, done: seq<nat>) {
    |code'| == |code| &&
    forall i :: 0 <= i < |code| ==>
      code'[i] == if i + 1 in done && code[i].TSet? then Plain(Test(code[i].b, code[i].c)) else code[i]
  }

  /** One round of `patchlistaux`. */
  function PatchOne(code: seq<Word>, j: nat, vtarget: int, reg: nat, dtarget: int): seq<Word>
    requires j < |code|
  {
    if ValuedWord(code, j)
    then code[j - 1 := PatchWord(code[j - 1], reg)][j := Jmp(vtarget - (j + 1))]
    else code[j := Jmp(dtarget - (j + 1))]
  }

  /** `done` are the first `k` jumps of the list. */
  ghost predicate Front(L: seq<nat>, k: nat, done: set<nat>) {
    (forall n :: 0 <= n < |L| ==> (L[n] in done <==> n < k)) && (forall j :: j in done ==> j in L)
  }

  lemma FrontStep(code: seq<Word>, head: int, L: seq<nat>, k: nat, done: set<nat>)
    requires IsList(code, head, L) && k < |L| && Front(L, k, done)
    ensures Front(L, k + 1, done + {L[k]})
    ensures L[k] < |code| && code[L[k]].Jmp? && (forall j :: j in done ==> j < |code| && code[j].Jmp?)
  {
    forall a, b | 0 <= a < b < |L| ensures L[a] != L[b] { IsListNoDup(code, head, L, a, b); }
    IsListRange(code, head, L);
    assert L[k] in L;
  }

  lemma PatchedWord(code: seq<Word>, code1: seq<Word>, done: set<nat>, j: nat, vtarget: int, reg: nat, dtarget: int)
    requires PatchedWords(code, code1, done, vtarget, reg, dtarget)
    requires j < |code| && code[j].Jmp? && j !in done && (forall i :: i in done ==> i < |code| && code[i].Jmp?)
    ensures PatchedWords(code, PatchOne(code1, j, vtarget, reg, dtarget), done + {j}, vtarget, reg, dtarget)
    ensures code1[j] == code[j] && ValuedWord(code1, j) == ValuedWord(code, j)
  {
    var code' := PatchOne(code1, j, vtarget, reg, dtarget);
    assert code1[j] == WordAt(code, j, done, vtarget, reg, dtarget);
    assert j > 0 ==> code1[j - 1] == WordAt(code, j - 1, done, vtarget, reg, dtarget);
    forall i | 0 <= i < |code| ensures code'[i] == WordAt(code, i, done + {j}, vtarget, reg, dtarget) {
      assert code1[i] == WordAt(code, i, done, vtarget, reg, dtarget);
    }
  }

  lemma PatchedRest(code1: seq<Word>, L: seq<nat>, k: nat, vtarget: int, reg: nat, dtarget: int)
    requires k < |L| && IsList(code1, L[k], L[k..])
    ensures IsList(PatchOne(code1, L[k], vtarget, reg, dtarget), Next(code1, L[k]), L[k + 1..])
  {
    var j, code' := L[k], PatchOne(code1, L[k], vtarget, reg, dtarget);
    assert L[k..][1..] == L[k + 1..];
    IsListRange(code1, Next(code1, j), L[k + 1..]);
    forall n | k < n < |L| ensures L[n] != j { IsListNoDup(code1, j, L[k..], 0, n - k); }
    IsListFrame(code1, code', Next(code1, j), L[k + 1..]);
  }

  lemma PatchedStep(code: seq<Word>, code1: seq<Word>, head: int, L: seq<nat>, k: nat, done: set<nat>, vtarget: int,
                    reg: nat, dtarget: int)
    requires IsList(code, head, L) && k < |L| && Front(L, k, done)
    requires PatchedWords(code, code1, done, vtarget, reg, dtarget) && IsList(code1, L[k], L[k..])
    ensures L[k] < |code1| == |code| && code1[L[k]].Jmp?
    ensures Front(L, k + 1, done + {L[k]})
    ensures PatchedWords(code, PatchOne(code1, L[k], vtarget, reg, dtarget), done + {L[k]}, vtarget, reg, dtarget)
    ensures IsList(PatchOne(code1, L[k], vtarget, reg, dtarget), Next(code1, L[k]), L[k + 1..])
    ensures ValuedWord(code1, L[k]) == ValuedWord(code, L[k])
  {
    FrontStep(code, head, L, k, done);
    PatchedWord(code, code1, done, L[k], vtarget, reg, dtarget);
    PatchedRest(code1, L, k, vtarget, reg, dtarget);
  }

  /** One round of `removevalues`. */
  function DemoteOne(code: seq<Word>, j: nat): seq<Word>
    requires j < |code|
  {
    if ValuedWord(code, j) then code[j - 1 := PatchWord(code[j - 1], NO_REG)] else code
  }

  lemma DemotedStep(code: seq<Word>, code1: seq<Word>, head: int, L: seq<nat>, k: nat)
    requires k < |L| && DemotedWords(code, code1, L[..k]) && IsList(code1, head, L[k..])
    ensures DemotedWords(code, DemoteOne(code1, L[k]), L[..k + 1])
    ensures IsList(DemoteOne(code1, L[k]), Next(code1, L[k]), L[k + 1..])
  {
    var j, code' := L[k], DemoteOne(code1, L[k]);
    assert L[..k + 1] == L[..k] + [j];
    assert L[k..][1..] == L[k + 1..];
    IsListRange(code1, Next(code1, j), L[k + 1..]);
    IsListFrame(code1, code', Next(code1, j), L[k + 1..]);
  }

  lemma DemotedStored(code: seq<Word>, abs: seq<Instr>, code': seq<Word>, L: seq<nat>)
    requires StoresAll(code, abs) && DemotedWords(code, code', L)
    ensures StoresAll(code', Demote(abs, L))
  {
    var abs' := Demote(abs, L);
    forall i | 0 <= i < |code| ensures Stores(code'[i], abs'[i], i) {
      assert Stores(code[i], abs[i], i);
    }
  }

  /** `fixjump` cannot encode the distance. */
  predicate TooFar(from: nat, dest: int) { dest - (from + 1) > MAXARG_sBx || from + 1 - dest > MAXARG_sBx }

  /** The default target matters only for a jump that carries no value. */
  ghost predicate SameTargets(abs: seq<Instr>, L: seq<nat>, dtarget: int, d: nat) {
    d == dtarget || forall j :: j in L ==> CarriesValue(abs, j)
  }

  predicate AnyTooFar(code: seq<Word>, L: seq<nat>, vtarget: int, dtarget: int) {
    L != [] && (TooFar(L[0], if ValuedWord(code, L[0]) then vtarget else dtarget)
      || AnyTooFar(code, L[1..], vtarget, dtarget))
  }

  lemma {:induction false} NoneTooFar(code: seq<Word>, L: seq<nat>, vtarget: int, dtarget: int, j: nat)
    requires !AnyTooFar(code, L, vtarget, dtarget) && j in L
    ensures !TooFar(j, if ValuedWord(code, j) then vtarget else dtarget)
    decreases |L|
  {
    if j != L[0] { NoneTooFar(code, L[1..], vtarget, dtarget, j); }
  }

  /** Patching the stored words is patching the instructions. */
  lemma PatchedStored(code: seq<Word>, abs: seq<Instr>, code': seq<Word>, L: seq<nat>, vtarget: nat, reg: nat,
                      dtarget: int, d: nat)
    requires StoresAll(code, abs) && AllOpen(abs, L)
    requires PatchedWords(code, code', Jumps(L), vtarget, reg, dtarget)
    requires SameTargets(abs, L, dtarget, d) && !AnyTooFar(code, L, vtarget, dtarget)
    ensures StoresAll(code', PatchList(abs, L, vtarget, RegOf(reg), d))
    ensures Kept(code, abs, code', PatchList(abs, L, vtarget, RegOf(reg), d), Jumps(L))
  {
    var abs' := PatchList(abs, L, vtarget, RegOf(reg), d);
    forall i | 0 <= i < |code| ensures Stores(code'[i], abs'[i], i) {
      if i in L { NoneTooFar(code, L, vtarget, dtarget, i); }
      assert Stores(code[i], abs[i], i);
      assert code'[i] == WordAt(code, i, Jumps(L), vtarget, reg, dtarget);
      assert abs'[i] == PatchAt(abs, i, L, vtarget, RegOf(reg), d);
      assert i > 0 ==> Stores(code[i - 1], abs[i - 1], i - 1);
    }
  }

  lemma {:induction false} FarAlike(code: seq<Word>, abs: seq<Instr>, L: seq<nat>, vtarget: nat, dtarget: int, d: nat)
    requires StoresAll(code, abs) && AllOpen(abs, L) && SameTargets(abs, L, dtarget, d)
    ensures AnyFar(abs, L, vtarget, d) == AnyTooFar(code, L, vtarget, dtarget)
  {
    if L != [] {
      var j := L[0];
      assert j in L;
      assert j > 0 ==> Stores(code[j - 1], abs[j - 1], j - 1);
      assert forall i :: i in L[1..] ==> i in L;
      FarAlike(code, abs, L[1..], vtarget, dtarget, d);
    }
  }

  lemma PatchedNone(code: seq<Word>, L: seq<nat>, vtarget: int, reg: nat, dtarget: int)
    ensures PatchedWords(code, code, {}, vtarget, reg, dtarget) && Front(L, 0, {})
  {
  }

  /** The walk is at jump `k` of the list, or at its end. */
  lemma ListStep(code: seq<Word>, at: int, L: seq<nat>, k: nat)
    requires k <= |L| && IsList(code, at, L[k..])
    ensures if at == NO_JUMP then k == |L| else k < |L| && at == L[k]
  {
  }

  lemma FarStep(code: seq<Word>, L: seq<nat>, k: nat, vtarget: int, dtarget: int)
    requires k < |L|
    ensures AnyTooFar(code, L[k..], vtarget, dtarget) ==
            (TooFar(L[k], if ValuedWord(code, L[k]) then vtarget else dtarget)
              || AnyTooFar(code, L[k + 1..], vtarget, dtarget))
  {
    assert L[k..][1..] == L[k + 1..];
  }

  lemma PatchedEnd(code: seq<Word>, at: int, L: seq<nat>, k: nat, done: set<nat>)
    requires k <= |L| && at == NO_JUMP && IsList(code, at, L[k..]) && Front(L, k, done)
    ensures k == |L| && done == Jumps(L)
  {
    assert forall j :: j in L ==> exists n :: 0 <= n < |L| && L[n] == j;
  }

  lemma NoneFar(code: seq<Word>, L: seq<nat>, vtarget: int, dtarget: int)
    ensures !AnyTooFar(code, L[|L|..], vtarget, dtarget)
  {
  }
}
