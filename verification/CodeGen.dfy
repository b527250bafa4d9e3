/** The code generator for logical expressions (lua/lcode.c) on values: what every function does to the
    generation state. A patch list is the sequence of its jumps, in list order. A jump in a list has no
    target; how lists are threaded through the code array is the subject of `CodeLists`.

    `err` is raised where the C code calls `luaX_syntaxerror` and stays raised. */
module CodeGen {
  import opened Wrappers
  import opened CodeMachine

  const MAXARG_sBx := 131071
  const MAXARG_Bx := 262143
  const MAXINDEXRK := 255
  const MAXSTACK := 250

  datatype Kind =
    | VTrue
    | VFalse
    | VK(i: nat)
    | VKNum(n: int)
    | VLocal(r: nat)
    | VJmp(pc: nat)
    | VReloc(pc: nat)
    | VNonReloc(r: nat)

  /** `t` and `f` are the lists of jumps that leave the expression when it is true or false. */
  datatype Exp = Exp(k: Kind, t: seq<nat>, f: seq<nat>)

  datatype FS = FS(code: seq<Instr>, jpc: seq<nat>, freereg: nat, nactvar: nat, K: seq<Value>, err: bool)

  datatype Gen = Gen(fs: FS, e: Exp)
  datatype Jumped = Jumped(fs: FS, list: seq<nat>)
  datatype Placed = Placed(fs: FS, e: Exp, o: RK)
  datatype Added = Added(fs: FS, i: nat)

  // ---------------------------------------------------------------- jumps and lists

  predicate FarJump(from: nat, dest: nat) {
    dest - (from + 1) > MAXARG_sBx || from + 1 - dest > MAXARG_sBx
  }

  function Target(code: seq<Instr>, j: nat, vtarget: nat, dtarget: nat): nat {
    if CarriesValue(code, j) then vtarget else dtarget
  }

  predicate AnyFar(code: seq<Instr>, list: seq<nat>, vtarget: nat, dtarget: nat) {
    list != []
      && (FarJump(list[0], Target(code, list[0], vtarget, dtarget)) || AnyFar(code, list[1..], vtarget, dtarget))
  }

  /** `patchtestreg`: the TESTSET assigns to `reg`, or becomes a TEST if there is no register or the value
      is already there. */
  function PatchTest(i: Instr, reg: Option<nat>): Instr
    requires i.TestSet?
  {
    if reg.Some? && reg.value != i.b then TestSet(reg, i.b, i.c) else Test(i.b, i.c)
  }

  /** `patchlistaux` at one place of the code. */
  function PatchAt(code: seq<Instr>, i: nat, list: seq<nat>, vtarget: nat, reg: Option<nat>, dtarget: nat): Instr
    requires i < |code|
  {
    if i in list then Jump(Some(Target(code, i, vtarget, dtarget)))
    else if i + 1 in list && code[i].TestSet? then PatchTest(code[i], reg)
    else code[i]
  }

  function PatchList(code: seq<Instr>, list: seq<nat>, vtarget: nat, reg: Option<nat>, dtarget: nat): (r: seq<Instr>)
    ensures |r| == |code|
    ensures forall i :: 0 <= i < |code| ==> r[i] == PatchAt(code, i, list, vtarget, reg, dtarget)
  {
    seq(|code|, i requires 0 <= i < |code| => PatchAt(code, i, list, vtarget, reg, dtarget))
  }

  /** `removevalues`. */
  function Demote(code: seq<Instr>, list: seq<nat>): (r: seq<Instr>)
    ensures |r| == |code|
    ensures forall i :: 0 <= i < |code| ==>
              r[i] == if i + 1 in list && code[i].TestSet? then Test(code[i].b, code[i].c) else code[i]
  {
    seq(|code|, i requires 0 <= i < |code| =>
      if i + 1 in list && code[i].TestSet? then Test(code[i].b, code[i].c) else code[i])
  }

  /** `need_value`: some jump of the list does not carry its value. */
  predicate NeedValue(code: seq<Instr>, list: seq<nat>) {
    list != [] && (!CarriesValue(code, list[0]) || NeedValue(code, list[1..]))
  }

  /** `luaK_concat` appends; linking the last jump of a list to the next list may be too far. */
  function Linked(fs: FS, l1: seq<nat>, l2: seq<nat>): FS {
    if l1 != [] && l2 != [] && FarJump(l1[|l1| - 1], l2[0]) then fs.(err := true) else fs
  }

  function DischargeJpc(fs: FS): FS {
    var pc := |fs.code|;
    fs.(code := PatchList(fs.code, fs.jpc, pc, None, pc), jpc := [], err := fs.err || AnyFar(fs.code, fs.jpc, pc, pc))
  }

  /** `luaK_code`. */
  function Emit(fs: FS, i: Instr): FS {
    var fs1 := DischargeJpc(fs);
    fs1.(code := fs1.code + [i])
  }

  /** `luaK_jump`: the jumps pending to this place join the list of the new jump. */
  function EmitJump(fs: FS): Jumped {
    var j := |fs.code|;
    Jumped(Linked(fs, [j], fs.jpc).(code := fs.code + [Jump(None)], jpc := []), [j] + fs.jpc)
  }

  function CondJump(fs: FS, i: Instr): Jumped { EmitJump(Emit(fs, i)) }

  function PatchToHere(fs: FS, list: seq<nat>): FS {
    Linked(fs, fs.jpc, list).(jpc := fs.jpc + list)
  }

  // ---------------------------------------------------------------- registers and constants

  function ReserveReg(fs: FS): FS {
    fs.(freereg := fs.freereg + 1, err := fs.err || fs.freereg + 1 >= MAXSTACK)
  }

  function FreeReg(fs: FS, r: nat): FS {
    if r >= fs.nactvar && fs.freereg > 0 then fs.(freereg := fs.freereg - 1) else fs
  }

  function FreeExp(fs: FS, e: Exp): FS { if e.k.VNonReloc? then FreeReg(fs, e.k.r) else fs }

  function IndexOf(K: seq<Value>, v: Value): (i: nat)
    ensures i <= |K| && (i < |K| ==> K[i] == v)
  {
    if K == [] || K[0] == v then 0 else 1 + IndexOf(K[1..], v)
  }

  /** `addk`: reuses an equal constant. */
  function AddK(fs: FS, v: Value): (r: Added)
    ensures fs.K <= r.fs.K && r.i < |r.fs.K| && r.fs.K[r.i] == v
    ensures r.fs == fs.(K := r.fs.K, err := r.fs.err) && (fs.err ==> r.fs.err)
    ensures r.i <= |fs.K|
  {
    var i := IndexOf(fs.K, v);
    if i < |fs.K| then Added(fs, i)
    else Added(fs.(K := fs.K + [v], err := fs.err || |fs.K| >= MAXARG_Bx), i)
  }

  // ---------------------------------------------------------------- putting values into registers

  function DischargeVars(e: Exp): Exp { if e.k.VLocal? then e.(k := VNonReloc(e.k.r)) else e }

  function SetA(i: Instr, a: nat): Instr { if i.NotI? then i.(a := a) else i }

  function Discharge2Reg(fs: FS, e: Exp, reg: nat): Gen {
    var e1 := DischargeVars(e);
    var done := e1.(k := VNonReloc(reg));
    match e1.k
    case VTrue => Gen(Emit(fs, LoadBool(reg, true, false)), done)
    case VFalse => Gen(Emit(fs, LoadBool(reg, false, false)), done)
    case VK(i) => Gen(Emit(fs, LoadK(reg, i)), done)
    case VKNum(n) => var a := AddK(fs, Num(n)); Gen(Emit(a.fs, LoadK(reg, a.i)), done)
    case VReloc(pc) => if pc < |fs.code| then Gen(fs.(code := fs.code[pc := SetA(fs.code[pc], reg)]), done)
      else Gen(fs, done)
    case VNonReloc(r) => if reg != r then Gen(Emit(fs, Move(reg, r)), done) else Gen(fs, done)
    case VJmp(_) => Gen(fs, e1)
    case VLocal(_) => Gen(fs, e1)
  }

  function Discharge2AnyReg(fs: FS, e: Exp): Gen {
    if e.k.VNonReloc? then Gen(fs, e) else Discharge2Reg(ReserveReg(fs), e, fs.freereg)
  }

  /** The middle part of `exp2reg`: after a jump over them, two loads that the jumps without a value go to. */
  function EmitLoads(fs: FS, isJump: bool, reg: nat): (r: FS)
    ensures |r.code| >= 2
  {
    var fs1 := if isJump then DischargeJpc(fs) else EmitJump(fs).fs;
    fs1.(code := fs1.code + [LoadBool(reg, false, true), LoadBool(reg, true, false)],
         jpc := if isJump then [] else EmitJump(fs).list)
  }

  /** The code after the jumps of both lists have been patched, place by place: a jump that carries its value
      leads to `final`, any other to the load of `false` at `pf` or of `true` at `pt`. */
  function ExitAt(code: seq<Instr>, i: nat, e: Exp, final: nat, reg: nat, pf: nat, pt: nat): Instr
    requires i < |code|
  {
    if i in e.f then Jump(Some(Target(code, i, final, pf)))
    else if i in e.t then Jump(Some(Target(code, i, final, pt)))
    else if (i + 1 in e.f || i + 1 in e.t) && code[i].TestSet? then PatchTest(code[i], Some(reg))
    else code[i]
  }

  function ExitCode(code: seq<Instr>, e: Exp, reg: nat, pf: nat, pt: nat): (r: seq<Instr>)
    ensures |r| == |code|
    ensures forall i :: 0 <= i < |code| ==> r[i] == ExitAt(code, i, e, |code|, reg, pf, pt)
  {
    seq(|code|, i requires 0 <= i < |code| => ExitAt(code, i, e, |code|, reg, pf, pt))
  }

  function PatchExits(fs: FS, e: Exp, reg: nat, pf: nat, pt: nat): FS {
    fs.(code := ExitCode(fs.code, e, reg, pf, pt),
        err := fs.err || AnyFar(fs.code, e.f, |fs.code|, pf) || AnyFar(fs.code, e.t, |fs.code|, pt))
  }

  /** The lists when the value is to be closed; the jump of a comparison joins the exits for `true`. */
  function Exits(e: Exp): Exp { if e.k.VJmp? then e.(t := e.t + [e.k.pc]) else e }

  function Joined(fs: FS, e: Exp): FS { if e.k.VJmp? then Linked(fs, e.t, [e.k.pc]) else fs }

  /** `exp2reg` after `discharge2reg`: closes the lists. */
  function Close(fs: FS, e: Exp, reg: nat): Gen {
    var e1, fs1 := Exits(e), Joined(fs, e);
    var done := Exp(VNonReloc(reg), [], []);
    if !HasJumps(e1) then Gen(fs1, done)
    else if NeedValue(fs1.code, e1.t) || NeedValue(fs1.code, e1.f) then
      var fs2 := EmitLoads(fs1, e.k.VJmp?, reg);
      Gen(PatchExits(fs2, e1, reg, |fs2.code| - 2, |fs2.code| - 1), done)
    else Gen(PatchExits(fs1, e1, reg, 0, 0), done)
  }

  function Exp2Reg(fs: FS, e: Exp, reg: nat): Gen {
    var g := Discharge2Reg(fs, e, reg);
    Close(g.fs, g.e, reg)
  }

  function Exp2NextReg(fs: FS, e: Exp): Gen {
    var e1 := DischargeVars(e);
    var fs1 := ReserveReg(FreeExp(fs, e1));
    if fs1.freereg > 0 then Exp2Reg(fs1, e1, fs1.freereg - 1) else Gen(fs1, e1)
  }

  predicate HasJumps(e: Exp) { e.t != [] || e.f != [] }

  function Exp2AnyReg(fs: FS, e: Exp): Gen {
    var e1 := DischargeVars(e);
    if e1.k.VNonReloc? && !HasJumps(e1) then Gen(fs, e1)
    else if e1.k.VNonReloc? && e1.k.r >= fs.nactvar then Exp2Reg(fs, e1, e1.k.r)
    else Exp2NextReg(fs, e1)
  }

  function Exp2Val(fs: FS, e: Exp): Gen {
    if HasJumps(e) then Exp2AnyReg(fs, e) else Gen(fs, DischargeVars(e))
  }

  function InReg(g: Gen): Placed {
    Placed(g.fs, g.e, if g.e.k.VNonReloc? then Reg(g.e.k.r) else Reg(0))
  }

  function ConstantOf(k: Kind): Option<Value> {
    match k
    case VKNum(n) => Some(Num(n))
    case VTrue => Some(Bool(true))
    case VFalse => Some(Bool(false))
    case _ => None
  }

  /** `exp2RK` after `exp2val`: a constant among the first 256 is an operand itself. */
  function Operate(fs: FS, e: Exp): Placed {
    if ConstantOf(e.k).Some? && |fs.K| <= MAXINDEXRK then
      var a := AddK(fs, ConstantOf(e.k).value);
      Placed(a.fs, e.(k := VK(a.i)), Konst(a.i))
    else if e.k.VK? && e.k.i <= MAXINDEXRK then Placed(fs, e, Konst(e.k.i))
    else InReg(Exp2AnyReg(fs, e))
  }

  /** The operand of a comparison needs no code. */
  predicate StaysPut(fs: FS, e: Exp) {
    && !HasJumps(e)
    && match e.k
       case VLocal(_) => true
       case VNonReloc(_) => true
       case VK(i) => i <= MAXINDEXRK
       case _ => ConstantOf(e.k).Some? && |fs.K| <= MAXINDEXRK
  }

  function Exp2RK(fs: FS, e: Exp): Placed {
    var g := Exp2Val(fs, e);
    Operate(g.fs, g.e)
  }

  // ---------------------------------------------------------------- conditions

  function InvertJump(fs: FS, pc: nat): FS {
    if 0 < pc <= |fs.code| && fs.code[pc - 1].Cmp?
    then fs.(code := fs.code[pc - 1 := fs.code[pc - 1].(accept := !fs.code[pc - 1].accept)])
    else fs
  }

  function JumpOnCond(fs: FS, e: Exp, cond: bool): Jumped {
    if e.k.VReloc? && e.k.pc < |fs.code| && fs.code[e.k.pc].NotI? then
      CondJump(fs.(code := fs.code[..|fs.code| - 1]), Test(fs.code[e.k.pc].b, !cond))
    else
      var g := Discharge2AnyReg(fs, e);
      CondJump(FreeExp(g.fs, g.e), TestSet(None, if g.e.k.VNonReloc? then g.e.k.r else 0, cond))
  }

  function GoIfTrue(fs: FS, e: Exp): Gen {
    var e1 := DischargeVars(e);
    var j := match e1.k
      case VK(_) => Jumped(fs, [])
      case VKNum(_) => Jumped(fs, [])
      case VTrue => Jumped(fs, [])
      case VFalse => EmitJump(fs)
      case VJmp(pc) => Jumped(InvertJump(fs, pc), [pc])
      case _ => JumpOnCond(fs, e1, false);
    Gen(PatchToHere(Linked(j.fs, e1.f, j.list), e1.t), e1.(t := [], f := e1.f + j.list))
  }

  function GoIfFalse(fs: FS, e: Exp): Gen {
    var e1 := DischargeVars(e);
    var j := match e1.k
      case VFalse => Jumped(fs, [])
      case VTrue => EmitJump(fs)
      case VJmp(pc) => Jumped(fs, [pc])
      case _ => JumpOnCond(fs, e1, true);
    Gen(PatchToHere(Linked(j.fs, e1.t, j.list), e1.f), e1.(f := [], t := e1.t + j.list))
  }

  function CodeNot(fs: FS, e: Exp): Gen {
    var e1 := DischargeVars(e);
    var g := match e1.k
      case VFalse => Gen(fs, e1.(k := VTrue))
      case VK(_) => Gen(fs, e1.(k := VFalse))
      case VKNum(_) => Gen(fs, e1.(k := VFalse))
      case VTrue => Gen(fs, e1.(k := VFalse))
      case VJmp(pc) => Gen(InvertJump(fs, pc), e1)
      case _ =>
        var d := Discharge2AnyReg(fs, e1);
        var fs1 := Emit(FreeExp(d.fs, d.e), NotI(0, if d.e.k.VNonReloc? then d.e.k.r else 0));
        Gen(fs1, d.e.(k := VReloc(|fs1.code| - 1)));
    Gen(g.fs.(code := Demote(Demote(g.fs.code, g.e.t), g.e.f)), g.e.(t := g.e.f, f := g.e.t))
  }

  /** The opcode, the accepted result and whether the operands are exchanged. */
  function CompOp(op: RelOp): (CmpOp, bool, bool) {
    match op
    case Eq => (OpEq, true, false)
    case Ne => (OpEq, false, false)
    case Lt => (OpLt, true, false)
    case Le => (OpLe, true, false)
    case Gt => (OpLt, true, true)
    case Ge => (OpLe, true, true)
  }

  /** The comparison instruction that `codecomp` chooses. */
  function CmpInstr(op: RelOp, o1: RK, o2: RK): Instr {
    var (code, accept, swap) := CompOp(op);
    if swap then Cmp(code, accept, o2, o1) else Cmp(code, accept, o1, o2)
  }

  function CodeComp(fs: FS, op: RelOp, e1: Exp, e2: Exp): Gen {
    var p1 := Exp2RK(fs, e1);
    var p2 := Exp2RK(p1.fs, e2);
    var fs1 := FreeExp(FreeExp(p2.fs, p2.e), p1.e);
    Gen(CondJump(fs1, CmpInstr(op, p1.o, p2.o)).fs, p1.e.(k := VJmp(|fs1.code| + 1)))
  }

  // ---------------------------------------------------------------- expressions

  /** `subexpr` with `luaK_prefix`, `luaK_infix` and `luaK_posfix`, driven by the syntax tree. */
  function Comp(fs: FS, x: Expr): Gen
    decreases x
  {
    match x
    case Truth => Gen(fs, Exp(VTrue, [], []))
    case Falsity => Gen(fs, Exp(VFalse, [], []))
    case Numeral(n) => Gen(fs, Exp(VKNum(n), [], []))
    case Local(r) => Gen(fs, Exp(VLocal(r), [], []))
    case Not(y) =>
      var g := Comp(fs, y);
      CodeNot(g.fs, g.e)
    case And(l, r) =>
      var g1 := Comp(fs, l);
      var g2 := GoIfTrue(g1.fs, g1.e);
      var g3 := Comp(g2.fs, r);
      Gen(Linked(g3.fs, g3.e.f, g2.e.f), DischargeVars(g3.e).(f := g3.e.f + g2.e.f))
    case Or(l, r) =>
      var g1 := Comp(fs, l);
      var g2 := GoIfFalse(g1.fs, g1.e);
      var g3 := Comp(g2.fs, r);
      Gen(Linked(g3.fs, g3.e.t, g2.e.t), DischargeVars(g3.e).(t := g3.e.t + g2.e.t))
    case Rel(op, l, r) =>
      var g1 := Comp(fs, l);
      var p1 := Exp2RK(g1.fs, g1.e);
      var g2 := Comp(p1.fs, r);
      CodeComp(g2.fs, op, p1.e, g2.e)
  }
}
