/** Precedence climbing (lua/lparser.c:765-853; section 2.5.6 of the Lua 5.1 Reference Manual). `Shaped` says, operator
    by operator, which trees the priorities allow; `subexpr` builds the only one. A simple expression is one token. */
module ParserExpr {
  import opened Wrappers

  datatype BinOp = Add | Sub | Mul | Div | Mod | Pow | Concat | Ne | Eq | Lt | Le | Gt | Ge | And | Or

  datatype UnOp = Minus | Not | Len

  datatype Token = Simple(id: nat) | Sym(op: BinOp) | NotSign | LenSign | Other

  datatype Tree = Leaf(id: nat) | Unary(u: UnOp, x: Tree) | Binary(op: BinOp, l: Tree, r: Tree)

  const UNARY_PRIORITY := 8
  const LUAI_MAXCCALLS := 200

  function LeftPriority(op: BinOp): nat {
    match op
    case Or => 1
    case And => 2
    case Ne => 3 case Eq => 3 case Lt => 3 case Le => 3 case Gt => 3 case Ge => 3
    case Concat => 5
    case Add => 6 case Sub => 6
    case Mul => 7 case Div => 7 case Mod => 7
    case Pow => 10
  }

  function RightPriority(op: BinOp): nat {
    if op.Pow? then 9 else if op.Concat? then 4 else LeftPriority(op)
  }

  /** `getunopr` */
  function UnOpOf(t: Token): Option<UnOp> {
    match t
    case Sym(Sub) => Some(Minus)
    case NotSign => Some(Not)
    case LenSign => Some(Len)
    case _ => None
  }

  function TokenOf(u: UnOp): Token {
    match u
    case Minus => Sym(Sub)
    case Not => NotSign
    case Len => LenSign
  }

  // ---------------------------------------------------------------- the trees that the priorities allow

  /** The tokens of a tree, from left to right. */
  function Yield(t: Tree): (r: seq<Token>)
    ensures r != []
  {
    match t
    case Leaf(id) => [Simple(id)]
    case Unary(u, x) => [TokenOf(u)] + Yield(x)
    case Binary(op, l, r) => Yield(l) + [Sym(op)] + Yield(r)
  }

  /** Every binary operator whose left operand begins where the tree begins binds tighter than `limit`. */
  predicate Above(t: Tree, limit: nat) { t.Binary? ==> LeftPriority(t.op) > limit && Above(t.l, limit) }

  /** `op` after the tree is not taken by any operator whose right operand ends where the tree ends. */
  predicate Closed(t: Tree, op: BinOp) {
    match t
    case Leaf(_) => true
    case Unary(_, x) => LeftPriority(op) <= UNARY_PRIORITY && Closed(x, op)
    case Binary(o, _, r) => LeftPriority(op) <= RightPriority(o) && Closed(r, op)
  }

  /** Every operand is one that the priorities give to its operator. */
  predicate Shaped(t: Tree) {
    match t
    case Leaf(_) => true
    case Unary(_, x) => Above(x, UNARY_PRIORITY) && Shaped(x)
    case Binary(op, l, r) => Closed(l, op) && Shaped(l) && Above(r, RightPriority(op)) && Shaped(r)
  }

  /** How deeply calls of `subexpr` are nested below the one that builds the tree. */
  function Depth(t: Tree): nat {
    match t
    case Leaf(_) => 0
    case Unary(_, x) => 1 + Depth(x)
    case Binary(_, l, r) => if Depth(l) > 1 + Depth(r) then Depth(l) else 1 + Depth(r)
  }

  // ---------------------------------------------------------------- the parser

  datatype Parsed = Done(t: Tree, rest: seq<Token>) | Unexpected | TooDeep

  /** The operator at the front, if there is one above the limit. */
  function Next(toks: seq<Token>, limit: nat): Option<BinOp> {
    if toks != [] && toks[0].Sym? && LeftPriority(toks[0].op) > limit then Some(toks[0].op) else None
  }

  /** `subexpr`; `room` calls may still be nested. */
  function Subexpr(toks: seq<Token>, limit: nat, room: nat): (r: Parsed)
    ensures r.Done? ==> |r.rest| < |toks|
    decreases |toks|, 1
  {
    if room == 0 then TooDeep
    else if toks == [] then Unexpected
    else if UnOpOf(toks[0]).Some? then
      var p := Subexpr(toks[1..], UNARY_PRIORITY, room - 1);
      if p.Done? then Climb(Unary(UnOpOf(toks[0]).value, p.t), p.rest, limit, room - 1) else p
    else if toks[0].Simple? then Climb(Leaf(toks[0].id), toks[1..], limit, room - 1)
    else Unexpected
  }

  /** The loop of `subexpr`: what has been built is the left operand of the next operator. */
  function Climb(left: Tree, toks: seq<Token>, limit: nat, room: nat): (r: Parsed)
    ensures r.Done? ==> |r.rest| <= |toks|
    decreases |toks|, 0
  {
    var op := Next(toks, limit);
    if op.None? then Done(left, toks)
    else
      var p := Subexpr(toks[1..], RightPriority(op.value), room);
      if p.Done? then Climb(Binary(op.value, left, p.t), p.rest, limit, room) else p
  }

  // ---------------------------------------------------------------- what it builds

  /** What a successful call has done: it has consumed the tokens of the tree, the tree is allowed, and the next
      operator, if there is one, is not above the limit. */
  ghost predicate Built(toks: seq<Token>, limit: nat, t: Tree, rest: seq<Token>) {
    && toks == Yield(t) + rest && Shaped(t) && Above(t, limit) && Next(rest, limit).None?
    && (rest != [] && rest[0].Sym? ==> Closed(t, rest[0].op))
  }

  lemma {:induction false} SubexprBuilds(toks: seq<Token>, limit: nat, room: nat)
    ensures var p := Subexpr(toks, limit, room); p.Done? ==> Built(toks, limit, p.t, p.rest) && Depth(p.t) < room
    decreases |toks|, 1
  {
    hide Yield, Climb;
    if room > 0 && toks != [] {
      if UnOpOf(toks[0]).Some? {
        var u, p := UnOpOf(toks[0]).value, Subexpr(toks[1..], UNARY_PRIORITY, room - 1);
        SubexprBuilds(toks[1..], UNARY_PRIORITY, room - 1);
        if p.Done? {
          UnaryYield(u, p.t, toks, p.rest);
          ClimbBuilds(toks, Unary(u, p.t), p.rest, limit, room - 1);
        }
      } else if toks[0].Simple? {
        LeafYield(toks);
        ClimbBuilds(toks, Leaf(toks[0].id), toks[1..], limit, room - 1);
      }
    }
  }

  lemma {:induction false} ClimbBuilds(all: seq<Token>, left: Tree, toks: seq<Token>, limit: nat, room: nat)
    requires all == Yield(left) + toks && Shaped(left) && Above(left, limit) && Depth(left) <= room
    requires toks != [] && toks[0].Sym? ==> Closed(left, toks[0].op)
    ensures var p := Climb(left, toks, limit, room); p.Done? ==> Built(all, limit, p.t, p.rest) && Depth(p.t) <= room
    decreases |toks|, 0
  {
    var op := Next(toks, limit);
    if op.Some? {
      var p := Subexpr(toks[1..], RightPriority(op.value), room);
      SubexprBuilds(toks[1..], RightPriority(op.value), room);
      if p.Done? {
        BinaryYield(op.value, left, p.t, toks, p.rest);
        hide Yield, Subexpr;
        ClimbBuilds(all, Binary(op.value, left, p.t), p.rest, limit, room);
      }
    }
  }

  lemma LeafYield(toks: seq<Token>)
    requires toks != [] && toks[0].Simple?
    ensures toks == Yield(Leaf(toks[0].id)) + toks[1..]
  {
  }

  lemma UnaryYield(u: UnOp, x: Tree, toks: seq<Token>, rest: seq<Token>)
    requires toks != [] && toks[0] == TokenOf(u) && toks[1..] == Yield(x) + rest
    ensures toks == Yield(Unary(u, x)) + rest
  {
    assert toks == [toks[0]] + (Yield(x) + rest);
  }

  lemma BinaryYield(op: BinOp, l: Tree, r: Tree, toks: seq<Token>, rest: seq<Token>)
    requires toks != [] && toks[0] == Sym(op) && toks[1..] == Yield(r) + rest
    ensures Yield(l) + toks == Yield(Binary(op, l, r)) + rest
  {
    assert toks == [Sym(op)] + (Yield(r) + rest);
  }

  // ---------------------------------------------------------------- nothing else fits

  /** Reading an allowed tree comes to the loop with that tree, or there is no room for it. */
  lemma {:induction false} Reads(t: Tree, rest: seq<Token>, limit: nat, room: nat)
    requires Shaped(t) && Above(t, limit) && room > 0
    requires rest != [] && rest[0].Sym? ==> Closed(t, rest[0].op)
    ensures Subexpr(Yield(t) + rest, limit, room) == if Depth(t) < room then Climb(t, rest, limit, room - 1)
            else TooDeep
    decreases t, 0
  {
    var toks := Yield(t) + rest;
    match t
    case Leaf(id) =>
      assert toks[1..] == rest;
    case Unary(u, x) =>
      assert toks[0] == TokenOf(u) && toks[1..] == Yield(x) + rest;
      if room > 1 { Reads(x, rest, UNARY_PRIORITY, room - 1); }
      assert room > 1 && Depth(x) < room - 1 ==> Climb(x, rest, UNARY_PRIORITY, room - 2) == Done(x, rest);
    case Binary(op, l, r) =>
      var rest' := [Sym(op)] + (Yield(r) + rest);
      BinaryYield(op, l, r, rest', rest);
      hide Yield, Subexpr;
      Reads(l, rest', limit, room);
      if Depth(l) < room { ReadsOn(l, op, r, rest', rest, limit, room); }
  }

  /** The loop takes an operator and its right operand. */
  lemma {:induction false} ReadsOn(l: Tree, op: BinOp, r: Tree, toks: seq<Token>, rest: seq<Token>, limit: nat,
                                   room: nat)
    requires LeftPriority(op) > limit && Shaped(r) && Above(r, RightPriority(op)) && room > 0
    requires toks != [] && toks[0] == Sym(op) && toks[1..] == Yield(r) + rest
    requires rest != [] && rest[0].Sym? ==> LeftPriority(rest[0].op) <= RightPriority(op) && Closed(r, rest[0].op)
    ensures Climb(l, toks, limit, room - 1) == if 1 + Depth(r) < room
            then Climb(Binary(op, l, r), rest, limit, room - 1) else TooDeep
    decreases r, 1
  {
    hide Yield;
    assert Next(toks, limit) == Some(op);
    if room > 1 {
      Reads(r, rest, RightPriority(op), room - 1);
      assert Depth(r) < room - 1 ==> Climb(r, rest, RightPriority(op), room - 2) == Done(r, rest);
    } else {
      assert Subexpr(toks[1..], RightPriority(op), 0) == TooDeep;
    }
  }

  /** `subexpr` gives a tree exactly if the tokens begin with an allowed one that ends before an operator it must
      leave, and calls are not nested too deeply; then it gives that tree. */
  lemma SubexprExact(toks: seq<Token>, limit: nat, room: nat, t: Tree, rest: seq<Token>)
    ensures Subexpr(toks, limit, room) == Done(t, rest) <==> Built(toks, limit, t, rest) && Depth(t) < room
  {
    SubexprBuilds(toks, limit, room);
    if Built(toks, limit, t, rest) && Depth(t) < room { Reads(t, rest, limit, room); }
  }

  /** It fails for its depth exactly when a deeper nesting is the only obstacle. */
  lemma TooDeepExactly(toks: seq<Token>, limit: nat, room: nat, t: Tree, rest: seq<Token>)
    requires Built(toks, limit, t, rest) && Depth(t) >= room
    ensures Subexpr(toks, limit, room) == TooDeep
  {
    if room > 0 { Reads(t, rest, limit, room); }
  }

  // ---------------------------------------------------------------- the order of the manual

  /** The binary operators from the loosest to the tightest; the empty place is that of the unary operators. */
  const PRECEDENCE: seq<set<BinOp>> :=
    [{Or}, {And}, {Lt, Gt, Le, Ge, Ne, Eq}, {Concat}, {Add, Sub}, {Mul, Div, Mod}, {}, {Pow}]

  const UNARY_PLACE := 6

  predicate RightAssociative(op: BinOp) { op.Pow? || op.Concat? }

  /** `op` stands at place `i` of the order. */
  predicate Stands(op: BinOp, i: nat) { i < |PRECEDENCE| && op in PRECEDENCE[i] }

  ghost predicate Looser(op: BinOp, op': BinOp) {
    exists i: nat, j: nat :: i < j && Stands(op, i) && Stands(op', j)
  }

  ghost predicate LooserThanUnary(op: BinOp) { exists i: nat :: i < UNARY_PLACE && Stands(op, i) }

  /** Of `a op b op' c`, `op` is to be taken first. */
  ghost predicate First(op: BinOp, op': BinOp) {
    Looser(op', op) || (!Looser(op, op') && !RightAssociative(op))
  }

  /** `op` after the tree leaves every operand at its right edge to the tree. */
  ghost predicate Keeps(t: Tree, op: BinOp) {
    match t
    case Leaf(_) => true
    case Unary(_, x) => LooserThanUnary(op) && Keeps(x, op)
    case Binary(o, _, r) => First(o, op) && Keeps(r, op)
  }

  /** `op` before the tree takes no operand at its left edge out of the tree. */
  ghost predicate Resists(t: Tree, op: BinOp) { t.Binary? ==> !First(op, t.op) && Resists(t.l, op) }

  ghost predicate ResistsUnary(t: Tree) { t.Binary? ==> !LooserThanUnary(t.op) && ResistsUnary(t.l) }

  /** The trees that the order of the operators allows. */
  ghost predicate Allowed(t: Tree) {
    match t
    case Leaf(_) => true
    case Unary(_, x) => ResistsUnary(x) && Allowed(x)
    case Binary(op, l, r) => Keeps(l, op) && Allowed(l) && Resists(r, op) && Allowed(r)
  }

  /** The place of an operator in the order. */
  function Place(op: BinOp): nat {
    match op
    case Or => 0
    case And => 1
    case Lt => 2 case Gt => 2 case Le => 2 case Ge => 2 case Ne => 2 case Eq => 2
    case Concat => 3
    case Add => 4 case Sub => 4
    case Mul => 5 case Div => 5 case Mod => 5
    case Pow => 7
  }

  lemma PlaceIs(op: BinOp, i: nat)
    ensures Stands(op, i) <==> i == Place(op)
  {
    if i < |PRECEDENCE| {
      match i
      case 0 => case 1 => case 2 => case 3 => case 4 => case 5 => case 6 => case _ =>
    }
  }

  lemma LooserIs(op: BinOp, op': BinOp)
    ensures Looser(op, op') <==> Place(op) < Place(op')
    ensures LooserThanUnary(op) <==> Place(op) < UNARY_PLACE
  {
    hide Stands, Place;
    forall i: nat, o: BinOp ensures Stands(o, i) <==> i == Place(o) { PlaceIs(o, i); }
    assert Stands(op, Place(op)) && Stands(op', Place(op'));
  }

  /** The priorities are in this order. */
  lemma PrioritiesAgree(op: BinOp, op': BinOp)
    ensures First(op, op') <==> LeftPriority(op') <= RightPriority(op)
    ensures LooserThanUnary(op) <==> LeftPriority(op) <= UNARY_PRIORITY
  {
    LooserIs(op, op');
    LooserIs(op', op);
    hide Looser, LooserThanUnary;
  }

  lemma {:induction false} KeepsIsClosed(t: Tree, op: BinOp)
    ensures Keeps(t, op) <==> Closed(t, op)
  {
    hide First, LooserThanUnary, LeftPriority, RightPriority;
    match t
    case Leaf(_) =>
    case Unary(_, x) => PrioritiesAgree(op, op); KeepsIsClosed(x, op);
    case Binary(o, _, r) => PrioritiesAgree(o, op); KeepsIsClosed(r, op);
  }

  lemma {:induction false} ResistsIsAbove(t: Tree, op: BinOp)
    ensures Resists(t, op) <==> Above(t, RightPriority(op))
    ensures ResistsUnary(t) <==> Above(t, UNARY_PRIORITY)
  {
    hide First, LooserThanUnary, LeftPriority, RightPriority;
    if t.Binary? {
      PrioritiesAgree(op, t.op);
      PrioritiesAgree(t.op, op);
      ResistsIsAbove(t.l, op);
    }
  }

  /** So the priorities give each operator the operands that the order gives it. */
  lemma {:induction false} AllowedIsShaped(t: Tree)
    ensures Allowed(t) <==> Shaped(t)
  {
    match t
    case Leaf(_) =>
    case Unary(_, x) => ResistsIsAbove(x, Or); AllowedIsShaped(x);
    case Binary(op, l, r) =>
      KeepsIsClosed(l, op);
      ResistsIsAbove(r, op);
      AllowedIsShaped(l);
      AllowedIsShaped(r);
  }

  /** No binary operator follows. */
  predicate Ends(rest: seq<Token>) { rest == [] || !rest[0].Sym? }

  /** Reading an expression gives a tree exactly if the tokens begin with those of an allowed one, no binary operator
      follows, and calls are not nested too deeply. */
  lemma ExprExact(toks: seq<Token>, room: nat, t: Tree, rest: seq<Token>)
    ensures Subexpr(toks, 0, room) == Done(t, rest) <==>
              toks == Yield(t) + rest && Allowed(t) && Depth(t) < room && Ends(rest)
  {
    SubexprExact(toks, 0, room, t, rest);
    AllowedIsShaped(t);
    AboveZero(t);
    hide Yield, Subexpr, Allowed, Shaped, Closed;
  }

  /** The order leaves one tree for a sequence of tokens. */
  lemma OneTree(t: Tree, t': Tree)
    requires Allowed(t) && Allowed(t') && Yield(t) == Yield(t')
    ensures t == t'
  {
    var room := 1 + Depth(t) + Depth(t');
    ReadsWhole(t, room);
    ReadsWhole(t', room);
  }

  lemma {:induction false} AboveZero(t: Tree)
    ensures Above(t, 0)
  {
    if t.Binary? { AboveZero(t.l); }
  }

  // ---------------------------------------------------------------- operators in a row

  /** What `subexpr` makes of all the tokens of an allowed tree. */
  lemma ReadsWhole(t: Tree, room: nat)
    requires Allowed(t)
    ensures Subexpr(Yield(t), 0, room) == if Depth(t) < room then Done(t, []) else TooDeep
  {
    AllowedIsShaped(t);
    AboveZero(t);
    assert Yield(t) + [] == Yield(t);
    if room > 0 { Reads(t, [], 0, room); }
  }

  /** The two trees of two operators in a row. */
  function RightTree(op: BinOp, op': BinOp, l: Tree, m: Tree, r: Tree): Tree { Binary(op, l, Binary(op', m, r)) }

  function LeftTree(op: BinOp, op': BinOp, l: Tree, m: Tree, r: Tree): Tree { Binary(op', Binary(op, l, m), r) }

  /** `t` is what is read, or the nesting is too deep for it. */
  ghost predicate IsRead(toks: seq<Token>, t: Tree) {
    forall room: nat :: Subexpr(toks, 0, room) == if Depth(t) < room then Done(t, []) else TooDeep
  }

  function InRow(op: BinOp, op': BinOp, l: Tree, m: Tree, r: Tree): seq<Token> {
    Yield(l) + [Sym(op)] + Yield(m) + [Sym(op')] + Yield(r)
  }

  /** Two operators in a row, whatever their three operands: one of the two trees is allowed, and it is read. */
  lemma InARow(op: BinOp, op': BinOp, l: Tree, m: Tree, r: Tree)
    requires Allowed(Binary(op, l, m)) && Allowed(Binary(op', m, r))
    ensures Allowed(LeftTree(op, op', l, m, r)) <==> First(op, op')
    ensures Allowed(RightTree(op, op', l, m, r)) <==> !First(op, op')
    ensures IsRead(InRow(op, op', l, m, r),
                   if First(op, op') then LeftTree(op, op', l, m, r) else RightTree(op, op', l, m, r))
  {
    var t := if First(op, op') then LeftTree(op, op', l, m, r) else RightTree(op, op', l, m, r);
    assert Yield(RightTree(op, op', l, m, r)) == InRow(op, op', l, m, r);
    assert Yield(LeftTree(op, op', l, m, r)) == InRow(op, op', l, m, r);
    assert Allowed(t);
    hide Subexpr, Yield, Allowed, First;
    forall room: nat
      ensures Subexpr(InRow(op, op', l, m, r), 0, room) == if Depth(t) < room then Done(t, []) else TooDeep
    {
      ReadsWhole(t, room);
    }
  }

  /** Of two operators in a row the tighter takes the operand between them, on whichever side it stands, and the
      other tree is not allowed. */
  lemma TighterTakes(op: BinOp, op': BinOp, l: Tree, m: Tree, r: Tree)
    requires Looser(op, op')
    ensures Allowed(Binary(op, l, m)) && Allowed(Binary(op', m, r)) ==>
              && IsRead(InRow(op, op', l, m, r), RightTree(op, op', l, m, r))
              && Allowed(RightTree(op, op', l, m, r)) && !Allowed(LeftTree(op, op', l, m, r))
    ensures Allowed(Binary(op', l, m)) && Allowed(Binary(op, m, r)) ==>
              && IsRead(InRow(op', op, l, m, r), LeftTree(op', op, l, m, r))
              && Allowed(LeftTree(op', op, l, m, r)) && !Allowed(RightTree(op', op, l, m, r))
  {
    LooserIs(op, op');
    LooserIs(op', op);
    assert !First(op, op') && First(op', op);
    hide Allowed, IsRead, InRow, First, Looser, LeftTree, RightTree;
    if Allowed(Binary(op, l, m)) && Allowed(Binary(op', m, r)) { InARow(op, op', l, m, r); }
    if Allowed(Binary(op', l, m)) && Allowed(Binary(op, m, r)) { InARow(op', op, l, m, r); }
  }

  /** Of two operators of one place in the order the second is taken first for `^` and `..`, and the first for all
      others; the other tree is not allowed. */
  lemma Associates(op: BinOp, op': BinOp, l: Tree, m: Tree, r: Tree)
    requires !Looser(op, op') && !Looser(op', op) && Allowed(Binary(op, l, m)) && Allowed(Binary(op', m, r))
    ensures var right, left := RightTree(op, op', l, m, r), LeftTree(op, op', l, m, r);
            && (Allowed(right) <==> RightAssociative(op)) && (Allowed(left) <==> !RightAssociative(op))
            && IsRead(InRow(op, op', l, m, r), if RightAssociative(op) then right else left)
  {
    assert First(op, op') <==> !RightAssociative(op);
    hide Allowed, IsRead, InRow, First, Looser;
    InARow(op, op', l, m, r);
  }

  /** A unary operator takes a following `^` into its operand, and no other operator. */
  lemma UnaryBinds(u: UnOp, op: BinOp, x: Tree, r: Tree)
    requires Allowed(Unary(u, x)) && Allowed(Binary(op, x, r))
    ensures var inside, outside := Unary(u, Binary(op, x, r)), Binary(op, Unary(u, x), r);
            && (Allowed(inside) <==> op.Pow?) && (Allowed(outside) <==> !op.Pow?)
            && IsRead([TokenOf(u)] + Yield(x) + [Sym(op)] + Yield(r), if op.Pow? then inside else outside)
  {
    var toks := [TokenOf(u)] + Yield(x) + [Sym(op)] + Yield(r);
    var inside, outside := Unary(u, Binary(op, x, r)), Binary(op, Unary(u, x), r);
    var t := if op.Pow? then inside else outside;
    UnaryYields(u, op, x, r);
    UnaryAllows(u, op, x, r);
    hide Subexpr, Yield, Allowed;
    forall room: nat ensures Subexpr(toks, 0, room) == if Depth(t) < room then Done(t, []) else TooDeep {
      ReadsWhole(t, room);
    }
  }

  lemma UnaryYields(u: UnOp, op: BinOp, x: Tree, r: Tree)
    ensures var toks := [TokenOf(u)] + Yield(x) + [Sym(op)] + Yield(r);
            Yield(Unary(u, Binary(op, x, r))) == toks && Yield(Binary(op, Unary(u, x), r)) == toks
  {
  }

  lemma UnaryAllows(u: UnOp, op: BinOp, x: Tree, r: Tree)
    requires Allowed(Unary(u, x)) && Allowed(Binary(op, x, r))
    ensures Allowed(Unary(u, Binary(op, x, r))) <==> op.Pow?
    ensures Allowed(Binary(op, Unary(u, x), r)) <==> !op.Pow?
  {
    LooserIs(op, op);
    hide Looser, LooserThanUnary, First;
  }

  // ---------------------------------------------------------------- the lexer moves on

  datatype Error = UnexpectedSymbol | TooManyLevels

  /** `LexState`, and the count of nested C calls. */
  class Parser {
    var toks: seq<Token>
    var nCcalls: nat

    constructor (toks: seq<Token>)
      ensures this.toks == toks && nCcalls == 0
    {
      this.toks, nCcalls := toks, 0;
    }

    ghost function Room(): nat reads this { if nCcalls <= LUAI_MAXCCALLS then LUAI_MAXCCALLS - nCcalls else 0 }

    /** What a call that began with `toks0` has brought about. */
    ghost predicate Ended(p: Parsed, t: Option<Tree>, e: Error)
      reads this
    {
      match p
      case Done(t', rest) => t == Some(t') && toks == rest
      case Unexpected => t.None? && e == UnexpectedSymbol
      case TooDeep => t.None? && e == TooManyLevels
    }

    /** `simpleexp` */
    method SimpleExp() returns (t: Option<Tree>)
      modifies this`toks
      ensures t == if old(toks) != [] && old(toks)[0].Simple? then Some(Leaf(old(toks)[0].id)) else None
      ensures toks == if t.Some? then old(toks)[1..] else old(toks)
    {
      if toks == [] || !toks[0].Simple? { return None; }
      t := Some(Leaf(toks[0].id));
      toks := toks[1..];
    }

    /** `subexpr`. After an error nothing is promised about the state, because it is not used any more. */
    method SubExpr(limit: nat) returns (t: Option<Tree>, e: Error)
      modifies this
      ensures Ended(Subexpr(old(toks), limit, old(Room())), t, e)
      ensures t.Some? ==>
                nCcalls == old(nCcalls) && Built(old(toks), limit, t.value, toks) && Depth(t.value) < old(Room())
      decreases |toks|
    {
      ghost var toks0, room := toks, Room();
      SubexprBuilds(toks0, limit, room);
      e := UnexpectedSymbol;
      nCcalls := nCcalls + 1;
      if nCcalls > LUAI_MAXCCALLS { return None, TooManyLevels; }
      var u := if toks == [] then None else UnOpOf(toks[0]);
      if u.Some? {
        toks := toks[1..];
        t, e := SubExpr(UNARY_PRIORITY);
        if t.None? { return; }
        t := Some(Unary(u.value, t.value));
      } else {
        t := SimpleExp();
        if t.None? { return; }
      }
      while Next(toks, limit).Some?
        invariant t.Some? && nCcalls == old(nCcalls) + 1 <= LUAI_MAXCCALLS && |toks| < |toks0| && toks0 == old(toks)
        invariant Subexpr(toks0, limit, room) == Climb(t.value, toks, limit, room - 1)
        decreases |toks|
      {
        var op := Next(toks, limit).value;
        toks := toks[1..];
        var t2;
        t2, e := SubExpr(RightPriority(op));
        if t2.None? { return None, e; }
        t := Some(Binary(op, t.value, t2.value));
      }
      nCcalls := nCcalls - 1;
    }

    /** `expr` */
    method Expr() returns (t: Option<Tree>, e: Error)
      modifies this
      ensures t.Some? ==> old(toks) == Yield(t.value) + toks && Allowed(t.value) && Ends(toks)
      ensures t.None? ==> forall t', rest ::
                Allowed(t') && old(toks) == Yield(t') + rest && Ends(rest) ==>
                  e == TooManyLevels && Depth(t') >= old(Room())
    {
      ghost var toks0, room := toks, Room();
      t, e := SubExpr(0);
      if t.Some? {
        AllowedIsShaped(t.value);
        SubexprExact(toks0, 0, room, t.value, toks);
        ExprExact(toks0, room, t.value, toks);
      }
      hide Allowed, Yield;
      forall t', rest |
        t.None? && Allowed(t') && toks0 == Yield(t') + rest && Ends(rest)
        ensures e == TooManyLevels && Depth(t') >= room
      {
        ExprFails(toks0, room, t', rest);
      }
    }
  }

  lemma ExprFails(toks: seq<Token>, room: nat, t: Tree, rest: seq<Token>)
    requires Allowed(t) && toks == Yield(t) + rest && Ends(rest)
    ensures Subexpr(toks, 0, room) == if Depth(t) < room then Done(t, rest) else TooDeep
  {
    AllowedIsShaped(t);
    AboveZero(t);
    hide Yield, Allowed, Shaped, Subexpr;
    if Depth(t) < room { SubexprExact(toks, 0, room, t, rest); } else { TooDeepExactly(toks, 0, room, t, rest); }
  }
}
