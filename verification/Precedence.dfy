/** How a sequence of operands and operators is grouped (subexpr and its table of
    priorities in src/lparser.c). */
module Precedence {
  import opened LuaValues
  import opened ExprMeaning
  import opened GeneratorSteps
  import opened ExprRules
  import CodeMachine
  import opened CodeGenerator

  datatype Sym =
    | Plus | Dash | Star | Percent | Caret | Slash | DoubleSlash | Ampersand | Bar | Tilde | ShiftLeft | ShiftRight
    | Dots | EqEq | Less | LessEq | TildeEq | Greater | GreaterEq | KwAnd | KwOr | KwNot | Hash

  /** `Simple` is an operand: a constant or a local. */
  datatype Token = Simple(e: Expr) | Op(sym: Sym) | Open | Close

  datatype BinOp =
    | Add | Sub | Mul | Mod | Pow | Div | IDiv | BAnd | BOr | BXor | Shl | Shr | Concat
    | Eq | Lt | Le | Ne | Gt | Ge | And | Or

  datatype UnOp = Minus | BNot | Not | Len

  datatype Tree = Leaf(e: Expr) | Paren(t: Tree) | Unary(u: UnOp, t: Tree) | Binary(op: BinOp, l: Tree, r: Tree)

  const UNARY_PRIORITY: nat := 12

  function LeftPriority(op: BinOp): nat {
    match op
    case Add => 10 case Sub => 10
    case Mul => 11 case Mod => 11
    case Pow => 14
    case Div => 11 case IDiv => 11
    case BAnd => 6 case BOr => 4 case BXor => 5
    case Shl => 7 case Shr => 7
    case Concat => 9
    case Eq => 3 case Lt => 3 case Le => 3
    case Ne => 3 case Gt => 3 case Ge => 3
    case And => 2 case Or => 1
  }

  function RightPriority(op: BinOp): nat {
    if op.Pow? then 13 else if op.Concat? then 8 else LeftPriority(op)
  }

  /** getunopr */
  function GetUnOpr(t: Token): Option<UnOp> {
    if !t.Op? then None
    else match t.sym
      case KwNot => Some(Not)
      case Dash => Some(Minus)
      case Tilde => Some(BNot)
      case Hash => Some(Len)
      case _ => None
  }

  /** getbinopr */
  function GetBinOpr(t: Token): Option<BinOp> {
    if !t.Op? then None
    else match t.sym
      case Plus => Some(Add)
      case Dash => Some(Sub)
      case Star => Some(Mul)
      case Percent => Some(Mod)
      case Caret => Some(Pow)
      case Slash => Some(Div)
      case DoubleSlash => Some(IDiv)
      case Ampersand => Some(BAnd)
      case Bar => Some(BOr)
      case Tilde => Some(BXor)
      case ShiftLeft => Some(Shl)
      case ShiftRight => Some(Shr)
      case Dots => Some(Concat)
      case EqEq => Some(Eq)
      case Less => Some(Lt)
      case LessEq => Some(Le)
      case TildeEq => Some(Ne)
      case Greater => Some(Gt)
      case GreaterEq => Some(Ge)
      case KwAnd => Some(And)
      case KwOr => Some(Or)
      case _ => None
  }

  function BinSym(op: BinOp): (s: Sym)
    ensures GetBinOpr(Op(s)) == Some(op)
  {
    match op
    case Add => Plus
    case Sub => Dash
    case Mul => Star
    case Mod => Percent
    case Pow => Caret
    case Div => Slash
    case IDiv => DoubleSlash
    case BAnd => Ampersand
    case BOr => Bar
    case BXor => Tilde
    case Shl => ShiftLeft
    case Shr => ShiftRight
    case Concat => Dots
    case Eq => EqEq
    case Lt => Less
    case Le => LessEq
    case Ne => TildeEq
    case Gt => Greater
    case Ge => GreaterEq
    case And => KwAnd
    case Or => KwOr
  }

  function UnSym(u: UnOp): (s: Sym)
    ensures GetUnOpr(Op(s)) == Some(u)
  {
    match u
    case Minus => Dash
    case BNot => Tilde
    case Not => KwNot
    case Len => Hash
  }

  // ---- What the table prescribes ----

  function Tokens(t: Tree): (ts: seq<Token>)
    ensures ts != []
  {
    match t
    case Leaf(e) => [Simple(e)]
    case Paren(x) => [Open] + Tokens(x) + [Close]
    case Unary(u, x) => [Op(UnSym(u))] + Tokens(x)
    case Binary(op, l, r) => Tokens(l) + [Op(BinSym(op))] + Tokens(r)
  }

  /** Every binary operator on the left edge has a left priority above the limit. */
  predicate LeftAbove(t: Tree, limit: nat) {
    t.Binary? ==> LeftPriority(t.op) > limit && LeftAbove(t.l, limit)
  }

  /** Every operator on the right edge holds its right operand against one of left
      priority `p` that follows. */
  predicate RightHolds(t: Tree, p: nat) {
    match t
    case Leaf(_) => true
    case Paren(_) => true
    case Unary(_, x) => p <= UNARY_PRIORITY && RightHolds(x, p)
    case Binary(op, _, r) => p <= RightPriority(op) && RightHolds(r, p)
  }

  /** The tree is grouped as the table of priorities says. */
  predicate Grouped(t: Tree) {
    match t
    case Leaf(_) => true
    case Paren(x) => Grouped(x)
    case Unary(_, x) => Grouped(x) && LeftAbove(x, UNARY_PRIORITY)
    case Binary(op, l, r) =>
      Grouped(l) && Grouped(r) && RightHolds(l, LeftPriority(op)) && LeftAbove(r, RightPriority(op))
  }

  /** The left priority of the operator that comes next, 0 if there is none. */
  function Next(ts: seq<Token>): nat {
    if ts != [] && GetBinOpr(ts[0]).Some? then LeftPriority(GetBinOpr(ts[0]).value) else 0
  }

  // ---- subexpr ----

  /** The tree that subexpr builds, and what it leaves; None is a syntax error. */
  function Subexpr(ts: seq<Token>, limit: nat): (r: Option<(Tree, seq<Token>)>)
    ensures r.Some? ==> |r.value.1| < |ts|
    decreases |ts|, 1
  {
    if ts == [] then None
    else if GetUnOpr(ts[0]).Some? then
      var x := Subexpr(ts[1..], UNARY_PRIORITY);
      if x.None? then None else Operators(Unary(GetUnOpr(ts[0]).value, x.value.0), x.value.1, limit)
    else if ts[0].Simple? then Operators(Leaf(ts[0].e), ts[1..], limit)
    else if ts[0].Open? then
      var x := Subexpr(ts[1..], 0);
      if x.None? || x.value.1 == [] || !x.value.1[0].Close? then None
      else Operators(Paren(x.value.0), x.value.1[1..], limit)
    else None
  }

  /** Binary operators of a left priority above the limit, with their operands. */
  function Operators(l: Tree, ts: seq<Token>, limit: nat): (r: Option<(Tree, seq<Token>)>)
    ensures r.Some? ==> |r.value.1| <= |ts|
    decreases |ts|, 0
  {
    if Next(ts) > limit then
      var op := GetBinOpr(ts[0]).value;
      var x := Subexpr(ts[1..], RightPriority(op));
      if x.None? then None else Operators(Binary(op, l, x.value.0), x.value.1, limit)
    else Some((l, ts))
  }

  /** Tokens of a tree that is grouped as it should be are read as that tree. */
  lemma {:induction false} ReadsTree(t: Tree, rest: seq<Token>, limit: nat)
    requires Grouped(t) && LeftAbove(t, limit) && RightHolds(t, Next(rest))
    ensures Subexpr(Tokens(t) + rest, limit) == Operators(t, rest, limit)
    decreases t
  {
    match t
    case Leaf(e) =>
      assert (Tokens(t) + rest)[1..] == rest;
    case Paren(x) =>
      AboveZero(x);
      HoldsZero(x);
      ReadsTree(x, [Close] + rest, 0);
      ReadsParen(x, rest, limit);
    case Unary(u, x) =>
      assert (Tokens(t) + rest)[1..] == Tokens(x) + rest;
      ReadsTree(x, rest, UNARY_PRIORITY);
    case Binary(op, l, r) =>
      ReadsTree(l, [Op(BinSym(op))] + (Tokens(r) + rest), limit);
      ReadsTree(r, rest, RightPriority(op));
      ReadsBinary(op, l, r, rest, limit);
      Regrouped(Tokens(l), [Op(BinSym(op))], Tokens(r), rest);
  }

  lemma Regrouped<T>(a: seq<T>, b: seq<T>, c: seq<T>, d: seq<T>)
    ensures a + b + c + d == a + (b + (c + d))
  {
  }

  lemma ReadsParen(x: Tree, rest: seq<Token>, limit: nat)
    requires Subexpr(Tokens(x) + ([Close] + rest), 0) == Operators(x, [Close] + rest, 0)
    ensures Subexpr(Tokens(Paren(x)) + rest, limit) == Operators(Paren(x), rest, limit)
  {
    var more := [Close] + rest;
    assert (Tokens(Paren(x)) + rest)[1..] == Tokens(x) + more && more[1..] == rest;
  }

  lemma ReadsBinary(op: BinOp, l: Tree, r: Tree, rest: seq<Token>, limit: nat)
    requires Subexpr(Tokens(r) + rest, RightPriority(op)) == Operators(r, rest, RightPriority(op))
    requires LeftPriority(op) > limit && Next(rest) <= RightPriority(op)
    ensures Operators(l, [Op(BinSym(op))] + (Tokens(r) + rest), limit) == Operators(Binary(op, l, r), rest, limit)
  {
    OperatorTaken(op, l, Tokens(r) + rest, limit);
    OperatorLeft(r, rest, RightPriority(op));
  }

  lemma OperatorTaken(op: BinOp, l: Tree, ts: seq<Token>, limit: nat)
    requires LeftPriority(op) > limit
    ensures var x := Subexpr(ts, RightPriority(op));
            Operators(l, [Op(BinSym(op))] + ts, limit) ==
            if x.None? then None else Operators(Binary(op, l, x.value.0), x.value.1, limit)
  {
    var more := [Op(BinSym(op))] + ts;
    assert more[1..] == ts && GetBinOpr(more[0]) == Some(op);
  }

  lemma OperatorLeft(l: Tree, ts: seq<Token>, limit: nat)
    requires Next(ts) <= limit
    ensures Operators(l, ts, limit) == Some((l, ts))
  {
  }

  lemma {:induction false} AboveZero(t: Tree)
    ensures LeftAbove(t, 0)
  {
    if t.Binary? { AboveZero(t.l); }
  }

  lemma {:induction false} HoldsZero(t: Tree)
    ensures RightHolds(t, 0)
  {
    match t
    case Leaf(_) =>
    case Paren(_) =>
    case Unary(_, x) => HoldsZero(x);
    case Binary(_, _, r) => HoldsZero(r);
  }

  /** What has been read so far: a tree as it should be, which the next operator that
      is not read cannot break. */
  predicate ReadSo(t: Tree, ts: seq<Token>, rest: seq<Token>, limit: nat) {
    ts == Tokens(t) + rest && Grouped(t) && LeftAbove(t, limit) && RightHolds(t, Next(rest))
  }

  lemma {:induction false} SubexprGroups(ts: seq<Token>, limit: nat)
    ensures var r := Subexpr(ts, limit);
            r.Some? ==> ReadSo(r.value.0, ts, r.value.1, limit) && Next(r.value.1) <= limit
    decreases |ts|, 1
  {
    if ts != [] && GetUnOpr(ts[0]).Some? {
      var x := Subexpr(ts[1..], UNARY_PRIORITY);
      SubexprGroups(ts[1..], UNARY_PRIORITY);
      if x.Some? {
        var t := Unary(GetUnOpr(ts[0]).value, x.value.0);
        UnaryToken(ts[0]);
        assert ts == Tokens(t) + x.value.1;
        OperatorsGroup(t, ts, x.value.1, limit);
      }
    } else if ts != [] && ts[0].Simple? {
      assert ts == Tokens(Leaf(ts[0].e)) + ts[1..];
      OperatorsGroup(Leaf(ts[0].e), ts, ts[1..], limit);
    } else if ts != [] && ts[0].Open? {
      var x := Subexpr(ts[1..], 0);
      SubexprGroups(ts[1..], 0);
      if x.Some? && x.value.1 != [] && x.value.1[0].Close? {
        var t := Paren(x.value.0);
        assert ts == Tokens(t) + x.value.1[1..];
        OperatorsGroup(t, ts, x.value.1[1..], limit);
      }
    }
  }

  lemma {:induction false} OperatorsGroup(l: Tree, ts: seq<Token>, rest: seq<Token>, limit: nat)
    requires ReadSo(l, ts, rest, limit)
    ensures var r := Operators(l, rest, limit);
            r.Some? ==> ReadSo(r.value.0, ts, r.value.1, limit) && Next(r.value.1) <= limit
    decreases |rest|, 0
  {
    if Next(rest) > limit {
      var op := GetBinOpr(rest[0]).value;
      var x := Subexpr(rest[1..], RightPriority(op));
      SubexprGroups(rest[1..], RightPriority(op));
      if x.Some? {
        BinaryToken(rest[0]);
        assert ts == Tokens(Binary(op, l, x.value.0)) + x.value.1;
        OperatorsGroup(Binary(op, l, x.value.0), ts, x.value.1, limit);
      }
    }
  }

  lemma BinaryToken(t: Token)
    requires GetBinOpr(t).Some?
    ensures t == Op(BinSym(GetBinOpr(t).value))
  {
  }

  lemma UnaryToken(t: Token)
    requires GetUnOpr(t).Some?
    ensures t == Op(UnSym(GetUnOpr(t).value))
  {
  }

  /** subexpr reads a whole sequence as a tree exactly if the tree has these tokens and
      is grouped as the table of priorities says. */
  lemma SubexprExact(ts: seq<Token>, t: Tree)
    ensures Subexpr(ts, 0) == Some((t, [])) <==> Tokens(t) == ts && Grouped(t)
  {
    SubexprGroups(ts, 0);
    assert Tokens(t) + [] == Tokens(t);
    if Tokens(t) == ts && Grouped(t) {
      AboveZero(t);
      HoldsZero(t);
      ReadsTree(t, [], 0);
    }
  }

  /** So there is at most one such tree. */
  lemma GroupingUnique(t: Tree, t': Tree)
    requires Tokens(t) == Tokens(t') && Grouped(t) && Grouped(t')
    ensures t == t'
  {
    SubexprExact(Tokens(t), t);
    SubexprExact(Tokens(t), t');
  }

  // ---- Which operator binds tighter ----

  /** The levels of the binary operators from the loosest to the tightest, as the
      manual of the language lists them; 0 for all other symbols. */
  function Level(s: Sym): nat {
    match s
    case KwOr => 1
    case KwAnd => 2
    case Less => 3 case Greater => 3
    case LessEq => 3 case GreaterEq => 3
    case TildeEq => 3 case EqEq => 3
    case Bar => 4
    case Tilde => 5
    case Ampersand => 6
    case ShiftLeft => 7 case ShiftRight => 7
    case Dots => 8
    case Plus => 9 case Dash => 9
    case Star => 10 case Slash => 10
    case DoubleSlash => 10 case Percent => 10
    case Caret => 12
    case KwNot => 0 case Hash => 0
  }

  /** The unary operators are looser than `^` only. */
  const UNARY_LEVEL: nat := 11

  /** Of two operators around an operand the first one takes it. */
  predicate FirstTakes(s1: Sym, s2: Sym) {
    Level(s1) > Level(s2) || (Level(s1) == Level(s2) && s1 != Dots && s1 != Caret)
  }

  /** The two symbols stand for binary operators, and the priorities that subexpr
      compares decide as the levels do. */
  lemma LevelsDecide(s1: Sym, s2: Sym)
    requires Level(s1) > 0 && Level(s2) > 0
    ensures GetBinOpr(Op(s1)).Some? && GetBinOpr(Op(s2)).Some?
    ensures BinSym(GetBinOpr(Op(s1)).value) == s1 && BinSym(GetBinOpr(Op(s2)).value) == s2
    ensures var o1, o2 := GetBinOpr(Op(s1)).value, GetBinOpr(Op(s2)).value;
            (LeftPriority(o2) <= RightPriority(o1)) == FirstTakes(s1, s2)
    ensures (LeftPriority(GetBinOpr(Op(s1)).value) > UNARY_PRIORITY) == (Level(s1) > UNARY_LEVEL)
  {
    PrioritiesOf(s1);
    PrioritiesOf(s2);
  }

  lemma PrioritiesOf(s: Sym)
    requires Level(s) > 0
    ensures GetBinOpr(Op(s)).Some? && BinSym(GetBinOpr(Op(s)).value) == s
    ensures var op, n := GetBinOpr(Op(s)).value, Level(s);
            LeftPriority(op) == (if n <= 7 then n else if n <= 10 then n + 1 else n + 2) &&
            RightPriority(op) == (if n == 8 || n == 12 then LeftPriority(op) - 1 else LeftPriority(op))
    ensures (Level(s) == 8 <==> s == Dots) && (Level(s) == 12 <==> s == Caret) && Level(s) <= 12 && Level(s) != 11
  {
  }

  /** An operand of an operator: a constant, a local, or an expression in parentheses. */
  predicate IsOperand(t: Tree) {
    t.Leaf? || (t.Paren? && Subexpr(Tokens(t.t), 0) == Some((t.t, [])))
  }

  lemma OperandGrouped(t: Tree)
    requires IsOperand(t)
    ensures Grouped(t) && forall p: nat :: LeftAbove(t, p) && RightHolds(t, p)
  {
    if t.Paren? { SubexprExact(Tokens(t.t), t.t); }
  }

  /** `a s1 b s2 c`: the operator of the tighter level takes `b`; of two on the same
      level the first one does, but for `..` and `^`, where the second one does. */
  lemma TwoOperators(a: Tree, s1: Sym, b: Tree, s2: Sym, c: Tree)
    requires IsOperand(a) && IsOperand(b) && IsOperand(c) && Level(s1) > 0 && Level(s2) > 0
    ensures GetBinOpr(Op(s1)).Some? && GetBinOpr(Op(s2)).Some?
    ensures var o1, o2 := GetBinOpr(Op(s1)).value, GetBinOpr(Op(s2)).value;
            Subexpr(Tokens(a) + [Op(s1)] + Tokens(b) + [Op(s2)] + Tokens(c), 0) ==
            Some((if Level(s1) > Level(s2) || (Level(s1) == Level(s2) && s1 != Dots && s1 != Caret)
                  then Binary(o2, Binary(o1, a, b), c) else Binary(o1, a, Binary(o2, b, c)), []))
  {
    LevelsDecide(s1, s2);
    var o1, o2 := GetBinOpr(Op(s1)).value, GetBinOpr(Op(s2)).value;
    var ts := Tokens(a) + [Op(s1)] + Tokens(b) + [Op(s2)] + Tokens(c);
    TokensOfTwo(o1, o2, a, b, c);
    GroupingOfTwo(o1, o2, a, b, c);
    SubexprExact(ts, Binary(o2, Binary(o1, a, b), c));
    SubexprExact(ts, Binary(o1, a, Binary(o2, b, c)));
  }

  lemma GroupingOfTwo(o1: BinOp, o2: BinOp, a: Tree, b: Tree, c: Tree)
    requires IsOperand(a) && IsOperand(b) && IsOperand(c)
    ensures Grouped(Binary(o2, Binary(o1, a, b), c)) <==> LeftPriority(o2) <= RightPriority(o1)
    ensures Grouped(Binary(o1, a, Binary(o2, b, c))) <==> LeftPriority(o2) > RightPriority(o1)
  {
    OperandGrouped(a);
    OperandGrouped(b);
    OperandGrouped(c);
    SimpleGrouping(o1, a, b, LeftPriority(o2));
    SimpleGrouping(o2, b, c, RightPriority(o1));
  }

  lemma SimpleGrouping(op: BinOp, a: Tree, b: Tree, p: nat)
    requires Grouped(a) && Grouped(b) && forall p: nat :: LeftAbove(a, p) && RightHolds(a, p)
    requires forall p: nat :: LeftAbove(b, p) && RightHolds(b, p)
    ensures Grouped(Binary(op, a, b))
    ensures RightHolds(Binary(op, a, b), p) <==> p <= RightPriority(op)
    ensures LeftAbove(Binary(op, a, b), p) <==> LeftPriority(op) > p
  {
  }

  lemma TokensOfTwo(o1: BinOp, o2: BinOp, a: Tree, b: Tree, c: Tree)
    ensures var ts := Tokens(a) + [Op(BinSym(o1))] + Tokens(b) + [Op(BinSym(o2))] + Tokens(c);
            Tokens(Binary(o2, Binary(o1, a, b), c)) == ts && Tokens(Binary(o1, a, Binary(o2, b, c))) == ts
  {
    assert Tokens(Binary(o1, a, Binary(o2, b, c))) ==
           Tokens(a) + [Op(BinSym(o1))] + (Tokens(b) + [Op(BinSym(o2))] + Tokens(c));
  }

  /** `u a s b`: only `^` takes the operand away from a unary operator in front of it;
      a unary operator behind a binary one takes its operand in any case. */
  lemma UnaryAndBinary(u: UnOp, a: Tree, s: Sym, b: Tree)
    requires IsOperand(a) && IsOperand(b) && Level(s) > 0
    ensures GetBinOpr(Op(s)).Some?
    ensures var op := GetBinOpr(Op(s)).value;
            Subexpr([Op(UnSym(u))] + Tokens(a) + [Op(s)] + Tokens(b), 0) ==
            Some((if s == Caret then Unary(u, Binary(op, a, b)) else Binary(op, Unary(u, a), b), []))
    ensures var op := GetBinOpr(Op(s)).value;
            Subexpr(Tokens(a) + [Op(s)] + [Op(UnSym(u))] + Tokens(b), 0) == Some((Binary(op, a, Unary(u, b)), []))
  {
    LevelsDecide(s, s);
    OperandGrouped(a);
    OperandGrouped(b);
    var op := GetBinOpr(Op(s)).value;
    var ts, ts' := [Op(UnSym(u))] + Tokens(a) + [Op(s)] + Tokens(b), Tokens(a) + [Op(s)] + [Op(UnSym(u))] + Tokens(b);
    TokensWithUnary(u, a, op, b);
    SubexprExact(ts, Unary(u, Binary(op, a, b)));
    SubexprExact(ts, Binary(op, Unary(u, a), b));
    SubexprExact(ts', Binary(op, a, Unary(u, b)));
  }

  lemma TokensWithUnary(u: UnOp, a: Tree, op: BinOp, b: Tree)
    ensures var ts := [Op(UnSym(u))] + Tokens(a) + [Op(BinSym(op))] + Tokens(b);
            Tokens(Unary(u, Binary(op, a, b))) == ts && Tokens(Binary(op, Unary(u, a), b)) == ts
    ensures Tokens(Binary(op, a, Unary(u, b))) == Tokens(a) + [Op(BinSym(op))] + [Op(UnSym(u))] + Tokens(b)
  {
    assert Tokens(Unary(u, Binary(op, a, b))) == [Op(UnSym(u))] + (Tokens(a) + [Op(BinSym(op))] + Tokens(b));
  }

  // The same for trees of any size.

  /** No operator on the left edge of the tree loses its operand to `s` in front. */
  predicate LeftEdge(s: Sym, t: Tree) {
    t.Binary? ==> !FirstTakes(s, BinSym(t.op)) && LeftEdge(s, t.l)
  }

  /** Only powers on the left edge of the operand of a unary operator. */
  predicate PowersOnEdge(t: Tree) {
    t.Binary? ==> t.op.Pow? && PowersOnEdge(t.l)
  }

  /** No operator on the right edge of the tree loses its operand to `s` behind it. */
  predicate RightEdge(t: Tree, s: Sym) {
    match t
    case Leaf(_) => true
    case Paren(_) => true
    case Unary(_, x) => Level(s) <= UNARY_LEVEL && RightEdge(x, s)
    case Binary(op, _, r) => FirstTakes(BinSym(op), s) && RightEdge(r, s)
  }

  predicate ByLevels(t: Tree) {
    match t
    case Leaf(_) => true
    case Paren(x) => ByLevels(x)
    case Unary(_, x) => ByLevels(x) && PowersOnEdge(x)
    case Binary(op, l, r) => ByLevels(l) && ByLevels(r) && RightEdge(l, BinSym(op)) && LeftEdge(BinSym(op), r)
  }

  lemma OpLevels(op: BinOp)
    ensures Level(BinSym(op)) > 0 && (Level(BinSym(op)) > UNARY_LEVEL <==> op.Pow?)
  {
  }

  lemma {:induction false} LeftEdges(op: BinOp, t: Tree)
    ensures LeftEdge(BinSym(op), t) <==> LeftAbove(t, RightPriority(op))
    ensures PowersOnEdge(t) <==> LeftAbove(t, UNARY_PRIORITY)
  {
    if t.Binary? {
      OpLevels(op);
      OpLevels(t.op);
      LevelsDecide(BinSym(op), BinSym(t.op));
      LevelsDecide(BinSym(t.op), BinSym(op));
      LeftEdges(op, t.l);
    }
  }

  lemma {:induction false} RightEdges(t: Tree, op: BinOp)
    ensures RightEdge(t, BinSym(op)) <==> RightHolds(t, LeftPriority(op))
  {
    OpLevels(op);
    match t
    case Leaf(_) =>
    case Paren(_) =>
    case Unary(_, x) =>
      LevelsDecide(BinSym(op), BinSym(op));
      RightEdges(x, op);
    case Binary(o, _, r) =>
      OpLevels(o);
      LevelsDecide(BinSym(o), BinSym(op));
      RightEdges(r, op);
  }

  /** The trees that subexpr builds are those in which every operand belongs to the
      operator that the levels give it to. */
  lemma {:induction false} GroupedByLevels(t: Tree)
    ensures Grouped(t) <==> ByLevels(t)
  {
    match t
    case Leaf(_) =>
    case Paren(x) => GroupedByLevels(x);
    case Unary(_, x) =>
      GroupedByLevels(x);
      LeftEdges(Pow, x);
    case Binary(op, l, r) =>
      GroupedByLevels(l);
      GroupedByLevels(r);
      RightEdges(l, op);
      LeftEdges(op, r);
  }

  /** The lexical state: the tokens that are still to be read. */
  class LexState {
    const tokens: seq<Token>
    var pos: nat

    constructor (tokens: seq<Token>)
      ensures this.tokens == tokens && pos == 0
    {
      this.tokens, pos := tokens, 0;
    }

    predicate InRange()
      reads this
    {
      pos <= |tokens|
    }

    function Rest(): seq<Token>
      requires InRange()
      reads this
    {
      tokens[pos..]
    }

    /** The operator that comes next, if one does. */
    method BinOprAhead() returns (op: Option<BinOp>)
      requires InRange()
      ensures op == if Rest() == [] then None else GetBinOpr(Rest()[0])
    {
      op := if pos < |tokens| then GetBinOpr(tokens[pos]) else None;
    }

    /** simpleexp, for constants, locals and parentheses */
    method SimpleExp() returns (t: Option<Tree>)
      requires InRange() && Rest() != [] && GetUnOpr(Rest()[0]).None?
      modifies this
      ensures InRange() && (t.Some? ==> |Rest()| < |old(Rest())|)
      ensures forall limit ::
                Subexpr(old(Rest()), limit) == if t.None? then None else Operators(t.value, Rest(), limit)
      decreases |Rest()|, 0
    {
      var token := tokens[pos];
      pos := pos + 1;
      assert Rest() == old(Rest())[1..];
      if token.Simple? {
        t := Some(Leaf(token.e));
      } else if token.Open? {
        var op;
        t, op := SubExpr(0);
        if t.Some? {
          if pos == |tokens| || !tokens[pos].Close? {
            return None;
          }
          ghost var more := Rest();
          pos := pos + 1;
          assert Rest() == more[1..];
          t := Some(Paren(t.value));
        }
      } else {
        t := None;
      }
    }

    /** subexpr: the tree, and the first operator that is not part of it. */
    method SubExpr(limit: nat) returns (t: Option<Tree>, op: Option<BinOp>)
      requires InRange()
      modifies this
      ensures InRange() && Subexpr(old(Rest()), limit) == if t.None? then None else Some((t.value, Rest()))
      ensures t.Some? ==> op == if Rest() == [] then None else GetBinOpr(Rest()[0])
      decreases |Rest()|, 1
    {
      ghost var ts := Rest();
      op := None;
      if pos == |tokens| {
        return None, op;
      }
      var uop := GetUnOpr(tokens[pos]);
      if uop.Some? {
        pos := pos + 1;
        assert Rest() == ts[1..];
        t, op := SubExpr(UNARY_PRIORITY);
        if t.None? {
          return;
        }
        t := Some(Unary(uop.value, t.value));
      } else {
        t := SimpleExp();
        if t.None? {
          return;
        }
      }
      op := BinOprAhead();
      while op.Some? && LeftPriority(op.value) > limit
        invariant InRange() && t.Some? && |Rest()| < |ts|
        invariant op == if Rest() == [] then None else GetBinOpr(Rest()[0])
        invariant Subexpr(ts, limit) == Operators(t.value, Rest(), limit)
        decreases |Rest()|
      {
        ghost var before := Rest();
        pos := pos + 1;
        assert Rest() == before[1..];
        var r, next := SubExpr(RightPriority(op.value));
        if r.None? {
          t := None;
          return;
        }
        t := Some(Binary(op.value, t.value, r.value));
        op := next;
      }
    }
  }

  // ---- From the tokens to the code ----

  /** Expressions that the model of the code generator covers. */
  predicate Covered(t: Tree) {
    match t
    case Leaf(e) => !e.EParen? && !e.ENot? && !e.EAnd? && !e.EOr? && !e.ECompare?
    case Paren(x) => Covered(x)
    case Unary(u, x) => u.Not? && Covered(x)
    case Binary(op, l, r) => (op.And? || op.Or? || IsComparison(op)) && Covered(l) && Covered(r)
  }

  /** Covered are exactly the trees over constants and locals with `and`, `or`, `not` and
      the six comparisons: no other operator occurs in them. */
  lemma {:induction false} CoveredOperators(t: Tree)
    requires forall e :: Leaf(e) in Parts(t) ==> SimpleLeaf(e)
    ensures Covered(t) <==> forall x :: x in Parts(t) ==>
              (x.Unary? ==> x.u == Not) && (x.Binary? ==> x.op in {And, Or, Eq, Lt, Le, Ne, Gt, Ge})
  {
    match t
    case Leaf(_) =>
    case Paren(x) => CoveredOperators(x);
    case Unary(_, x) => CoveredOperators(x);
    case Binary(_, l, r) => CoveredOperators(l); CoveredOperators(r);
  }

  predicate SimpleLeaf(e: Expr) {
    match e
    case ENil => true case ETrue => true case EFalse => true
    case EInt(_) => true case EFlt(_) => true case EStr(_) => true
    case ELocal(_) => true
    case _ => false
  }

  /** A tree and the trees in it. */
  function Parts(t: Tree): (s: set<Tree>)
    ensures t in s
  {
    match t
    case Leaf(_) => {t}
    case Paren(x) => {t} + Parts(x)
    case Unary(_, x) => {t} + Parts(x)
    case Binary(_, l, r) => {t} + Parts(l) + Parts(r)
  }

  predicate IsComparison(op: BinOp) {
    op.Eq? || op.Lt? || op.Le? || op.Ne? || op.Gt? || op.Ge?
  }

  function Comparing(op: BinOp): CompareOp {
    if op.Eq? then OpEq else if op.Lt? then OpLt else if op.Le? then OpLe else if op.Ne? then OpNe
    else if op.Gt? then OpGt else OpGe
  }

  function Meant(t: Tree): Expr
    requires Covered(t)
  {
    match t
    case Leaf(e) => e
    case Paren(x) => EParen(Meant(x))
    case Unary(_, x) => ENot(Meant(x))
    case Binary(op, l, r) =>
      if op.And? then EAnd(Meant(l), Meant(r)) else if op.Or? then EOr(Meant(l), Meant(r))
      else ECompare(Comparing(op), Meant(l), Meant(r))
  }

  /** What finished code leaves for a tree with an operator at its root, given what it
      leaves for the operands. */
  lemma BinaryLeft(op: BinOp, f: Finished, f1: Finished, l: Tree, f2: Finished, r: Tree, regs: CodeMachine.Regs)
    requires Covered(Binary(op, l, r))
    requires CodeForBoth(f, Meant(Binary(op, l, r)), f1, Meant(l), regs)
    requires CodeForBoth(f, Meant(Binary(op, l, r)), f2, Meant(r), regs)
    ensures var v, v1, v2, cmp := Left(f, regs), Left(f1, regs), Left(f2, regs), f.m.cmp;
            match op
            case And => v == if Falsy(v1) then v1 else v2
            case Or => v == if Falsy(v1) then v2 else v1
            case Eq => v == Bool(cmp(CodeMachine.EQ, v1, v2))
            case Lt => v == Bool(cmp(CodeMachine.LT, v1, v2))
            case Le => v == Bool(cmp(CodeMachine.LE, v1, v2))
            case Ne => v == Bool(!cmp(CodeMachine.EQ, v1, v2))
            case Gt => v == Bool(cmp(CodeMachine.LT, v2, v1))
            case Ge => v == Bool(cmp(CodeMachine.LE, v2, v1))
            case _ => false
  {
    LeftIsEval(f, Meant(Binary(op, l, r)), regs);
    LeftIsEval(f1, Meant(l), regs);
    LeftIsEval(f2, Meant(r), regs);
  }

  lemma UnaryLeft(t: Tree, f: Finished, f1: Finished, regs: CodeMachine.Regs)
    requires Covered(t) && (t.Paren? || t.Unary?) && CodeForBoth(f, Meant(t), f1, Meant(t.t), regs)
    ensures t.Paren? ==> Left(f, regs) == Left(f1, regs)
    ensures t.Unary? ==> t.u.Not? && Left(f, regs) == Bool(Falsy(Left(f1, regs)))
  {
    LeftIsEval(f, Meant(t), regs);
    LeftIsEval(f1, Meant(t.t), regs);
  }

  datatype Outcome = Compiled | SyntaxError | NotCovered | TooManyRegisters

  /** Reading an expression and compiling it: the finished code computes the value of
      the one tree that these tokens have by the table of priorities. The calls to the
      code generator come in the order of the tree, which is the order of reading. */
  method CompileTokens(tokens: seq<Token>, fs: FuncState) returns (r: Outcome, ghost tree: Tree)
    requires fs.IsEmpty() && fs.freereg == fs.nactvar
    modifies fs
    ensures r.SyntaxError? <==> forall t :: !(Tokens(t) == tokens && Grouped(t))
    ensures !r.SyntaxError? ==> Tokens(tree) == tokens && Grouped(tree) && (r.NotCovered? <==> !Covered(tree))
    ensures r.TooManyRegisters? <==>
              !r.SyntaxError? && Covered(tree) && !ListFits([Meant(tree)], fs.nactvar, fs.nactvar)
    ensures r.Compiled? ==>
              && CodeMachine.CodeOk(|fs.k|, fs.code, {})
              && forall regs :: Computes(CodeMachine.Machine(fs.k, fs.cmp), fs.code, [Meant(tree)], fs.nactvar, regs)
  {
    var ls := new LexState(tokens);
    assert tokens[0..] == tokens;
    var t, op := ls.SubExpr(0);
    ghost var rest := ls.Rest();
    forall x ensures Tokens(x) == tokens && Grouped(x) <==> Subexpr(tokens, 0) == Some((x, [])) {
      SubexprExact(tokens, x);
    }
    if t.None? || ls.pos < |tokens| {
      return SyntaxError, Leaf(ENil);
    }
    assert rest == [];
    tree := t.value;
    assert Tokens(tree) == tokens && Grouped(tree);
    if !Covered(t.value) {
      return NotCovered, tree;
    }
    if !ListFits([Meant(t.value)], fs.nactvar, fs.nactvar) {
      return TooManyRegisters, tree;
    }
    fs.CompileWhole([Meant(t.value)]);
    r := Compiled;
  }
}
