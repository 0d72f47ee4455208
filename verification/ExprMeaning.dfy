/** Source expressions, the delayed descriptions the code generator keeps of them
    (src/lparser.h), and what it means for code to compute one. */
module ExprMeaning {
  import opened LuaValues
  import opened CodeMachine
  import opened JumpLists

  datatype CompareOp = OpEq | OpLt | OpLe | OpNe | OpGt | OpGe

  datatype Expr =
    | ENil
    | ETrue
    | EFalse
    | EInt(i: int)
    | EFlt(f: Float)
    | EStr(s: string)
    | ELocal(reg: nat)
    | EParen(e: Expr)
    | ENot(e: Expr)
    | EAnd(e1: Expr, e2: Expr)
    | EOr(e1: Expr, e2: Expr)
    | ECompare(op: CompareOp, e1: Expr, e2: Expr)

  type Comparison = (CmpOp, Value, Value) -> bool

  /** The value of an expression, by the rules of the language. */
  function Eval(cmp: Comparison, e: Expr, r: Regs): Value {
    match e
    case ENil => Nil
    case ETrue => Bool(true)
    case EFalse => Bool(false)
    case EInt(i) => Int(i)
    case EFlt(f) => Flt(f)
    case EStr(s) => ShortStr(s)
    case ELocal(reg) => Reg(r, reg)
    case EParen(e1) => Eval(cmp, e1, r)
    case ENot(e1) => Bool(IsFalse(Eval(cmp, e1, r)))
    case EAnd(e1, e2) => if IsFalse(Eval(cmp, e1, r)) then Eval(cmp, e1, r) else Eval(cmp, e2, r)
    case EOr(e1, e2) => if IsFalse(Eval(cmp, e1, r)) then Eval(cmp, e2, r) else Eval(cmp, e1, r)
    case ECompare(op, e1, e2) => Bool(Compare(cmp, op, Eval(cmp, e1, r), Eval(cmp, e2, r)))
  }

  /** a ~= b is not (a == b); a > b is b < a; a >= b is b <= a. */
  predicate Compare(cmp: Comparison, op: CompareOp, a: Value, b: Value) {
    match op
    case OpEq => cmp(EQ, a, b)
    case OpLt => cmp(LT, a, b)
    case OpLe => cmp(LE, a, b)
    case OpNe => !cmp(EQ, a, b)
    case OpGt => cmp(LT, b, a)
    case OpGe => cmp(LE, b, a)
  }

  /** Expressions over the first `nactvar` registers. */
  predicate Closed(e: Expr, nactvar: nat) {
    match e
    case ELocal(reg) => reg < nactvar
    case EParen(e1) => Closed(e1, nactvar)
    case ENot(e1) => Closed(e1, nactvar)
    case EAnd(e1, e2) => Closed(e1, nactvar) && Closed(e2, nactvar)
    case EOr(e1, e2) => Closed(e1, nactvar) && Closed(e2, nactvar)
    case ECompare(_, e1, e2) => Closed(e1, nactvar) && Closed(e2, nactvar)
    case _ => true
  }

  /** Registers that compiling an expression may need at once. */
  function Need(e: Expr): nat {
    match e
    case EParen(e1) => Need(e1)
    case ENot(e1) => Need(e1)
    case EAnd(e1, e2) => Max(Need(e1), Need(e2))
    case EOr(e1, e2) => Max(Need(e1), Need(e2))
    case ECompare(_, e1, e2) => Max(Need(e1), 1 + Need(e2))
    case _ => 1
  }

  function Max(a: nat, b: nat): nat {
    if a < b then b else a
  }

  ghost predicate SameBelow(r: Regs, r': Regs, n: nat) {
    forall i: nat :: i < n ==> Reg(r', i) == Reg(r, i)
  }

  lemma {:induction false} EvalSame(cmp: Comparison, e: Expr, r: Regs, r': Regs, nactvar: nat)
    requires Closed(e, nactvar) && SameBelow(r, r', nactvar)
    ensures Eval(cmp, e, r') == Eval(cmp, e, r)
  {
    match e
    case EParen(e1) => EvalSame(cmp, e1, r, r', nactvar);
    case ENot(e1) => EvalSame(cmp, e1, r, r', nactvar);
    case EAnd(e1, e2) => EvalSame(cmp, e1, r, r', nactvar); EvalSame(cmp, e2, r, r', nactvar);
    case EOr(e1, e2) => EvalSame(cmp, e1, r, r', nactvar); EvalSame(cmp, e2, r, r', nactvar);
    case ECompare(_, e1, e2) => EvalSame(cmp, e1, r, r', nactvar); EvalSame(cmp, e2, r, r', nactvar);
    case _ =>
  }

  /** expkind with the field of `u` that belongs to it. */
  datatype Kind =
    | VNil
    | VTrue
    | VFalse
    | VK(info: nat)
    | VKInt(ival: int)
    | VKFlt(nval: Float)
    | VNonReloc(info: nat)
    | VLocal(info: nat)
    | VJmp(info: nat)
    | VRelocable(info: nat)

  /** `t` and `f` are the patch lists of exits when true and when false. */
  datatype ExpDesc = ExpDesc(k: Kind, t: int, f: int)

  /** How many instructions at the end of the code belong to the main value of an
      expression and are still subject to change. */
  function TailLength(k: Kind): nat {
    if k.VRelocable? then 1 else if k.VJmp? then 2 else 0
  }

  /** The instructions that a delayed main value is waiting in. */
  ghost predicate TailOk(nk: nat, code: seq<Instr>, k: Kind) {
    && TailLength(k) <= |code|
    && (k.VRelocable? ==> k.info == |code| - 1 && code[k.info].Not?)
    && (k.VJmp? ==> k.info == |code| - 1 && code[k.info] == Jmp(NO_JUMP) && code[k.info - 1].Cmp? &&
                    ConstantsIn(nk, code[k.info - 1]))
    && (k.VK? ==> k.info < nk)
  }

  /** Main value of an expression when control falls through to its tail. */
  function MainValue(m: Machine, code: seq<Instr>, k: Kind, r: Regs): Value {
    match k
    case VNil => Nil
    case VTrue => Bool(true)
    case VFalse => Bool(false)
    case VK(i) => Kst(m, i)
    case VKInt(i) => Int(i)
    case VKFlt(f) => Flt(f)
    case VNonReloc(reg) => Reg(r, reg)
    case VLocal(reg) => Reg(r, reg)
    case VJmp(j) => if 0 < j <= |code| && IsTest(code[j - 1]) then Bool(Taken(m, code[j - 1], r)) else Nil
    case VRelocable(i) => if i < |code| && code[i].Not? then Bool(IsFalse(Reg(r, code[i].b))) else Nil
  }

  /** What a jump out of an expression says about its value: a TESTSET has it in a
      register, any other test yields a plain boolean. */
  ghost predicate ExitValue(code: seq<Instr>, j: int, r: Regs, v: Value, truth: bool)
    requires 0 <= j < |code|
  {
    && IsFalse(v) == !truth
    && (if ProducesValue(code, j) then Reg(r, code[j - 1].b) == v else v == Bool(truth))
  }

  // ---- States of the generator, as far as running the code is concerned ----

  /** `here` are the pending jumps to the end of the code. */
  datatype Snap = Snap(k: seq<Value>, code: seq<Instr>, pend: set<int>, here: set<int>, lasttarget: int)

  ghost predicate SnapOk(s: Snap) {
    && CodeOk(|s.k|, s.code, s.pend)
    && s.here <= s.pend && 0 <= s.lasttarget <= |s.code|
    && (s.here != {} ==> s.lasttarget == |s.code|)
    && (forall i :: 0 <= i < |s.code| && s.code[i].Jmp? && i !in s.pend ==> Target(s.code, i) <= s.lasttarget)
    && (forall i :: 0 <= i < |s.code| && s.code[i].LoadBool? && s.code[i].skip ==> i + 2 <= s.lasttarget)
  }

  ghost function RunSnap(cmp: Comparison, s: Snap, pc: nat, r: Regs): Outcome
    requires SnapOk(s) && pc <= |s.code|
  {
    Run(Machine(s.k, cmp), s.code, s.pend, pc, r)
  }

  /** The run comes to the end of the code, or takes a jump that will lead there. */
  predicate Arrives(s: Snap, o: Outcome) {
    o.Fall? || o.j in s.here
  }

  /** A place where a run may begin: no later than the last jump target, so that
      the instruction before the end may still be changed. */
  ghost predicate Starts(s: Snap, pc: nat) {
    pc <= s.lasttarget <= |s.code| && IsEntry(s.code, pc)
  }

  /** Pending jumps that the code being compiled must leave alone. */
  ghost function Outer(s: Snap): set<int> {
    s.pend - s.here
  }

  /** `s'` continues `s`, with `own` as its new pending lists. */
  ghost predicate Extends(s: Snap, s': Snap, own: set<int>) {
    && s.k <= s'.k && |s.code| <= |s'.code| && s.lasttarget <= s'.lasttarget
    && s'.pend == Outer(s) + s'.here + own
    && Outer(s) !! s'.here && Outer(s) !! own && s'.here !! own
    && (forall i :: 0 <= i < |s.code| ==> IsTest(s'.code[i]) == IsTest(s.code[i]))
    && (forall j :: j in Outer(s) && 0 <= j < |s.code| ==> KeptJump(s.code, s'.code, j))
  }

  /** A jump and the test that controls it, if any, are as they were. */
  predicate KeptJump(code: seq<Instr>, code': seq<Instr>, j: int)
    requires 0 <= j < |code| <= |code'|
  {
    code'[j] == code[j] && (j > 0 && IsTest(code[j - 1]) ==> code'[j - 1] == code[j - 1])
  }

  lemma ExtendsTransitive(s: Snap, s1: Snap, s2: Snap, own1: set<int>, own2: set<int>)
    requires SnapOk(s) && SnapOk(s1) && Extends(s, s1, own1) && Extends(s1, s2, own2)
    ensures Extends(s, s2, own1 + own2)
    ensures forall pc :: Starts(s, pc) ==> Starts(s1, pc)
  {
    assert Outer(s1) == Outer(s) + own1;
    forall j | j in Outer(s) && 0 <= j < |s.code| ensures KeptJump(s.code, s2.code, j) {
      assert KeptJump(s.code, s1.code, j) && KeptJump(s1.code, s2.code, j);
    }
  }

  // ---- Correctness of what has been generated so far ----

  /** Compile `src`, starting in `s0` with `n` registers in use. */
  datatype Task = Task(cmp: Comparison, s0: Snap, n: nat, src: Expr)

  /** A delayed expression: the state before its tail, the whole code, its kind
      and the elements of its two patch lists. */
  datatype Delayed = Delayed(b: Snap, code: seq<Instr>, k: Kind, tl: set<int>, fl: set<int>)

  ghost predicate ExitOk(code: seq<Instr>, list: set<int>, o: Outcome, v: Value, truth: bool) {
    o.Exit? && o.j in list && 0 <= o.j < |code| && ExitValue(code, o.j, o.r, v, truth)
  }

  /** A run that came to the start of the expression with registers `r`: it leaves
      the registers in use alone and yields the value `v` one way or another. */
  ghost predicate Yields(t: Task, d: Delayed, r: Regs, o: Outcome) {
    var v := Eval(t.cmp, t.src, r);
    && SameBelow(r, o.r, t.n)
    && (if Arrives(d.b, o) then MainValue(Machine(d.b.k, t.cmp), d.code, d.k, o.r) == v
        else ExitOk(d.code, d.tl, o, v, true) || ExitOk(d.code, d.fl, o, v, false))
  }

  ghost predicate ExprRun(t: Task, d: Delayed, pc: nat, r0: Regs)
    requires SnapOk(t.s0) && SnapOk(d.b) && pc <= |t.s0.code| <= |d.b.code|
  {
    var o0, o := RunSnap(t.cmp, t.s0, pc, r0), RunSnap(t.cmp, d.b, pc, r0);
    if Arrives(t.s0, o0) then Yields(t, d, o0.r, o) else o == o0
  }

  /** The code generated so far computes `src` as the delayed expression says, for
      every run of the code before it. */
  ghost predicate ExprOk(t: Task, d: Delayed) {
    && SnapOk(t.s0) && SnapOk(d.b) && Extends(t.s0, d.b, d.tl + d.fl) && d.tl !! d.fl
    && TailOk(|d.b.k|, d.code, d.k) && d.b.code == d.code[..|d.code| - TailLength(d.k)]
    && (TailLength(d.k) > 0 ==> d.b.here == {})
    && forall pc: nat, r0 :: Starts(t.s0, pc) ==> ExprRun(t, d, pc, r0)
  }

  /** After `src` has been tested: control comes to the end of the code if its truth
      is `truth`; the jumps of `out` are taken when it is not, those of `go` when it
      is. */
  ghost predicate Decides(t: Task, s: Snap, go: set<int>, out: set<int>, truth: bool, r: Regs, o: Outcome) {
    var v := Eval(t.cmp, t.src, r);
    && SameBelow(r, o.r, t.n)
    && (if Arrives(s, o) then IsFalse(v) == !truth
        else ExitOk(s.code, go, o, v, truth) || ExitOk(s.code, out, o, v, !truth))
  }

  ghost predicate CondRun(t: Task, s: Snap, go: set<int>, out: set<int>, truth: bool, pc: nat, r0: Regs)
    requires SnapOk(t.s0) && SnapOk(s) && pc <= |t.s0.code| <= |s.code|
  {
    var o0, o := RunSnap(t.cmp, t.s0, pc, r0), RunSnap(t.cmp, s, pc, r0);
    if Arrives(t.s0, o0) then Decides(t, s, go, out, truth, o0.r, o) else o == o0
  }

  ghost predicate CondOk(t: Task, s: Snap, go: set<int>, out: set<int>, truth: bool) {
    && SnapOk(t.s0) && SnapOk(s) && Extends(t.s0, s, go + out) && go !! out
    && forall pc: nat, r0 :: Starts(t.s0, pc) ==> CondRun(t, s, go, out, truth, pc, r0)
  }

  /** After `src` has been put in the register or constant `rk`. */
  ghost predicate Delivers(t: Task, s: Snap, rk: nat, r: Regs, o: Outcome) {
    SameBelow(r, o.r, t.n) && Arrives(s, o) && RK(Machine(s.k, t.cmp), o.r, rk) == Eval(t.cmp, t.src, r)
  }

  ghost predicate OperandRun(t: Task, s: Snap, rk: nat, pc: nat, r0: Regs)
    requires SnapOk(t.s0) && SnapOk(s) && pc <= |t.s0.code| <= |s.code|
  {
    var o0, o := RunSnap(t.cmp, t.s0, pc, r0), RunSnap(t.cmp, s, pc, r0);
    if Arrives(t.s0, o0) then Delivers(t, s, rk, o0.r, o) else o == o0
  }

  ghost predicate OperandOk(t: Task, s: Snap, rk: nat) {
    && SnapOk(t.s0) && SnapOk(s) && Extends(t.s0, s, {}) && FitsRK(|s.k|, rk)
    && forall pc: nat, r0 :: Starts(t.s0, pc) ==> OperandRun(t, s, rk, pc, r0)
  }
}
