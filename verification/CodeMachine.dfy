/** The instructions that expressions compile to and what they do when run
    (src/lopcodes.h, src/lvm.c). A run of code under construction may leave it
    through a jump whose destination is not known yet. */
module CodeMachine {
  import opened LuaValues

  datatype CmpOp = EQ | LT | LE

  /** Fields are those of the C instruction: A, B, C, Bx, Ax or sBx. */
  datatype Instr =
    | Move(a: nat, b: nat)
    | LoadK(a: nat, bx: nat)
    | LoadKX(a: nat)
    | ExtraArg(ax: nat)
    | LoadBool(a: nat, flag: bool, skip: bool)
    | LoadNil(a: nat, n: nat)
    | Not(a: nat, b: nat)
    | Jmp(sbx: int)
    | Cmp(op: CmpOp, want: bool, rb: nat, rc: nat)
    | Test(a: nat, c: bool)
    | TestSet(a: nat, b: nat, c: bool)

  const NO_JUMP: int := -1
  const NO_REG: nat := 255
  const BITRK: nat := 256
  const MAXINDEXRK: nat := 255
  const MAXARG_BX: nat := 0x3_FFFF

  type Regs = map<nat, Value>

  /** The constants of a function, and an arbitrary total comparison. */
  datatype Machine = Machine(k: seq<Value>, cmp: (CmpOp, Value, Value) -> bool)

  predicate IsFalse(v: Value) {
    v == Nil || v == Bool(false)
  }

  function Reg(r: Regs, i: nat): Value {
    if i in r then r[i] else Nil
  }

  function Kst(m: Machine, i: nat): Value {
    if i < |m.k| then m.k[i] else Nil
  }

  /** A register, or a constant when the BITRK bit is set. */
  function RK(m: Machine, r: Regs, x: nat): Value {
    if x >= BITRK then Kst(m, x - BITRK) else Reg(r, x)
  }

  predicate IsTest(i: Instr) {
    i.Cmp? || i.Test? || i.TestSet?
  }

  /** Does this test go on to the jump behind it, rather than skip it? */
  predicate Taken(m: Machine, i: Instr, r: Regs)
    requires IsTest(i)
  {
    match i
    case Cmp(op, want, rb, rc) => m.cmp(op, RK(m, r, rb), RK(m, r, rc)) == want
    case Test(a, c) => if c then !IsFalse(Reg(r, a)) else IsFalse(Reg(r, a))
    case TestSet(a, b, c) => if c then !IsFalse(Reg(r, b)) else IsFalse(Reg(r, b))
  }

  /** Registers after a test has gone on to its jump. */
  function TestEffect(i: Instr, r: Regs): Regs {
    if i.TestSet? then r[i.a := Reg(r, i.b)] else r
  }

  /** R(a), R(a + 1), ..., R(a + n) := nil */
  function SetNil(r: Regs, a: nat, n: nat): Regs {
    if n == 0 then r[a := Nil] else SetNil(r, a, n - 1)[a + n := Nil]
  }

  lemma {:induction false} SetNilReg(r: Regs, a: nat, n: nat, i: nat)
    ensures Reg(SetNil(r, a, n), i) == if a <= i <= a + n then Nil else Reg(r, i)
    ensures i in SetNil(r, a, n) <==> i in r || a <= i <= a + n
  {
    if n > 0 { SetNilReg(r, a, n - 1, i); }
  }

  /** Instructions that only write registers; `next` is the one after. */
  function Effect(m: Machine, i: Instr, next: Instr, r: Regs): Regs {
    match i
    case Move(a, b) => r[a := Reg(r, b)]
    case LoadK(a, bx) => r[a := Kst(m, bx)]
    case LoadKX(a) => if next.ExtraArg? then r[a := Kst(m, next.ax)] else r
    case LoadBool(a, b, _) => r[a := Bool(b)]
    case LoadNil(a, n) => SetNil(r, a, n)
    case Not(a, b) => r[a := Bool(IsFalse(Reg(r, b)))]
    case _ => r
  }

  /** The constants that the instruction names are there, and their indices fit in its
      arguments. */
  predicate ConstantsIn(n: nat, i: Instr) {
    match i
    case LoadK(_, bx) => bx < n && bx <= MAXARG_BX
    case ExtraArg(ax) => ax < n
    case Cmp(_, _, rb, rc) => FitsRK(n, rb) && FitsRK(n, rc)
    case _ => true
  }

  predicate FitsRK(n: nat, x: nat) {
    x < BITRK + n && x <= BITRK + MAXINDEXRK
  }

  /** Execution may come to `pc` other than by falling out of a test. */
  predicate IsEntry(code: seq<Instr>, pc: nat) {
    pc <= |code| && (pc > 0 ==> !IsTest(code[pc - 1]))
  }

  function Target(code: seq<Instr>, j: nat): int
    requires j < |code| && code[j].Jmp?
  {
    j + 1 + code[j].sbx
  }

  /** One instruction of code under construction is in order: jumps that are not
      pending go forward, tests are followed by a jump, and so on. */
  predicate InstrOk(nk: nat, code: seq<Instr>, pend: set<int>, i: nat)
    requires i < |code|
  {
    && ConstantsIn(nk, code[i])
    && (code[i].Jmp? && i !in pend ==> i < Target(code, i) <= |code| && IsEntry(code, Target(code, i)))
    && (IsTest(code[i]) ==> i + 1 < |code| && code[i + 1].Jmp?)
    && (code[i].LoadBool? && code[i].skip ==> i + 1 < |code| && code[i + 1].LoadBool?)
    && (code[i].LoadKX? ==> i + 1 < |code| && code[i + 1].ExtraArg?)
  }

  ghost predicate CodeOk(nk: nat, code: seq<Instr>, pend: set<int>) {
    && (forall i :: 0 <= i < |code| ==> InstrOk(nk, code, pend, i))
    && (forall j :: j in pend ==> 0 <= j < |code| && code[j].Jmp?)
  }

  /** A run falls off the end of the code or leaves it by a pending jump. */
  datatype Outcome = Fall(r: Regs) | Exit(j: int, r: Regs)

  ghost function Run(m: Machine, code: seq<Instr>, pend: set<int>, pc: nat, r: Regs): Outcome
    requires CodeOk(|m.k|, code, pend) && pc <= |code|
    decreases |code| - pc
  {
    if pc == |code| then Fall(r) else
    assert InstrOk(|m.k|, code, pend, pc);
    var i := code[pc];
    if i.Jmp? then
      if pc in pend then Exit(pc, r) else Run(m, code, pend, Target(code, pc), r)
    else if IsTest(i) then
      assert InstrOk(|m.k|, code, pend, pc + 1);
      if !Taken(m, i, r) then Run(m, code, pend, pc + 2, r)
      else if pc + 1 in pend then Exit(pc + 1, r)
      else Run(m, code, pend, Target(code, pc + 1), TestEffect(i, r))
    else
      var next := if pc + 1 < |code| then code[pc + 1] else i;
      Run(m, code, pend, if SkipsNext(i) then pc + 2 else pc + 1, Effect(m, i, next, r))
  }

  predicate SkipsNext(i: Instr) {
    i.LoadKX? || (i.LoadBool? && i.skip)
  }

  /** A run leaves the code by pending jumps only. */
  lemma {:induction false} ExitIsPending(m: Machine, code: seq<Instr>, pend: set<int>, pc: nat, r: Regs)
    requires CodeOk(|m.k|, code, pend) && pc <= |code|
    ensures var o := Run(m, code, pend, pc, r); o.Exit? ==> o.j in pend && 0 <= o.j < |code|
    decreases |code| - pc
  {
    if pc < |code| {
      assert InstrOk(|m.k|, code, pend, pc);
      var i := code[pc];
      if i.Jmp? {
        if pc !in pend { ExitIsPending(m, code, pend, Target(code, pc), r); }
      } else if IsTest(i) {
        assert InstrOk(|m.k|, code, pend, pc + 1);
        if !Taken(m, i, r) {
          ExitIsPending(m, code, pend, pc + 2, r);
        } else if pc + 1 !in pend {
          ExitIsPending(m, code, pend, Target(code, pc + 1), TestEffect(i, r));
        }
      } else {
        var next := if pc + 1 < |code| then code[pc + 1] else i;
        ExitIsPending(m, code, pend, if SkipsNext(i) then pc + 2 else pc + 1, Effect(m, i, next, r));
      }
    }
  }

  /** Running code that continues other code. */
  lemma {:induction false} RunPrefix(m: Machine, code: seq<Instr>, pend: set<int>, code': seq<Instr>, pend': set<int>,
                                     pc: nat, r: Regs)
    requires CodeOk(|m.k|, code, pend) && CodeOk(|m.k|, code', pend') && pc <= |code|
    requires code <= code' && forall i :: 0 <= i < |code| ==> (i in pend <==> i in pend')
    ensures var o := Run(m, code, pend, pc, r);
            Run(m, code', pend', pc, r) == if o.Fall? then Run(m, code', pend', |code|, o.r) else o
    decreases |code| - pc
  {
    if pc < |code| {
      assert InstrOk(|m.k|, code, pend, pc);
      var i := code[pc];
      if i.Jmp? {
        if pc !in pend {
          RunPrefix(m, code, pend, code', pend', Target(code, pc), r);
        }
      } else if IsTest(i) {
        assert InstrOk(|m.k|, code, pend, pc + 1);
        if !Taken(m, i, r) {
          RunPrefix(m, code, pend, code', pend', pc + 2, r);
        } else if pc + 1 !in pend {
          RunPrefix(m, code, pend, code', pend', Target(code, pc + 1), TestEffect(i, r));
        }
      } else {
        var next := if pc + 1 < |code| then code[pc + 1] else i;
        var next' := if pc + 1 < |code'| then code'[pc + 1] else i;
        assert Effect(m, i, next, r) == Effect(m, i, next', r);
        RunPrefix(m, code, pend, code', pend', if SkipsNext(i) then pc + 2 else pc + 1, Effect(m, i, next, r));
      }
    }
  }

  /** Constants added later change nothing. */
  lemma {:induction false} RunMoreConstants(m: Machine, m': Machine, code: seq<Instr>, pend: set<int>, pc: nat, r: Regs)
    requires m.k <= m'.k && m.cmp == m'.cmp && pc <= |code|
    requires CodeOk(|m.k|, code, pend)
    ensures CodeOk(|m'.k|, code, pend)
    ensures Run(m', code, pend, pc, r) == Run(m, code, pend, pc, r)
    decreases |code| - pc
  {
    assert forall i :: 0 <= i < |code| ==> InstrOk(|m.k|, code, pend, i) ==> InstrOk(|m'.k|, code, pend, i);
    if pc < |code| {
      assert InstrOk(|m.k|, code, pend, pc);
      var i := code[pc];
      if i.Jmp? {
        if pc !in pend {
          RunMoreConstants(m, m', code, pend, Target(code, pc), r);
        }
      } else if IsTest(i) {
        assert InstrOk(|m.k|, code, pend, pc + 1);
        assert Taken(m, i, r) == Taken(m', i, r);
        if !Taken(m, i, r) {
          RunMoreConstants(m, m', code, pend, pc + 2, r);
        } else if pc + 1 !in pend {
          RunMoreConstants(m, m', code, pend, Target(code, pc + 1), TestEffect(i, r));
        }
      } else {
        var next := if pc + 1 < |code| then code[pc + 1] else i;
        assert pc + 1 < |code| ==> InstrOk(|m.k|, code, pend, pc + 1);
        assert Effect(m, i, next, r) == Effect(m', i, next, r);
        RunMoreConstants(m, m', code, pend, if SkipsNext(i) then pc + 2 else pc + 1, Effect(m, i, next, r));
      }
    }
  }

  // ---- Giving pending jumps their destinations ----

  /** Patching may turn a TESTSET into a TEST or give it another register. */
  predicate SameTest(i: Instr, i': Instr) {
    i' == i || (i.TestSet? && ((i'.TestSet? && i'.b == i.b && i'.c == i.c) || i' == Test(i.b, i.c)))
  }

  /** `code'` is `code` with the jumps of `list` patched, together with the tests
      that control them. */
  ghost predicate Patched(code: seq<Instr>, code': seq<Instr>, list: set<int>) {
    && |code'| == |code|
    && forall i :: 0 <= i < |code| ==> PatchedAt(code, code', list, i)
  }

  predicate PatchedAt(code: seq<Instr>, code': seq<Instr>, list: set<int>, i: nat)
    requires i < |code| == |code'|
  {
    if i in list then code[i].Jmp? && code'[i].Jmp?
    else if i + 1 in list && IsTest(code[i]) then SameTest(code[i], code'[i])
    else code'[i] == code[i]
  }

  /** Registers when a patched jump reaches its destination. */
  function ArriveBy(code: seq<Instr>, j: nat, r: Regs): Regs
    requires j <= |code|
  {
    if j > 0 then TestEffect(code[j - 1], r) else r
  }

  /** Where an outcome of the old code leads in the patched code. */
  ghost function Redirect(m: Machine, code': seq<Instr>, pend': set<int>, list: set<int>, o: Outcome): Outcome
    requires CodeOk(|m.k|, code', pend')
    requires list !! pend' && forall j :: j in list ==> 0 <= j < |code'| && code'[j].Jmp?
  {
    if o.Exit? && o.j in list then
      assert InstrOk(|m.k|, code', pend', o.j);
      Run(m, code', pend', Target(code', o.j), ArriveBy(code', o.j, o.r))
    else o
  }

  lemma {:induction false} RunPatched(m: Machine, code: seq<Instr>, code': seq<Instr>, pend: set<int>, list: set<int>,
                                      pc: nat, r: Regs)
    requires CodeOk(|m.k|, code, pend) && CodeOk(|m.k|, code', pend - list) && list <= pend
    requires Patched(code, code', list) && IsEntry(code, pc)
    requires forall j :: j in list ==> 0 <= j < |code'| && code'[j].Jmp?
    ensures Run(m, code', pend - list, pc, r) == Redirect(m, code', pend - list, list, Run(m, code, pend, pc, r))
    decreases |code| - pc
  {
    if pc < |code| {
      assert InstrOk(|m.k|, code, pend, pc) && PatchedAt(code, code', list, pc);
      var i, i' := code[pc], code'[pc];
      if i.Jmp? {
        if pc in list {
          assert pc > 0 ==> PatchedAt(code, code', list, pc - 1);
          assert InstrOk(|m.k|, code', pend - list, pc);
        } else if pc !in pend {
          RunPatched(m, code, code', pend, list, Target(code, pc), r);
        }
      } else if IsTest(i) {
        TestStep(m, code, code', pend, list, pc, r);
        if !Taken(m, i, r) {
          RunPatched(m, code, code', pend, list, pc + 2, r);
        } else if pc + 1 !in pend {
          RunPatched(m, code, code', pend, list, Target(code, pc + 1), TestEffect(i, r));
        }
      } else {
        PlainStep(m, code, code', pend, list, pc, r);
        var next := if pc + 1 < |code| then code[pc + 1] else i;
        RunPatched(m, code, code', pend, list, if SkipsNext(i) then pc + 2 else pc + 1, Effect(m, i, next, r));
      }
    }
  }

  lemma TestStep(m: Machine, code: seq<Instr>, code': seq<Instr>, pend: set<int>, list: set<int>, pc: nat, r: Regs)
    requires CodeOk(|m.k|, code, pend) && Patched(code, code', list) && pc < |code|
    requires CodeOk(|m.k|, code', pend - list) && list <= pend && IsTest(code[pc])
    ensures IsTest(code'[pc]) && Taken(m, code'[pc], r) == Taken(m, code[pc], r)
    ensures pc + 1 < |code| && code[pc + 1].Jmp? && code'[pc + 1].Jmp? && IsEntry(code, pc + 2)
    ensures pc + 1 !in list ==> code'[pc] == code[pc] && code'[pc + 1] == code[pc + 1]
    ensures pc + 1 !in pend ==> pc < Target(code, pc + 1) <= |code| && IsEntry(code, Target(code, pc + 1))
  {
    assert InstrOk(|m.k|, code, pend, pc) && InstrOk(|m.k|, code, pend, pc + 1);
    assert PatchedAt(code, code', list, pc) && PatchedAt(code, code', list, pc + 1);
  }

  /** An instruction that is no jump and no test does the same after patching, and
      leads to an entry. */
  lemma PlainStep(m: Machine, code: seq<Instr>, code': seq<Instr>, pend: set<int>, list: set<int>, pc: nat, r: Regs)
    requires CodeOk(|m.k|, code, pend) && Patched(code, code', list) && pc < |code|
    requires !code[pc].Jmp? && !IsTest(code[pc])
    ensures code'[pc] == code[pc]
    ensures pc + 1 < |code| ==> Effect(m, code[pc], code[pc + 1], r) == Effect(m, code[pc], code'[pc + 1], r)
    ensures IsEntry(code, if SkipsNext(code[pc]) then pc + 2 else pc + 1)
    ensures list <= pend ==> pc !in list
  {
    assert InstrOk(|m.k|, code, pend, pc) && PatchedAt(code, code', list, pc);
    assert pc + 1 < |code| ==> PatchedAt(code, code', list, pc + 1);
  }

  /** Patching that leaves the jumps of `list` pending changes no run. */
  lemma {:induction false} RunRelinked(m: Machine, code: seq<Instr>, code': seq<Instr>, pend: set<int>, list: set<int>,
                                       pc: nat, r: Regs)
    requires CodeOk(|m.k|, code, pend) && CodeOk(|m.k|, code', pend) && list <= pend
    requires Patched(code, code', list) && pc <= |code|
    ensures Run(m, code', pend, pc, r) == Run(m, code, pend, pc, r)
    decreases |code| - pc
  {
    if pc < |code| {
      assert InstrOk(|m.k|, code, pend, pc) && PatchedAt(code, code', list, pc);
      var i := code[pc];
      if i.Jmp? {
        if pc !in pend {
          RunRelinked(m, code, code', pend, list, Target(code, pc), r);
        }
      } else if IsTest(i) {
        assert InstrOk(|m.k|, code, pend, pc + 1) && PatchedAt(code, code', list, pc + 1);
        if !Taken(m, i, r) {
          RunRelinked(m, code, code', pend, list, pc + 2, r);
        } else if pc + 1 !in pend {
          RunRelinked(m, code, code', pend, list, Target(code, pc + 1), TestEffect(i, r));
        }
      } else {
        PlainStep(m, code, code', pend, list, pc, r);
        var next := if pc + 1 < |code| then code[pc + 1] else i;
        RunRelinked(m, code, code', pend, list, if SkipsNext(i) then pc + 2 else pc + 1, Effect(m, i, next, r));
      }
    }
  }

  /** Patched code is in order when the jumps that are no longer pending have
      proper destinations. */
  lemma PatchedOk(nk: nat, code: seq<Instr>, code': seq<Instr>, pend: set<int>, pend': set<int>, list: set<int>)
    requires CodeOk(nk, code, pend) && Patched(code, code', list) && list <= pend
    requires pend - list <= pend' <= pend
    requires forall j :: j in list && j !in pend' ==>
               0 <= j < |code'| && code'[j].Jmp? && j < Target(code', j) <= |code'| && IsEntry(code', Target(code', j))
    ensures CodeOk(nk, code', pend')
  {
    forall i | 0 <= i < |code'| ensures InstrOk(nk, code', pend', i) {
      assert InstrOk(nk, code, pend, i) && PatchedAt(code, code', list, i);
      if i + 1 < |code| { assert PatchedAt(code, code', list, i + 1); }
      if code[i].Jmp? && i !in pend {
        var t := Target(code, i);
        assert PatchedAt(code, code', list, t - 1);
      }
    }
    forall j | j in pend' ensures 0 <= j < |code'| && code'[j].Jmp? {
      assert PatchedAt(code, code', list, j);
    }
  }

  lemma PatchedTransitive(code: seq<Instr>, code1: seq<Instr>, code2: seq<Instr>, a: set<int>, b: set<int>)
    requires Patched(code, code1, a) && Patched(code1, code2, b)
    ensures Patched(code, code2, a + b)
  {
    forall i | 0 <= i < |code| ensures PatchedAt(code, code2, a + b, i) {
      assert PatchedAt(code, code1, a, i) && PatchedAt(code1, code2, b, i);
    }
  }
}
