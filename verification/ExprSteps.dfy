/** How the delayed expression, and what is known of it, follows the elementary
    actions of the code generator (src/lcode.c). */
module ExprSteps {
  import opened LuaValues
  import opened CodeMachine
  import opened JumpLists
  import opened ExprMeaning
  import opened CodeSteps

  /** Kinds whose value does not depend on instructions at the end of the code. */
  predicate Settled(k: Kind) {
    TailLength(k) == 0
  }

  /** A run that starts before `src` starts before what follows it, too; if it
      leaves by a jump of the surrounding code, no list of ours has that jump. */
  lemma StartsAt(t: Task, b: Snap, own: set<int>, pc: nat, r0: Regs)
    requires SnapOk(t.s0) && SnapOk(b) && Extends(t.s0, b, own) && Starts(t.s0, pc)
    ensures Starts(b, pc)
    ensures var o := RunSnap(t.cmp, t.s0, pc, r0);
            !Arrives(t.s0, o) ==> o.j in Outer(t.s0) && !Arrives(b, o) && o.j !in own
    ensures var o := RunSnap(t.cmp, b, pc, r0); o.Exit? ==> o.j in b.pend && 0 <= o.j < |b.code|
  {
    ExitIsPending(Machine(t.s0.k, t.cmp), t.s0.code, t.s0.pend, pc, r0);
    ExitIsPending(Machine(b.k, t.cmp), b.code, b.pend, pc, r0);
  }

  /** dischargejpc under a settled expression. */
  lemma DischargeExpr(t: Task, d: Delayed, b': Snap)
    requires ExprOk(t, d) && Settled(d.k) && Discharged(d.b, b')
    ensures ExprOk(t, d.(b := b', code := b'.code))
  {
    var d' := d.(b := b', code := b'.code);
    DischargedOk(d.b, b');
    OwnPatched(t.s0, d.b, b', d.tl + d.fl, d.tl + d.fl, d.b.here);
    forall pc: nat, r0 | Starts(t.s0, pc) ensures ExprRun(t, d', pc, r0) {
      assert ExprRun(t, d, pc, r0);
      StartsAt(t, d.b, d.tl + d.fl, pc, r0);
      DischargedRun(t.cmp, d.b, b', pc, r0);
      var o := RunSnap(t.cmp, d.b, pc, r0);
      if !Arrives(d.b, o) && o.j in d.b.pend { PatchedSameExit(d.b.code, b'.code, d.b.here, o.j); }
    }
  }

  /** Constants added to the function. */
  lemma ConstantsExpr(t: Task, d: Delayed, k': seq<Value>)
    requires ExprOk(t, d) && d.b.k <= k' && Settled(d.k)
    ensures ExprOk(t, d.(b := d.b.(k := k')))
  {
    var d' := d.(b := d.b.(k := k'));
    RunMoreConstants(Machine(d.b.k, t.cmp), Machine(k', t.cmp), d.b.code, d.b.pend, 0, map[]);
    forall pc: nat, r0 | Starts(t.s0, pc) ensures ExprRun(t, d', pc, r0) {
      assert ExprRun(t, d, pc, r0);
      RunMoreConstants(Machine(d.b.k, t.cmp), Machine(k', t.cmp), d.b.code, d.b.pend, pc, r0);
    }
  }

  /** A plain instruction puts the main value in register `reg`. */
  lemma LoadExpr(t: Task, d: Delayed, b': Snap, i: Instr, reg: nat)
    requires ExprOk(t, d) && d.b.here == {} && b'.here == {} && b'.lasttarget == d.b.lasttarget
    requires Appended(d.b, b', [i], {}) && IsPlain(i) && ConstantsIn(|b'.k|, i) && reg >= t.n
    requires forall r :: Reg(Effect(Machine(b'.k, t.cmp), i, i, r), reg) == MainValue(Machine(d.b.k, t.cmp), d.code,
             d.k, r)
    requires forall r, x: nat :: x != reg ==> Reg(Effect(Machine(b'.k, t.cmp), i, i, r), x) == Reg(r, x)
    ensures ExprOk(t, Delayed(b', b'.code, VNonReloc(reg), d.tl, d.fl))
  {
    var d' := Delayed(b', b'.code, VNonReloc(reg), d.tl, d.fl);
    PlainAppended(d.b, b', i);
    ExtendsTransitive(t.s0, d.b, b', d.tl + d.fl, {});
    assert d.tl + d.fl + {} == d.tl + d.fl;
    forall pc: nat, r0 | Starts(t.s0, pc) ensures ExprRun(t, d', pc, r0) {
      assert ExprRun(t, d, pc, r0);
      PlainRun(t.cmp, d.b, b', i, pc, r0);
    }
  }

  /** LOADKX with its extra argument puts a constant in register `reg`. */
  lemma LoadKXExpr(t: Task, d: Delayed, b': Snap, reg: nat, ax: nat)
    requires ExprOk(t, d) && d.b.here == {} && b'.here == {} && b'.lasttarget == d.b.lasttarget
    requires d.k == VK(ax) && reg >= t.n && b'.k == d.b.k
    requires Appended(d.b, b', [LoadKX(reg), ExtraArg(ax)], {})
    ensures ExprOk(t, Delayed(b', b'.code, VNonReloc(reg), d.tl, d.fl))
  {
    var d' := Delayed(b', b'.code, VNonReloc(reg), d.tl, d.fl);
    LoadKXAppended(d.b, b', reg, ax);
    ExtendsTransitive(t.s0, d.b, b', d.tl + d.fl, {});
    assert d.tl + d.fl + {} == d.tl + d.fl;
    forall pc: nat, r0 | Starts(t.s0, pc) ensures ExprRun(t, d', pc, r0) {
      assert ExprRun(t, d, pc, r0);
      LoadKXRun(t.cmp, d.b, b', reg, ax, pc, r0);
    }
  }

  /** Links within the pending lists of the expression have changed. */
  lemma RelinkExpr(t: Task, d: Delayed, d': Delayed)
    requires ExprOk(t, d) && Relinked(d.code, d'.code, d.b.here + d.tl + d.fl)
    requires d' == d.(b := d.b.(code := d'.code[..|d.b.code|]), code := d'.code)
    ensures ExprOk(t, d')
  {
    var own, list := d.tl + d.fl, d.b.here + d.tl + d.fl;
    OwnInBase(t, d);
    assert Relinked(d.b.code, d'.b.code, list);
    RelinkedIsPatched(d.b.code, d'.b.code, list);
    PatchedSnapOk(d.b, d'.b, list);
    OwnPatched(t.s0, d.b, d'.b, own, own, list);
    forall pc: nat, r0 | Starts(t.s0, pc) ensures ExprRun(t, d', pc, r0) {
      assert ExprRun(t, d, pc, r0);
      RunRelinked(Machine(d.b.k, t.cmp), d.b.code, d'.b.code, d.b.pend, list, pc, r0);
      StartsAt(t, d.b, own, pc, r0);
      var o0, o := RunSnap(t.cmp, t.s0, pc, r0), RunSnap(t.cmp, d.b, pc, r0);
      if Arrives(t.s0, o0) { RelinkYields(t, d, d', list, o0.r, o); }
    }
  }

  lemma RelinkYields(t: Task, d: Delayed, d': Delayed, list: set<int>, r: Regs, o: Outcome)
    requires Yields(t, d, r, o) && Relinked(d.code, d'.code, list) && TailOk(|d.b.k|, d.code, d.k)
    requires d' == d.(b := d.b.(code := d'.b.code), code := d'.code)
    requires forall j :: j in list ==> j < |d.code| - TailLength(d.k)
    requires o.Exit? ==> 0 <= o.j < |d.code|
    ensures Yields(t, d', r, o)
  {
    if o.Exit? { RelinkedSameExit(d.code, d'.code, list, o.j); }
    assert MainValue(Machine(d.b.k, t.cmp), d'.code, d.k, o.r) == MainValue(Machine(d.b.k, t.cmp), d.code, d.k, o.r);
  }

  /** The pending lists lie in the code before the tail. */
  lemma OwnInBase(t: Task, d: Delayed)
    requires ExprOk(t, d)
    ensures forall j :: j in d.b.here + d.tl + d.fl ==> 0 <= j < |d.b.code| && d.b.code[j].Jmp?
    ensures |d.b.code| <= |d.code| && d.b.code <= d.code
  {
    assert d.b.here + d.tl + d.fl <= d.b.pend;
  }

  /** `not`: the lists change places and lose their values, the main value is
      negated. */
  lemma NotExpr(t: Task, d: Delayed, d': Delayed)
    requires ExprOk(t, d) && SnapOk(d'.b)
    requires d'.tl == d.fl && d'.fl == d.tl && d'.b == d.b.(code := d'.b.code)
    requires Patched(d.b.code, d'.b.code, d.tl + d.fl)
    requires forall j :: j in d.tl + d.fl && 0 <= j < |d'.b.code| ==> !ProducesValue(d'.b.code, j)
    requires TailOk(|d'.b.k|, d'.code, d'.k) && d'.b.code == d'.code[..|d'.code| - TailLength(d'.k)]
    requires TailLength(d'.k) > 0 ==> d'.b.here == {}
    requires forall r :: MainValue(Machine(d'.b.k, t.cmp), d'.code, d'.k, r) ==
                         Bool(IsFalse(MainValue(Machine(d.b.k, t.cmp), d.code, d.k, r)))
    ensures ExprOk(t.(src := ENot(t.src)), d')
  {
    var t', own := t.(src := ENot(t.src)), d.tl + d.fl;
    OwnInBase(t, d);
    OwnPatched(t.s0, d.b, d'.b, own, own, own);
    assert d'.tl + d'.fl == own;
    forall pc: nat, r0 | Starts(t'.s0, pc) ensures ExprRun(t', d', pc, r0) {
      assert ExprRun(t, d, pc, r0);
      RunRelinked(Machine(d.b.k, t.cmp), d.b.code, d'.b.code, d.b.pend, own, pc, r0);
      StartsAt(t, d.b, own, pc, r0);
      var o0, o := RunSnap(t.cmp, t.s0, pc, r0), RunSnap(t.cmp, d.b, pc, r0);
      if Arrives(t.s0, o0) { NotYields(t, d, d', o0.r, o); }
    }
  }

  lemma NotYields(t: Task, d: Delayed, d': Delayed, r: Regs, o: Outcome)
    requires Yields(t, d, r, o) && (o.Exit? ==> 0 <= o.j < |d.b.code|)
    requires d'.tl == d.fl && d'.fl == d.tl && d'.b == d.b.(code := d'.b.code)
    requires |d'.b.code| == |d.b.code| && d'.b.code <= d'.code
    requires forall j :: j in d.tl + d.fl && 0 <= j < |d'.b.code| ==> !ProducesValue(d'.b.code, j)
    requires forall r :: MainValue(Machine(d'.b.k, t.cmp), d'.code, d'.k, r) ==
                         Bool(IsFalse(MainValue(Machine(d.b.k, t.cmp), d.code, d.k, r)))
    ensures Yields(t.(src := ENot(t.src)), d', r, o)
  {
    if o.Exit? { AppendedSameExit(d'.b.code, d'.b.code, d'.code, o.j); }
  }

  // ---- Conditions ----

  /** The test `test` decides on the main value of `d`. */
  ghost predicate Tests(t: Task, d: Delayed, test: Instr, truth: bool) {
    && IsTest(test) && ConstantsIn(|d.b.k|, test)
    && forall r :: TestsAt(Machine(d.b.k, t.cmp), d, test, truth, r)
  }

  predicate TestsAt(m: Machine, d: Delayed, test: Instr, truth: bool, r: Regs)
    requires IsTest(test)
  {
    var v := MainValue(m, d.code, d.k, r);
    && (Taken(m, test, r) <==> IsFalse(v) == truth)
    && (if test.TestSet? then v == Reg(r, test.b) else v.Bool?)
  }

  /** The value of a delayed expression is tested: the jump of the test is taken
      when its truth is not `truth`. */
  lemma TestCond(t: Task, d: Delayed, s: Snap, test: Instr, truth: bool, go: set<int>, out: set<int>)
    requires ExprOk(t, d) && d.b.here == {} && s.here == {} && s.lasttarget == d.b.lasttarget
    requires s.k == d.b.k && Appended(d.b, s, [test, Jmp(NO_JUMP)], {|d.b.code| + 1})
    requires Tests(t, d, test, truth)
    requires go == if truth then d.tl else d.fl
    requires out == (if truth then d.fl else d.tl) + {|d.b.code| + 1}
    ensures CondOk(t, s, go, out, truth)
  {
    var p := |d.b.code| + 1;
    TestAppended(d.b, s, test);
    ExtendsTransitive(t.s0, d.b, s, d.tl + d.fl, {p});
    assert d.tl + d.fl + {p} == go + out;
    OwnInBase(t, d);
    forall pc: nat, r0 | Starts(t.s0, pc) ensures CondRun(t, s, go, out, truth, pc, r0) {
      assert ExprRun(t, d, pc, r0);
      TestRun(t.cmp, d.b, s, test, pc, r0);
      StartsAt(t, d.b, d.tl + d.fl, pc, r0);
      var o0, o := RunSnap(t.cmp, t.s0, pc, r0), RunSnap(t.cmp, d.b, pc, r0);
      if Arrives(t.s0, o0) { TestDecides(t, d, s, test, truth, go, out, o0.r, o); }
    }
  }

  lemma TestDecides(t: Task, d: Delayed, s: Snap, test: Instr, truth: bool, go: set<int>, out: set<int>, r: Regs,
                    o: Outcome)
    requires d.b.here == {} && s.here == {} && d.b.code <= d.code && s.k == d.b.k
    requires Appended(d.b, s, [test, Jmp(NO_JUMP)], {|d.b.code| + 1}) && Tests(t, d, test, truth)
    requires Yields(t, d, r, o) && (o.Exit? ==> 0 <= o.j < |d.b.code|)
    requires go == if truth then d.tl else d.fl
    requires out == (if truth then d.fl else d.tl) + {|d.b.code| + 1}
    ensures Decides(t, s, go, out, truth, r,
                    if o.Fall? && Taken(Machine(s.k, t.cmp), test, o.r) then Exit(|d.b.code| + 1, o.r) else o)
  {
    if o.Exit? {
      AppendedSameExit(d.b.code, d.code, s.code, o.j);
    } else {
      assert TestsAt(Machine(d.b.k, t.cmp), d, test, truth, o.r);
      assert s.code[|d.b.code|] == test;
    }
  }

  /** Codes that agree up to some length say the same about exits before it. */
  lemma AppendedSameExit(b: seq<Instr>, code: seq<Instr>, code': seq<Instr>, j: int)
    requires b <= code && b <= code' && 0 <= j < |b|
    ensures ProducesValue(code, j) == ProducesValue(code', j)
    ensures j > 0 ==> code'[j - 1] == code[j - 1]
  {
    if j > 0 { assert code[j - 1] == b[j - 1] && code'[j - 1] == b[j - 1]; }
  }

  /** A constant needs no test. */
  lemma ConstantCond(t: Task, d: Delayed, truth: bool)
    requires ExprOk(t, d) && Settled(d.k)
    requires forall r :: IsFalse(MainValue(Machine(d.b.k, t.cmp), d.code, d.k, r)) == !truth
    ensures if truth then CondOk(t, d.b, d.tl, d.fl, truth) else CondOk(t, d.b, d.fl, d.tl, truth)
  {
    var go, out := if truth then d.tl else d.fl, if truth then d.fl else d.tl;
    assert go + out == d.tl + d.fl;
    forall pc: nat, r0 | Starts(t.s0, pc) ensures CondRun(t, d.b, go, out, truth, pc, r0) {
      assert ExprRun(t, d, pc, r0);
    }
  }

  /** Links within the pending lists of a condition have changed. */
  lemma RelinkCond(t: Task, s: Snap, s': Snap, go: set<int>, out: set<int>, truth: bool)
    requires CondOk(t, s, go, out, truth) && s' == s.(code := s'.code)
    requires Relinked(s.code, s'.code, s.here + go + out)
    ensures CondOk(t, s', go, out, truth)
  {
    var own, list := go + out, s.here + go + out;
    assert list <= s.pend;
    RelinkedIsPatched(s.code, s'.code, list);
    PatchedSnapOk(s, s', list);
    OwnPatched(t.s0, s, s', own, own, list);
    forall pc: nat, r0 | Starts(t.s0, pc) ensures CondRun(t, s', go, out, truth, pc, r0) {
      assert CondRun(t, s, go, out, truth, pc, r0);
      RunRelinked(Machine(s.k, t.cmp), s.code, s'.code, s.pend, list, pc, r0);
      var o := RunSnap(t.cmp, s, pc, r0);
      if o.Exit? && 0 <= o.j < |s.code| { RelinkedSameExit(s.code, s'.code, list, o.j); }
    }
  }

  /** The jumps taken when the condition holds are made to lead to the end. */
  lemma CondToHere(t: Task, s: Snap, s': Snap, go: set<int>, out: set<int>, truth: bool)
    requires CondOk(t, s, go, out, truth)
    requires s' == s.(here := s.here + go, lasttarget := |s.code|)
    ensures CondOk(t, s', {}, out, truth)
  {
    PatchedToHere(s, s', go, out);
    forall pc: nat, r0 | Starts(t.s0, pc) ensures CondRun(t, s', {}, out, truth, pc, r0) {
      assert CondRun(t, s, go, out, truth, pc, r0);
      StartsAt(t, s, go + out, pc, r0);
    }
  }

  // ---- and, or ----

  /** The second operand runs where the condition on the first one lets control
      through; the jumps taken otherwise yield the value of the first operand. */
  lemma JunctionExpr(t1: Task, s1: Snap, out: set<int>, truth: bool, t2: Task, d2: Delayed, t: Task, d: Delayed,
                     nactvar: nat)
    requires CondOk(t1, s1, {}, out, truth) && ExprOk(t2, d2)
    requires t2.cmp == t1.cmp && t2.s0 == s1 && t2.n == t1.n && nactvar <= t1.n && Closed(t2.src, nactvar)
    requires t == t1.(src := if truth then EAnd(t1.src, t2.src) else EOr(t1.src, t2.src))
    requires d == if truth then d2.(fl := d2.fl + out) else d2.(tl := d2.tl + out)
    ensures ExprOk(t, d)
  {
    ExtendsTransitive(t1.s0, s1, d2.b, {} + out, d2.tl + d2.fl);
    assert d.tl + d.fl == {} + out + (d2.tl + d2.fl);
    assert out <= Outer(s1);
    forall pc: nat, r0 | Starts(t.s0, pc) ensures ExprRun(t, d, pc, r0) {
      assert CondRun(t1, s1, {}, out, truth, pc, r0) && ExprRun(t2, d2, pc, r0);
      StartsAt(t1, s1, {} + out, pc, r0);
      JunctionRun(t1, s1, out, truth, t2, d2, t, d, nactvar, pc, r0);
    }
  }

  lemma JunctionRun(t1: Task, s1: Snap, out: set<int>, truth: bool, t2: Task, d2: Delayed, t: Task, d: Delayed,
                    nactvar: nat,
                    pc: nat, r0: Regs)
    requires SnapOk(t1.s0) && SnapOk(s1) && SnapOk(d2.b) && pc <= |t1.s0.code| <= |s1.code| <= |d2.b.code|
    requires Extends(s1, d2.b, d2.tl + d2.fl) && out <= Outer(s1) && d2.b.code <= d2.code
    requires t2.cmp == t1.cmp && t2.s0 == s1 && t2.n == t1.n && nactvar <= t1.n && Closed(t2.src, nactvar)
    requires t == t1.(src := if truth then EAnd(t1.src, t2.src) else EOr(t1.src, t2.src))
    requires d == if truth then d2.(fl := d2.fl + out) else d2.(tl := d2.tl + out)
    requires CondRun(t1, s1, {}, out, truth, pc, r0) && ExprRun(t2, d2, pc, r0)
    requires var o0 := RunSnap(t1.cmp, t1.s0, pc, r0); !Arrives(t1.s0, o0) ==> !Arrives(s1, o0)
    ensures ExprRun(t, d, pc, r0)
  {
    var o0, o1 := RunSnap(t1.cmp, t1.s0, pc, r0), RunSnap(t1.cmp, s1, pc, r0);
    if Arrives(t1.s0, o0) {
      if Arrives(s1, o1) {
        EvalSame(t1.cmp, t2.src, o0.r, o1.r, nactvar);
      } else {
        assert o1.j in Outer(s1) && KeptJump(s1.code, d2.b.code, o1.j);
        AppendedSameExit(d2.b.code, d2.code, d2.b.code, o1.j);
      }
    }
  }

  // ---- Operands and comparisons ----

  /** An expression without pending lists whose value sits in a register or is a
      constant within reach. */
  lemma OperandOfExpr(t: Task, d: Delayed, rk: nat)
    requires ExprOk(t, d) && d.tl + d.fl == {} && FitsRK(|d.b.k|, rk)
    requires (d.k == VNonReloc(rk) && rk < BITRK) || (rk >= BITRK && d.k == VK(rk - BITRK))
    ensures OperandOk(t, d.b, rk)
  {
    forall pc: nat, r0 | Starts(t.s0, pc) ensures OperandRun(t, d.b, rk, pc, r0) {
      assert ExprRun(t, d, pc, r0);
    }
  }

  lemma DischargeOperand(t: Task, s: Snap, s': Snap, rk: nat)
    requires OperandOk(t, s, rk) && Discharged(s, s')
    ensures OperandOk(t, s', rk)
  {
    DischargedOk(s, s');
    OwnPatched(t.s0, s, s', {}, {}, s.here);
    forall pc: nat, r0 | Starts(t.s0, pc) ensures OperandRun(t, s', rk, pc, r0) {
      assert OperandRun(t, s, rk, pc, r0);
      StartsAt(t, s, {}, pc, r0);
      DischargedRun(t.cmp, s, s', pc, r0);
    }
  }

  /** Operands computed one after the other, then compared by a test whose jump is
      taken when the comparison holds. */
  lemma CompareExpr(t1: Task, s1: Snap, rk1: nat, t2: Task, s2: Snap, rk2: nat, t: Task, d: Delayed, nactvar: nat)
    requires OperandOk(t1, s1, rk1) && OperandOk(t2, s2, rk2) && s2.here == {}
    requires t2.cmp == t1.cmp && t2.s0 == s1 && t1.n <= t2.n && nactvar <= t1.n && Closed(t2.src, nactvar)
    requires rk1 < t2.n || rk1 >= BITRK
    requires t.src.ECompare? && t == t1.(src := ECompare(t.src.op, t1.src, t2.src))
    requires d.b == s2 && d.tl == {} && d.fl == {} && d.k == VJmp(|s2.code| + 1)
    requires d.code == s2.code + [CompareInstr(t.src.op, rk1, rk2), Jmp(NO_JUMP)]
    ensures ExprOk(t, d)
  {
    ExtendsTransitive(t1.s0, s1, s2, {}, {});
    assert d.tl + d.fl == {} + {};
    assert d.b.code == d.code[..|d.code| - 2];
    forall pc: nat, r0 | Starts(t.s0, pc) ensures ExprRun(t, d, pc, r0) {
      assert OperandRun(t1, s1, rk1, pc, r0);
      StartsAt(t1, s1, {}, pc, r0);
      assert OperandRun(t2, s2, rk2, pc, r0);
      var o0, o1, o2 := RunSnap(t1.cmp, t1.s0, pc, r0), RunSnap(t1.cmp, s1, pc, r0), RunSnap(t1.cmp, s2, pc, r0);
      if Arrives(t1.s0, o0) { CompareYields(t1, s1, rk1, t2, s2, rk2, t, d, nactvar, o0.r, o1, o2); }
    }
  }

  lemma CompareYields(t1: Task, s1: Snap, rk1: nat, t2: Task, s2: Snap, rk2: nat, t: Task, d: Delayed, nactvar: nat,
                      r: Regs, o1: Outcome, o2: Outcome)
    requires Delivers(t1, s1, rk1, r, o1) && Delivers(t2, s2, rk2, o1.r, o2) && s1.k <= s2.k
    requires t2.cmp == t1.cmp && t1.n <= t2.n && nactvar <= t1.n && Closed(t2.src, nactvar)
    requires (rk1 < t2.n || rk1 >= BITRK) && rk1 < BITRK + |s1.k|
    requires t.src.ECompare? && t == t1.(src := ECompare(t.src.op, t1.src, t2.src))
    requires d.b == s2 && d.k == VJmp(|s2.code| + 1)
    requires d.code == s2.code + [CompareInstr(t.src.op, rk1, rk2), Jmp(NO_JUMP)]
    ensures Yields(t, d, r, o2)
  {
    EvalSame(t1.cmp, t2.src, r, o1.r, nactvar);
    assert RK(Machine(s2.k, t.cmp), o2.r, rk1) == Eval(t1.cmp, t1.src, r);
    assert d.code[|s2.code|] == CompareInstr(t.src.op, rk1, rk2);
  }

  /** codecomp's choice of opcode and order of operands. */
  function CompareInstr(op: CompareOp, rk1: nat, rk2: nat): Instr {
    match op
    case OpNe => Cmp(EQ, false, rk1, rk2)
    case OpGt => Cmp(LT, true, rk2, rk1)
    case OpGe => Cmp(LE, true, rk2, rk1)
    case OpEq => Cmp(EQ, true, rk1, rk2)
    case OpLt => Cmp(LT, true, rk1, rk2)
    case OpLe => Cmp(LE, true, rk1, rk2)
  }

  // ---- LOADNIL merged with the one before ----

  /** Two ranges of registers that together make a third. */
  predicate Joined(a1: nat, n1: nat, a2: nat, n2: nat, a: nat, n: nat) {
    && a == (if a1 < a2 then a1 else a2)
    && a + n == (if a1 + n1 < a2 + n2 then a2 + n2 else a1 + n1)
    && a1 <= a2 + n2 + 1 && a2 <= a1 + n1 + 1
  }

  lemma NilMergedExpr(t: Task, d: Delayed, b': Snap, a1: nat, n1: nat, reg: nat, a: nat, n: nat)
    requires ExprOk(t, d) && d.k == VNil && reg >= t.n
    requires |d.b.code| > d.b.lasttarget && d.b.code[|d.b.code| - 1] == LoadNil(a1, n1)
    requires Joined(a1, n1, reg, 0, a, n)
    requires b' == d.b.(code := d.b.code[|d.b.code| - 1 := LoadNil(a, n)])
    ensures ExprOk(t, Delayed(b', b'.code, VNonReloc(reg), d.tl, d.fl))
  {
    var d' := Delayed(b', b'.code, VNonReloc(reg), d.tl, d.fl);
    BeforeLoadNil(d.b, b', LoadNil(a, n));
    MergeExtends(t.s0, d.b, b', d.tl + d.fl);
    forall pc: nat, r0 | Starts(t.s0, pc) ensures ExprRun(t, d', pc, r0) {
      assert ExprRun(t, d, pc, r0);
      StartsAt(t, d.b, d.tl + d.fl, pc, r0);
      MergedAt(t, d, d', a1, n1, reg, a, n, pc, r0);
    }
  }

  lemma MergedAt(t: Task, d: Delayed, d': Delayed, a1: nat, n1: nat, reg: nat, a: nat, n: nat, pc: nat, r0: Regs)
    requires SnapOk(t.s0) && SnapOk(d.b) && SnapOk(d'.b) && |d.b.code| > 0 && SnapOk(BeforeLast(d.b))
    requires pc <= |t.s0.code| <= |d.b.code| && pc < |d.b.code| && ExprRun(t, d, pc, r0)
    requires Appended(BeforeLast(d.b), d.b, [LoadNil(a1, n1)], {}) &&
             Appended(BeforeLast(d.b), d'.b, [LoadNil(a, n)], {})
    requires d.k == VNil && d.code == d.b.code && d.b.here == {} && reg >= t.n && Joined(a1, n1, reg, 0, a, n)
    requires d' == Delayed(d'.b, d'.b.code, VNonReloc(reg), d.tl, d.fl) && d'.b.here == {}
    requires forall j :: j in d.b.pend ==> j < |d.b.code| - 1
    ensures ExprRun(t, d', pc, r0)
  {
    MergeRun(t.cmp, d.b, d'.b, a1, n1, a, n, pc, r0);
    ExitIsPending(Machine(d.b.k, t.cmp), d.b.code, d.b.pend, pc, r0);
    var o0, o, o' := RunSnap(t.cmp, t.s0, pc, r0), RunSnap(t.cmp, d.b, pc, r0), RunSnap(t.cmp, d'.b, pc, r0);
    if Arrives(t.s0, o0) {
      if o.Fall? {
        forall i: nat ensures Reg(o'.r, i) == if i == reg then Nil else Reg(o.r, i) {
          MergedReg(t.cmp, d.b, d'.b, a1, n1, reg, a, n, pc, r0, i);
        }
      }
      MergeYields(t, d, d', reg, o0.r, o, o');
    }
  }

  lemma MergeYields(t: Task, d: Delayed, d': Delayed, reg: nat, r: Regs, o: Outcome, o': Outcome)
    requires Yields(t, d, r, o) && d.k == VNil && reg >= t.n && |d.code| > 0
    requires d' == Delayed(d'.b, d'.code, VNonReloc(reg), d.tl, d.fl) && d'.b.here == d.b.here
    requires |d'.code| == |d.code| && !IsTest(d.code[|d.code| - 1]) && !IsTest(d'.code[|d.code| - 1])
    requires forall i :: 0 <= i < |d.code| - 1 ==> d'.code[i] == d.code[i]
    requires if o.Fall? then o'.Fall? && forall i: nat :: Reg(o'.r, i) == (if i == reg then Nil else Reg(o.r, i))
             else o' == o
    requires o.Exit? ==> 0 <= o.j < |d.code| - 1
    requires d.b.here == {}
    ensures Yields(t, d', r, o')
  {
  }

  /** The code up to a final LOADNIL that no jump leads behind. */
  function BeforeLast(b: Snap): Snap
    requires |b.code| > 0
  {
    b.(code := b.code[..|b.code| - 1])
  }

  lemma BeforeLoadNil(b: Snap, b': Snap, i: Instr)
    requires SnapOk(b) && |b.code| > b.lasttarget && b.code[|b.code| - 1].LoadNil?
    requires i.LoadNil? && b' == b.(code := b.code[|b.code| - 1 := i])
    ensures SnapOk(BeforeLast(b)) && SnapOk(b') && b.here == {}
    ensures Appended(BeforeLast(b), b, [b.code[|b.code| - 1]], {}) && Appended(BeforeLast(b), b', [i], {})
    ensures forall j :: j in b.pend ==> j < |b.code| - 1
  {
    var q, last := BeforeLast(b), |b.code| - 1;
    assert InstrOk(|b.k|, b.code, b.pend, last);
    forall i | 0 <= i < last ensures InstrOk(|q.k|, q.code, q.pend, i) {
      assert InstrOk(|b.k|, b.code, b.pend, i);
      assert q.code[i] == b.code[i];
      if b.code[i].Jmp? && i !in b.pend {
        var tgt := Target(b.code, i);
        assert q.code[tgt - 1] == b.code[tgt - 1];
      }
    }
    PlainAppended(q, b', i);
  }

  lemma MergeRun(cmp: Comparison, b: Snap, b': Snap, a1: nat, n1: nat, a: nat, n: nat, pc: nat, r0: Regs)
    requires SnapOk(b) && SnapOk(b') && |b.code| > 0 && SnapOk(BeforeLast(b)) && pc < |b.code|
    requires Appended(BeforeLast(b), b, [LoadNil(a1, n1)], {}) && Appended(BeforeLast(b), b', [LoadNil(a, n)], {})
    ensures var o := RunSnap(cmp, BeforeLast(b), pc, r0);
            && RunSnap(cmp, b, pc, r0) == (if o.Fall? then Fall(SetNil(o.r, a1, n1)) else o)
            && RunSnap(cmp, b', pc, r0) == (if o.Fall? then Fall(SetNil(o.r, a, n)) else o)
  {
    PlainRun(cmp, BeforeLast(b), b, LoadNil(a1, n1), pc, r0);
    PlainRun(cmp, BeforeLast(b), b', LoadNil(a, n), pc, r0);
  }

  lemma MergedReg(cmp: Comparison, b: Snap, b': Snap, a1: nat, n1: nat, reg: nat, a: nat, n: nat, pc: nat, r0: Regs,
                  i: nat)
    requires SnapOk(b) && SnapOk(b') && |b.code| > 0 && SnapOk(BeforeLast(b)) && pc < |b.code|
    requires Appended(BeforeLast(b), b, [LoadNil(a1, n1)], {}) && Appended(BeforeLast(b), b', [LoadNil(a, n)], {})
    requires Joined(a1, n1, reg, 0, a, n) && RunSnap(cmp, b, pc, r0).Fall?
    ensures Reg(RunSnap(cmp, b', pc, r0).r, i) == if i == reg then Nil else Reg(RunSnap(cmp, b, pc, r0).r, i)
  {
    MergeRun(cmp, b, b', a1, n1, a, n, pc, r0);
    var o := RunSnap(cmp, BeforeLast(b), pc, r0);
    SetNilReg(o.r, a, n, i);
    SetNilReg(o.r, a1, n1, i);
  }

  lemma MergeExtends(s0: Snap, b: Snap, b': Snap, own: set<int>)
    requires SnapOk(s0) && SnapOk(b) && Extends(s0, b, own)
    requires |b.code| > 0 && b.code[|b.code| - 1].LoadNil? && |b'.code| == |b.code| && b'.code[|b.code| - 1].LoadNil?
    requires b' == b.(code := b'.code) && forall i :: 0 <= i < |b.code| - 1 ==> b'.code[i] == b.code[i]
    ensures Extends(s0, b', own)
  {
    forall j | j in Outer(s0) && 0 <= j < |s0.code| ensures KeptJump(s0.code, b'.code, j) {
      assert KeptJump(s0.code, b.code, j);
      assert j in s0.pend && s0.code[j].Jmp?;
    }
  }

  // ---- exp2reg: lists and all into one register ----

  /** A comparison whose jump joins the list of exits when true: what is left for
      the end of the code is the value false. */
  lemma JumpJoinsList(t: Task, d: Delayed, s: Snap)
    requires ExprOk(t, d) && d.k.VJmp? && s == d.b.(code := d.code, pend := d.b.pend + {d.k.info})
    ensures ExprOk(t, Delayed(s, s.code, VFalse, d.tl + {d.k.info}, d.fl))
  {
    var p, test := d.k.info, d.code[d.k.info - 1];
    var d' := Delayed(s, s.code, VFalse, d.tl + {p}, d.fl);
    JumpJoins(t, d, s, d');
    forall pc: nat, r0 | Starts(t.s0, pc) ensures ExprRun(t, d', pc, r0) {
      assert ExprRun(t, d, pc, r0);
      TestRun(t.cmp, d.b, s, test, pc, r0);
      StartsAt(t, d.b, d.tl + d.fl, pc, r0);
      var o0, o := RunSnap(t.cmp, t.s0, pc, r0), RunSnap(t.cmp, d.b, pc, r0);
      if Arrives(t.s0, o0) { JumpYields(t, d, d', test, o0.r, o); }
    }
  }

  lemma JumpJoins(t: Task, d: Delayed, s: Snap, d': Delayed)
    requires SnapOk(t.s0) && SnapOk(d.b) && Extends(t.s0, d.b, d.tl + d.fl) && d.tl !! d.fl && d.b.here == {}
    requires TailOk(|d.b.k|, d.code, d.k) && d.k.VJmp? && d.b.code == d.code[..|d.code| - 2]
    requires s == d.b.(code := d.code, pend := d.b.pend + {d.k.info})
    requires d' == Delayed(s, s.code, VFalse, d.tl + {d.k.info}, d.fl)
    ensures SnapOk(s) && Extends(t.s0, s, d'.tl + d'.fl) && d'.tl !! d'.fl
    ensures d.code == d.b.code + [d.code[d.k.info - 1], Jmp(NO_JUMP)] && d.k.info == |d.b.code| + 1
    ensures Appended(d.b, s, [d.code[d.k.info - 1], Jmp(NO_JUMP)], {|d.b.code| + 1})
  {
    var p, test := d.k.info, d.code[d.k.info - 1];
    assert d.code == d.b.code + [test, Jmp(NO_JUMP)];
    TestAppended(d.b, s, test);
    ExtendsTransitive(t.s0, d.b, s, d.tl + d.fl, {p});
    assert d.tl + d.fl + {p} == d'.tl + d'.fl;
    assert p !in d.b.pend;
  }

  lemma JumpYields(t: Task, d: Delayed, d': Delayed, test: Instr, r: Regs, o: Outcome)
    requires Yields(t, d, r, o) && d.b.here == {} && d'.b.here == {} && test.Cmp? && d'.b.k == d.b.k
    requires d.k == VJmp(|d.b.code| + 1) && d.code == d.b.code + [test, Jmp(NO_JUMP)]
    requires d' == Delayed(d'.b, d.code, VFalse, d.tl + {|d.b.code| + 1}, d.fl)
    ensures Yields(t, d', r, if !o.Fall? then o
                             else if Taken(Machine(d.b.k, t.cmp), test, o.r) then Exit(|d.b.code| + 1, o.r) else o)
  {
    assert d.code[|d.b.code|] == test;
  }

  /** Before the lists are closed: control falls off the end only with the value
      false, the jumps of `done` have the value in `reg`. */
  ghost predicate Lands(t: Task, s: Snap, done: set<int>, tl: set<int>, fl: set<int>, reg: nat, r: Regs, o: Outcome) {
    var v := Eval(t.cmp, t.src, r);
    && SameBelow(r, o.r, t.n)
    && (if o.Fall? then v == Bool(false)
        else (o.j in done && Reg(o.r, reg) == v) || ExitOk(s.code, tl, o, v, true) || ExitOk(s.code, fl, o, v, false))
  }

  ghost predicate LandRun(t: Task, s: Snap, done: set<int>, tl: set<int>, fl: set<int>, reg: nat, pc: nat, r0: Regs)
    requires SnapOk(t.s0) && SnapOk(s) && pc <= |t.s0.code| <= |s.code|
  {
    var o0, o := RunSnap(t.cmp, t.s0, pc, r0), RunSnap(t.cmp, s, pc, r0);
    if Arrives(t.s0, o0) then Lands(t, s, done, tl, fl, reg, o0.r, o) else o == o0
  }

  ghost predicate LandOk(t: Task, s: Snap, done: set<int>, tl: set<int>, fl: set<int>, reg: nat) {
    && SnapOk(t.s0) && SnapOk(s) && s.here == {}
    && Extends(t.s0, s, done + tl + fl) && done !! tl && done !! fl && tl !! fl
    && forall pc: nat, r0 :: Starts(t.s0, pc) ==> LandRun(t, s, done, tl, fl, reg, pc, r0)
  }

  /** The value is in `reg` and a jump leads over the loads to come. */
  lemma JumpLands(t: Task, d: Delayed, s: Snap, reg: nat)
    requires ExprOk(t, d) && d.k == VNonReloc(reg) && s.here == {} && s.lasttarget == d.b.lasttarget
    requires s.k == d.b.k && Appended(d.b, s, [Jmp(NO_JUMP)], {|d.b.code|})
    ensures LandOk(t, s, d.b.here + {|d.b.code|}, d.tl, d.fl, reg)
  {
    var done := d.b.here + {|d.b.code|};
    JumpAppended(d.b, s);
    JumpExtends(t.s0, d.b, s, d.tl + d.fl, done);
    assert done + (d.tl + d.fl) == done + d.tl + d.fl;
    OwnInBase(t, d);
    forall pc: nat, r0 | Starts(t.s0, pc) ensures LandRun(t, s, done, d.tl, d.fl, reg, pc, r0) {
      assert ExprRun(t, d, pc, r0);
      JumpRun(t.cmp, d.b, s, pc, r0);
      StartsAt(t, d.b, d.tl + d.fl, pc, r0);
      var o := RunSnap(t.cmp, d.b, pc, r0);
      if o.Exit? { AppendedSameExit(d.b.code, d.code, s.code, o.j); }
    }
  }

  lemma JumpExtends(s0: Snap, s: Snap, s': Snap, own: set<int>, done: set<int>)
    requires SnapOk(s0) && SnapOk(s) && Extends(s0, s, own)
    requires Appended(s, s', [Jmp(NO_JUMP)], {|s.code|}) && s'.here == {} && s'.lasttarget == s.lasttarget
    requires done == s.here + {|s.code|}
    ensures Extends(s0, s', done + own) && done !! own
  {
    assert |s.code| !in s.pend;
    forall j | j in Outer(s0) && 0 <= j < |s0.code| ensures KeptJump(s0.code, s'.code, j) {
      assert KeptJump(s0.code, s.code, j);
    }
  }

  /** Links of the pending lists have changed. */
  lemma RelinkLand(t: Task, s: Snap, s': Snap, done: set<int>, tl: set<int>, fl: set<int>, reg: nat)
    requires LandOk(t, s, done, tl, fl, reg) && s' == s.(code := s'.code)
    requires Relinked(s.code, s'.code, done + tl + fl)
    ensures LandOk(t, s', done, tl, fl, reg)
  {
    var own := done + tl + fl;
    assert own <= s.pend;
    RelinkedIsPatched(s.code, s'.code, own);
    PatchedSnapOk(s, s', own);
    OwnPatched(t.s0, s, s', own, own, own);
    forall pc: nat, r0 | Starts(t.s0, pc) ensures LandRun(t, s', done, tl, fl, reg, pc, r0) {
      assert LandRun(t, s, done, tl, fl, reg, pc, r0);
      RunRelinked(Machine(s.k, t.cmp), s.code, s'.code, s.pend, own, pc, r0);
      var o := RunSnap(t.cmp, s, pc, r0);
      if o.Exit? && 0 <= o.j < |s.code| { RelinkedSameExit(s.code, s'.code, own, o.j); }
    }
  }

  lemma FalseLands(t: Task, d: Delayed, reg: nat)
    requires ExprOk(t, d) && d.k == VFalse && d.b.here == {}
    ensures LandOk(t, d.b, {}, d.tl, d.fl, reg)
  {
    assert {} + d.tl + d.fl == d.tl + d.fl;
    forall pc: nat, r0 | Starts(t.s0, pc) ensures LandRun(t, d.b, {}, d.tl, d.fl, reg, pc, r0) {
      assert ExprRun(t, d, pc, r0);
    }
  }

  /** What patchlistaux does to one jump of a list. */
  predicate PatchedTo(code: seq<Instr>, code': seq<Instr>, j: int, vtarget: int, reg: nat, dtarget: int) {
    && 0 <= j < |code| == |code'| && code[j].Jmp? && code'[j].Jmp?
    && (if ProducesValue(code, j) then
          Target(code', j) == vtarget &&
          code'[j - 1] == (if reg != NO_REG && reg != code[j - 1].b then TestSet(reg, code[j - 1].b, code[j - 1].c)
                           else Test(code[j - 1].b, code[j - 1].c))
        else Target(code', j) == dtarget && !ProducesValue(code', j))
  }

  /** The two loads that exp2reg puts behind the code. */
  function Loads(reg: nat): seq<Instr> {
    [LoadBool(reg, false, true), LoadBool(reg, true, false)]
  }

  /** The state after the loads, with the jumps of `done` leading behind them. */
  ghost predicate WithLoads(s: Snap, s': Snap, reg: nat, done: set<int>) {
    && s'.k == s.k && s'.code == s.code + Loads(reg) && s'.pend == s.pend && s'.here == done
    && s'.lasttarget == |s'.code|
  }

  lemma WithLoadsOk(s: Snap, s': Snap, reg: nat, done: set<int>)
    requires SnapOk(s) && s.here == {} && done <= s.pend && WithLoads(s, s', reg, done)
    ensures SnapOk(s') && Appended(s, s', Loads(reg), {})
  {
    AppendedCodeOk(|s.k|, |s'.k|, s.code, s.pend, Loads(reg), {});
    assert s.pend + {} == s.pend;
    KeptTargets(s, s', Loads(reg));
  }

  lemma LoadsRun(cmp: Comparison, s': Snap, n: nat, reg: nat, r: Regs)
    requires SnapOk(s') && |s'.code| == n + 2 && s'.code[n] == Loads(reg)[0] && s'.code[n + 1] == Loads(reg)[1]
    ensures RunSnap(cmp, s', n, r) == Fall(r[reg := Bool(false)])
    ensures RunSnap(cmp, s', n + 1, r) == Fall(r[reg := Bool(true)])
  {
    EndRun(cmp, s', r[reg := Bool(false)]);
    EndRun(cmp, s', r[reg := Bool(true)]);
  }

  /** patchlistaux has closed the lists of `s`. */
  ghost predicate Closes(s: Snap, s': Snap, tl: set<int>, fl: set<int>, reg: nat, pf: int, pt: int) {
    && s'.k == s.k && Patched(s.code, s'.code, tl + fl) && s'.here == s.here && s'.pend == s.pend - (tl + fl)
    && s'.lasttarget == |s.code|
    && (forall j :: j in fl ==> PatchedTo(s.code, s'.code, j, |s.code|, reg, pf))
    && (forall j :: j in tl ==> PatchedTo(s.code, s'.code, j, |s.code|, reg, pt))
  }

  lemma ClosesOk(s0: Snap, s: Snap, s': Snap, tl: set<int>, fl: set<int>, reg: nat, pf: int, pt: int)
    requires SnapOk(s0) && SnapOk(s) && Extends(s0, s, tl + fl) && Closes(s, s', tl, fl, reg, pf, pt)
    requires forall j :: j in fl && 0 <= j < |s.code| && !ProducesValue(s.code, j) ==>
               j < pf <= |s.code| && IsEntry(s.code, pf)
    requires forall j :: j in tl && 0 <= j < |s.code| && !ProducesValue(s.code, j) ==>
               j < pt <= |s.code| && IsEntry(s.code, pt)
    ensures SnapOk(s') && Extends(s0, s', {})
  {
    var list := tl + fl;
    PatchedTests(s.code, s'.code, list);
    EndIsEntry(|s.k|, s.code, s.pend);
    forall j | j in list && j !in s'.pend
      ensures 0 <= j < |s'.code| && s'.code[j].Jmp? && j < Target(s'.code, j) <= s'.lasttarget &&
              IsEntry(s'.code, Target(s'.code, j))
    {
      if j in fl {
        assert PatchedTo(s.code, s'.code, j, |s.code|, reg, pf);
      } else {
        assert PatchedTo(s.code, s'.code, j, |s.code|, reg, pt);
      }
    }
    PatchedSnapOk(s, s', list);
    OwnPatched(s0, s, s', list, {}, list);
  }

  /** Where an outcome of the open code leads once the lists are closed. */
  lemma ClosesRun(cmp: Comparison, s: Snap, s': Snap, tl: set<int>, fl: set<int>, reg: nat, pf: int, pt: int, pc: nat,
                  r: Regs)
    requires SnapOk(s) && SnapOk(s') && Closes(s, s', tl, fl, reg, pf, pt) && tl + fl <= s.pend && IsEntry(s.code, pc)
    requires tl !! fl
    ensures var o, o' := RunSnap(cmp, s, pc, r), RunSnap(cmp, s', pc, r);
            if o.Fall? || o.j !in tl + fl then o' == o
            else if !(0 <= o.j < |s.code|) then true
            else if ProducesValue(s.code, o.j) then
              var b := s.code[o.j - 1].b;
              o' == Fall(if reg != NO_REG && reg != b then o.r[reg := Reg(o.r, b)] else o.r)
            else
              var p := if o.j in tl then pt else pf;
              0 <= p <= |s'.code| ==> o' == RunSnap(cmp, s', p, o.r)
  {
    var m := Machine(s.k, cmp);
    PatchedTests(s.code, s'.code, tl + fl);
    assert s'.pend == s.pend - (tl + fl);
    RunPatched(m, s.code, s'.code, s.pend, tl + fl, pc, r);
    var o := RunSnap(cmp, s, pc, r);
    if o.Exit? && o.j in tl + fl {
      assert PatchedTo(s.code, s'.code, o.j, |s.code|, reg, if o.j in tl then pt else pf);
    }
  }

  lemma LoadsExtend(s0: Snap, s: Snap, s1: Snap, done: set<int>, tl: set<int>, fl: set<int>, reg: nat)
    requires SnapOk(s0) && SnapOk(s) && s.here == {} && Extends(s0, s, done + tl + fl) && WithLoads(s, s1, reg, done)
    requires done !! tl && done !! fl
    ensures Extends(s0, s1, tl + fl)
  {
    forall j | j in Outer(s0) && 0 <= j < |s0.code| ensures KeptJump(s0.code, s1.code, j) {
      assert KeptJump(s0.code, s.code, j);
    }
  }

  /** Final registers after the loads, given how the open code was left. */
  ghost predicate Finishes(code: seq<Instr>, tl: set<int>, fl: set<int>, reg: nat, o: Outcome, o2: Outcome) {
    if o.Fall? then o2 == Fall(o.r[reg := Bool(false)])
    else if o.j !in tl + fl then o2 == o
    else 0 <= o.j < |code| &&
         if ProducesValue(code, o.j) then
           var b := code[o.j - 1].b;
           o2 == Fall(if reg != b then o.r[reg := Reg(o.r, b)] else o.r)
         else o2 == Fall(o.r[reg := Bool(o.j in tl)])
  }

  lemma LoadsDeliver(t: Task, s: Snap, done: set<int>, tl: set<int>, fl: set<int>, reg: nat, s2: Snap, r: Regs,
                     o: Outcome, o2: Outcome)
    requires Lands(t, s, done, tl, fl, reg, r, o) && Finishes(s.code, tl, fl, reg, o, o2)
    requires s2.here == done && t.n <= reg < NO_REG && tl !! fl && done !! tl && done !! fl
    ensures Delivers(t, s2, reg, r, o2)
  {
  }

  lemma LoadsRunAll(cmp: Comparison, s: Snap, s1: Snap, s2: Snap, done: set<int>, tl: set<int>, fl: set<int>, reg: nat,
                    pc: nat, r0: Regs)
    requires SnapOk(s) && SnapOk(s1) && SnapOk(s2) && reg < NO_REG && tl !! fl
    requires s.here == {} && Appended(s, s1, Loads(reg), {}) && tl + fl <= s.pend
    requires WithLoads(s, s1, reg, done) && Closes(s1, s2, tl, fl, reg, |s.code|, |s.code| + 1)
    requires IsEntry(s.code, pc)
    ensures Finishes(s.code, tl, fl, reg, RunSnap(cmp, s, pc, r0), RunSnap(cmp, s2, pc, r0))
  {
    var n, o := |s.code|, RunSnap(cmp, s, pc, r0);
    AppendedRun(cmp, s, s1, Loads(reg), {}, pc, r0);
    LoadsRun(cmp, s1, n, reg, o.r);
    assert IsEntry(s1.code, pc);
    ClosesRun(cmp, s1, s2, tl, fl, reg, n, n + 1, pc, r0);
    PatchedTests(s1.code, s2.code, tl + fl);
    assert s1.code[n].LoadBool? && s1.code[n + 1].LoadBool?;
    LoadsRun(cmp, s2, n, reg, o.r);
    ExitIsPending(Machine(s.k, cmp), s.code, s.pend, pc, r0);
    if o.Exit? { AppendedSameExit(s.code, s.code, s1.code, o.j); }
  }

  /** Closing the lists behind the loads leaves the value in `reg`. */
  lemma LoadsFinish(t: Task, s: Snap, done: set<int>, tl: set<int>, fl: set<int>, reg: nat, s1: Snap, s2: Snap)
    requires LandOk(t, s, done, tl, fl, reg) && t.n <= reg < NO_REG
    requires WithLoads(s, s1, reg, done) && Closes(s1, s2, tl, fl, reg, |s.code|, |s.code| + 1)
    ensures OperandOk(t, s2, reg)
  {
    var own, n := done + tl + fl, |s.code|;
    assert own <= s.pend;
    WithLoadsOk(s, s1, reg, done);
    LoadsExtend(t.s0, s, s1, done, tl, fl, reg);
    EndIsEntry(|s.k|, s.code, s.pend);
    assert IsEntry(s1.code, n) && IsEntry(s1.code, n + 1);
    assert forall j :: j in own ==> j < n;
    ClosesOk(t.s0, s1, s2, tl, fl, reg, n, n + 1);
    forall pc: nat, r0 | Starts(t.s0, pc) ensures OperandRun(t, s2, reg, pc, r0) {
      assert LandRun(t, s, done, tl, fl, reg, pc, r0);
      StartsAt(t, s, own, pc, r0);
      LoadsRunAll(t.cmp, s, s1, s2, done, tl, fl, reg, pc, r0);
      var o0, o, o2 := RunSnap(t.cmp, t.s0, pc, r0), RunSnap(t.cmp, s, pc, r0), RunSnap(t.cmp, s2, pc, r0);
      if Arrives(t.s0, o0) { LoadsDeliver(t, s, done, tl, fl, reg, s2, o0.r, o, o2); }
    }
  }

  /** No test of the lists needs a load: they lead straight to the end. */
  lemma DirectFinish(t: Task, d: Delayed, reg: nat, s2: Snap)
    requires ExprOk(t, d) && d.k == VNonReloc(reg) && t.n <= reg < NO_REG
    requires forall j :: j in d.tl + d.fl && 0 <= j < |d.code| ==> ProducesValue(d.code, j)
    requires Closes(d.b, s2, d.tl, d.fl, reg, NO_JUMP, NO_JUMP)
    ensures OperandOk(t, s2, reg)
  {
    var own := d.tl + d.fl;
    assert own <= d.b.pend && d.code == d.b.code;
    ClosesOk(t.s0, d.b, s2, d.tl, d.fl, reg, NO_JUMP, NO_JUMP);
    forall pc: nat, r0 | Starts(t.s0, pc) ensures OperandRun(t, s2, reg, pc, r0) {
      assert ExprRun(t, d, pc, r0);
      StartsAt(t, d.b, own, pc, r0);
      ClosesRun(t.cmp, d.b, s2, d.tl, d.fl, reg, NO_JUMP, NO_JUMP, pc, r0);
    }
  }
}
