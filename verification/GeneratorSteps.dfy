/** What the methods of the code generator need to know of the lists and states
    between their steps, and what it means for a list of expressions to have been
    compiled (src/lcode.c). */
module GeneratorSteps {
  import opened LuaValues
  import opened CodeMachine
  import opened JumpLists
  import opened ExprMeaning
  import opened CodeSteps
  import opened ExprSteps

  const MAXREGS: nat := 255

  lemma EmptyList(code: seq<Instr>, l: int, s: seq<int>)
    requires IsList(code, l, s)
    ensures l == NO_JUMP <==> s == []
  {
    if s != [] { assert LinkOk(code, s, 0); }
  }

  lemma NextInList(code: seq<Instr>, s: seq<int>, i: nat)
    requires i < |s| && forall m :: 0 <= m < |s| ==> LinkOk(code, s, m)
    ensures 0 <= s[i] < |code| && code[s[i]].Jmp?
    ensures if i + 1 < |s| then GetJump(code, s[i]) == s[i + 1] >= 0 else GetJump(code, s[i]) == NO_JUMP
  {
    assert LinkOk(code, s, i);
    assert i + 1 < |s| ==> LinkOk(code, s, i + 1);
  }

  /** Linking the last jump of one list to the head of another. */
  lemma LinkLists(code: seq<Instr>, code': seq<Instr>, l1: int, l2: int, s1: seq<int>, s2: seq<int>)
    requires IsList(code, l1, s1) && IsList(code, l2, s2) && Elems(s1) !! Elems(s2) && s1 != [] && s2 != []
    requires var last := s1[|s1| - 1]; 0 <= last < |code| && code' == code[last := Jmp(l2 - (last + 1))]
    ensures IsList(code', l1, s1 + s2) && Relinked(code, code', Elems(s1))
  {
    var last, s := s1[|s1| - 1], s1 + s2;
    ListJumps(code, l1, s1);
    assert last in Elems(s1);
    assert Distinct(s) by {
      forall i, j | 0 <= i < j < |s| ensures s[i] != s[j] {
        if i < |s1| <= j { assert s[i] in Elems(s1) && s[j] in Elems(s2); }
      }
    }
    forall i | 0 <= i < |s| ensures LinkOk(code', s, i) {
      if i < |s1| {
        assert LinkOk(code, s1, i);
      } else {
        assert LinkOk(code, s2, i - |s1|);
        assert s2[i - |s1|] in Elems(s2);
      }
    }
    assert LinkOk(code, s1, |s1| - 1);
  }

  /** A TESTSET given its register, or turned into a TEST. */
  function TestSetTo(i: Instr, reg: nat): Instr
    requires i.TestSet?
  {
    if reg != NO_REG && reg != i.b then TestSet(reg, i.b, i.c) else Test(i.b, i.c)
  }

  /** Past the last element there is no next one. */
  lemma EndOfList(code: seq<Instr>, s: seq<int>, i: nat, list: int)
    requires list == NO_JUMP && i <= |s| && list == (if i < |s| then s[i] else NO_JUMP)
    requires forall k :: 0 <= k < |s| ==> LinkOk(code, s, k)
    ensures i == |s|
  {
    assert i < |s| ==> LinkOk(code, s, i);
  }

  /** The first `n` tests of the list have lost their values. */
  ghost predicate ValuesRemoved(code: seq<Instr>, code': seq<Instr>, s: seq<int>, n: nat) {
    && |code'| == |code| && n <= |s|
    && forall i :: 0 <= i < |code| ==>
         code'[i] == if i + 1 in s[..n] && code[i].TestSet? then Test(code[i].b, code[i].c) else code[i]
  }

  lemma RemovalStep(code: seq<Instr>, code': seq<Instr>, s: seq<int>, n: nat)
    requires ValuesRemoved(code, code', s, n) && n < |s| && Distinct(s) && forall k :: 0 <= k < |s| ==>
               LinkOk(code, s, k)
    ensures 0 <= s[n] < |code'| && code'[s[n]].Jmp? && GetJump(code', s[n]) == if n + 1 < |s| then s[n + 1] else NO_JUMP
    ensures ProducesValue(code', s[n]) == ProducesValue(code, s[n])
    ensures ProducesValue(code, s[n]) ==> code'[s[n] - 1] == code[s[n] - 1]
    ensures !ProducesValue(code, s[n]) ==> ValuesRemoved(code, code', s, n + 1)
    ensures ProducesValue(code, s[n]) ==>
              ValuesRemoved(code, code'[s[n] - 1 := TestSetTo(code[s[n] - 1], NO_REG)], s, n + 1)
  {
    assert LinkOk(code, s, n);
    assert s[..n + 1] == s[..n] + [s[n]];
  }

  lemma ValuesAllRemoved(code: seq<Instr>, code': seq<Instr>, head: int, s: seq<int>)
    requires IsList(code, head, s) && ValuesRemoved(code, code', s, |s|)
    ensures IsList(code', head, s) && Patched(code, code', Elems(s))
    ensures forall j :: j in Elems(s) && 0 <= j < |code'| ==> !ProducesValue(code', j)
  {
    assert s[..|s|] == s;
    ListJumps(code, head, s);
    forall i | 0 <= i < |s| ensures LinkOk(code', s, i) {
      assert LinkOk(code, s, i);
    }
    forall i | 0 <= i < |code| ensures PatchedAt(code, code', Elems(s), i) {
    }
  }

  /** The first `n` jumps of the list have been patched, the others not touched. */
  ghost predicate ListPatched(code: seq<Instr>, code': seq<Instr>, s: seq<int>, n: nat, vtarget: int, reg: nat,
                              dtarget: int) {
    && |code'| == |code| && n <= |s|
    && (forall m :: 0 <= m < n ==> PatchedTo(code, code', s[m], vtarget, reg, dtarget))
    && (forall i :: 0 <= i < |code| ==> Untouched(code, code', s[..n], i))
  }

  /** `i` is as before unless it is a jump of `done` or the value test of one. */
  predicate Untouched(code: seq<Instr>, code': seq<Instr>, done: seq<int>, i: nat)
    requires i < |code| == |code'|
  {
    i !in done && !(i + 1 in done && code[i].TestSet?) ==> code'[i] == code[i]
  }

  lemma UntouchedYet(code: seq<Instr>, code': seq<Instr>, s: seq<int>, n: nat, vtarget: int, reg: nat, dtarget: int)
    requires ListPatched(code, code', s, n, vtarget, reg, dtarget) && n < |s| && Distinct(s)
    requires LinkOk(code, s, n)
    requires forall m :: 0 <= m < |s| ==> LinkOk(code, s, m)
    ensures 0 <= s[n] < |code'| && code'[s[n]] == code[s[n]]
    ensures ProducesValue(code', s[n]) == ProducesValue(code, s[n])
    ensures ProducesValue(code, s[n]) ==> code'[s[n] - 1] == code[s[n] - 1]
  {
    var j := s[n];
    assert Untouched(code, code', s[..n], j);
    if j > 0 {
      var i := j - 1;
      assert Untouched(code, code', s[..n], i);
      if i in s[..n] {
        var m :| 0 <= m < n && s[m] == i;
        assert LinkOk(code, s, m) && PatchedTo(code, code', s[m], vtarget, reg, dtarget);
      }
    }
  }

  /** Patching jump `j` and, if it has one, its value test. */
  function PatchOne(code: seq<Instr>, j: nat, vtarget: int, reg: nat, dtarget: int): seq<Instr>
    requires j < |code|
  {
    if ProducesValue(code, j)
    then code[j - 1 := TestSetTo(code[j - 1], reg)][j := Jmp(vtarget - (j + 1))]
    else code[j := Jmp(dtarget - (j + 1))]
  }

  lemma PatchStep(code: seq<Instr>, code1: seq<Instr>, code2: seq<Instr>, s: seq<int>, n: nat,
                  vtarget: int, reg: nat, dtarget: int)
    requires ListPatched(code, code1, s, n, vtarget, reg, dtarget) && n < |s| && Distinct(s)
    requires forall m :: 0 <= m < |s| ==> LinkOk(code, s, m)
    requires 0 <= s[n] < |code| && code1[s[n]] == code[s[n]] && code[s[n]].Jmp?
    requires ProducesValue(code1, s[n]) == ProducesValue(code, s[n])
    requires ProducesValue(code, s[n]) ==> code1[s[n] - 1] == code[s[n] - 1]
    requires code2 == PatchOne(code1, s[n], vtarget, reg, dtarget)
    ensures ListPatched(code, code2, s, n + 1, vtarget, reg, dtarget)
  {
    var j := s[n];
    assert s[..n + 1] == s[..n] + [j];
    forall m | 0 <= m < n + 1 ensures PatchedTo(code, code2, s[m], vtarget, reg, dtarget) {
      assert LinkOk(code, s, m);
      if m < n {
        assert PatchedTo(code, code1, s[m], vtarget, reg, dtarget) && s[m] != j;
        assert code2[s[m]] == code1[s[m]];
        assert s[m] > 0 && s[m] - 1 != j ==> code2[s[m] - 1] == code1[s[m] - 1];
      }
    }
    var done := s[..n + 1];
    forall i | 0 <= i < |code| ensures Untouched(code, code2, done, i) {
      assert Untouched(code, code1, s[..n], i);
    }
  }

  lemma ListAllPatched(code: seq<Instr>, code': seq<Instr>, head: int, s: seq<int>, vtarget: int, reg: nat,
                       dtarget: int)
    requires IsList(code, head, s) && ListPatched(code, code', s, |s|, vtarget, reg, dtarget)
    ensures Patched(code, code', Elems(s))
    ensures forall j :: j in Elems(s) ==> PatchedTo(code, code', j, vtarget, reg, dtarget)
  {
    assert s[..|s|] == s;
    forall j | j in Elems(s) ensures PatchedTo(code, code', j, vtarget, reg, dtarget) {
      var m :| 0 <= m < |s| && s[m] == j;
    }
    forall i | 0 <= i < |code| ensures PatchedAt(code, code', Elems(s), i) {
      assert Untouched(code, code', s, i);
      if i in Elems(s) {
        assert PatchedTo(code, code', i, vtarget, reg, dtarget);
      } else if i + 1 in Elems(s) {
        assert PatchedTo(code, code', i + 1, vtarget, reg, dtarget);
      }
    }
  }

  lemma NothingDischarged(code: seq<Instr>, code': seq<Instr>)
    requires Patched(code, code', {})
    ensures code' == code
  {
    forall i | 0 <= i < |code| ensures code'[i] == code[i] {
      assert PatchedAt(code, code', {}, i);
    }
  }

  function Base(code: seq<Instr>, k: Kind): seq<Instr> {
    if 0 < TailLength(k) <= |code| then code[..|code| - TailLength(k)] else code
  }

  /** A kind with the same value and no tail can replace another. */
  lemma SameMeaning(t: Task, d: Delayed, k: Kind)
    requires ExprOk(t, d) && d.k.VLocal? && k == VNonReloc(d.k.info)
    ensures ExprOk(t, d.(k := k))
  {
    forall pc: nat, r0 | Starts(t.s0, pc) ensures ExprRun(t, d.(k := k), pc, r0) {
      assert ExprRun(t, d, pc, r0);
    }
  }

  /** `i` writes register `reg` only, with the value of a settled expression. */
  ghost predicate Loads1(m: Machine, i: Instr, reg: nat, k: Kind) {
    && (forall r :: Reg(Effect(m, i, i, r), reg) == MainValue(m, [], k, r))
    && (forall r, x: nat :: x != reg ==> Reg(Effect(m, i, i, r), x) == Reg(r, x))
  }

  /** A list outside the jumps to here survives luaK_code. */
  lemma CodeKeepsList(s: Snap, mid: Snap, i: Instr, head: int, l: seq<int>)
    requires Discharged(s, mid) && IsList(s.code, head, l) && Elems(l) !! s.here
    ensures IsList(mid.code, head, l) && IsList(mid.code + [i], head, l)
  {
    PatchKeepsList(s.code, mid.code, s.here, head, l);
    AppendKeepsList(mid.code, [i], head, l);
  }

  /** Changing an instruction that is no jump keeps every list. */
  lemma ReplaceKeepsList(code: seq<Instr>, code': seq<Instr>, i: nat, head: int, l: seq<int>)
    requires IsList(code, head, l) && i < |code| == |code'| && !code[i].Jmp? && code' == code[i := code'[i]]
    ensures IsList(code', head, l)
  {
    forall m | 0 <= m < |l| ensures LinkOk(code', l, m) {
      assert LinkOk(code, l, m);
    }
  }

  /** A numeral and the constant with its value mean the same. */
  lemma NumberIsConstant(t: Task, d: Delayed, v: Value, i: nat)
    requires ExprOk(t, d) && i < |d.b.k| && d.b.k[i] == v
    requires (d.k.VKInt? && v == Int(d.k.ival)) || (d.k.VKFlt? && v == Flt(d.k.nval))
      || (d.k.VTrue? && v == Bool(true)) || (d.k.VFalse? && v == Bool(false)) || (d.k.VNil? && v == Nil)
    ensures ExprOk(t, d.(k := VK(i)))
  {
    forall pc: nat, r0 | Starts(t.s0, pc) ensures ExprRun(t, d.(k := VK(i)), pc, r0) {
      assert ExprRun(t, d, pc, r0);
    }
  }

  /** A list outside the jumps to here survives the coding of a test. */
  lemma TestedLists(s: Snap, mid: Snap, test: Instr, head: int, l: seq<int>)
    requires Discharged(s, mid) && IsList(s.code, head, l) && Elems(l) !! s.here
    ensures IsList(mid.code + [test, Jmp(NO_JUMP)], head, l)
  {
    PatchKeepsList(s.code, mid.code, s.here, head, l);
    AppendKeepsList(mid.code, [test, Jmp(NO_JUMP)], head, l);
  }

  /** The value of a settled expression does not depend on the code. */
  lemma SettledTests(t: Task, d: Delayed, d1: Delayed, test: Instr, truth: bool)
    requires Tests(t, d, test, truth) && Settled(d.k) && d1.k == d.k && d1.b.k == d.b.k
    ensures Tests(t, d1, test, truth)
  {
    forall r ensures TestsAt(Machine(d1.b.k, t.cmp), d1, test, truth, r) {
      assert TestsAt(Machine(d.b.k, t.cmp), d, test, truth, r);
    }
  }

  lemma TruncatedList(code: seq<Instr>, n: nat, head: int, l: seq<int>)
    requires IsList(code, head, l) && n <= |code| && forall j :: j in Elems(l) ==> j < n
    ensures IsList(code[..n], head, l)
  {
    forall i | 0 <= i < |l| ensures LinkOk(code[..n], l, i) {
      assert LinkOk(code, l, i) && l[i] in Elems(l);
    }
  }

  lemma NoElems(l: seq<int>)
    ensures l != [] ==> Elems(l) != {}
  {
    if l != [] { assert l[0] in Elems(l); }
  }

  lemma ElemsConcat(l1: seq<int>, l2: seq<int>)
    ensures Elems(l1 + l2) == Elems(l1) + Elems(l2)
  {
    forall x ensures x in Elems(l1 + l2) <==> x in Elems(l1) + Elems(l2) {
      if x in l1 {
        var i :| 0 <= i < |l1| && l1[i] == x;
        assert (l1 + l2)[i] == x;
      } else if x in l2 {
        var i :| 0 <= i < |l2| && l2[i] == x;
        assert (l1 + l2)[|l1| + i] == x;
      }
    }
  }

  /** A comparison for the opposite outcome. */
  function Negated(i: Instr): Instr
    requires i.Cmp?
  {
    i.(want := !i.want)
  }

  lemma RelinkKeepsList(code: seq<Instr>, code': seq<Instr>, list: set<int>, head: int, l: seq<int>)
    requires Relinked(code, code', list) && IsList(code, head, l) && Elems(l) !! list
    ensures IsList(code', head, l)
  {
    RelinkedIsPatched(code, code', list);
    PatchKeepsList(code, code', list, head, l);
  }

  /** The comparison at the end of the code, negated if need be, decides. */
  lemma ComparisonExit(t: Task, d: Delayed, s: Snap, truth: bool)
    requires ExprOk(t, d) && d.k.VJmp? && 0 < d.k.info < |d.code| && d.code[d.k.info - 1].Cmp?
    requires s == d.b.(code := s.code, pend := d.b.pend + {d.k.info})
    requires s.code == if truth then d.code[d.k.info - 1 := Negated(d.code[d.k.info - 1])] else d.code
    ensures if truth then CondOk(t, s, d.tl, d.fl + {d.k.info}, true) else CondOk(t, s, d.fl, d.tl + {d.k.info}, false)
  {
    var test := s.code[d.k.info - 1];
    assert s.code == d.b.code + [test, Jmp(NO_JUMP)];
    TestCond(t, d, s, test, truth, if truth then d.tl else d.fl, (if truth then d.fl else d.tl) + {d.k.info});
  }

  /** After a jump over the loads: the value is in `reg` at the jump. */
  lemma LandsBehind(t: Task, d: Delayed, s: Snap, reg: nat)
    requires ExprOk(t, d) && d.k == VNonReloc(reg) && |s.code| == |d.b.code| + 1 && s.code[..|d.b.code|] == d.b.code
    requires s.code[|d.b.code|].Jmp?
    requires s == d.b.(code := s.code, pend := d.b.pend + {|d.b.code|}, here := {})
    ensures LandOk(t, s, d.b.here + {|d.b.code|}, d.tl, d.fl, reg)
  {
    var s1 := s.(code := d.b.code + [Jmp(NO_JUMP)]);
    JumpLands(t, d, s1, reg);
    RelinkLand(t, s1, s, d.b.here + {|d.b.code|}, d.tl, d.fl, reg);
  }

  /** Patching one list leaves the tests and links of another. */
  lemma SecondList(code: seq<Instr>, code': seq<Instr>, list: set<int>, head: int, l: seq<int>)
    requires Patched(code, code', list) && IsList(code, head, l) && Elems(l) !! list
    ensures IsList(code', head, l)
    ensures forall j :: j in l && 0 <= j < |code| ==>
              code'[j] == code[j] && ProducesValue(code', j) == ProducesValue(code, j)
    ensures forall j :: j in l && 0 < j < |code| && IsTest(code[j - 1]) ==> code'[j - 1] == code[j - 1]
  {
    PatchKeepsList(code, code', list, head, l);
    forall j | j in l && 0 <= j < |code|
      ensures code'[j] == code[j] && ProducesValue(code', j) == ProducesValue(code, j)
      ensures j > 0 && IsTest(code[j - 1]) ==> code'[j - 1] == code[j - 1]
    {
      assert j in Elems(l);
      ListJumps(code, head, l);
      PatchedKeeps(code, code', list, j);
      PatchedSameExit(code, code', list, j);
    }
  }

  lemma ClosesBoth(code: seq<Instr>, code1: seq<Instr>, code2: seq<Instr>, tl: set<int>, fl: set<int>, final: int,
                   reg: nat,
                   pf: int, pt: int)
    requires Patched(code, code1, fl) && Patched(code1, code2, tl) && tl !! fl
    requires forall j :: j in fl ==> PatchedTo(code, code1, j, final, reg, pf)
    requires forall j :: j in tl ==> PatchedTo(code1, code2, j, final, reg, pt)
    ensures Patched(code, code2, tl + fl)
    ensures forall j :: j in fl ==> PatchedTo(code, code2, j, final, reg, pf)
    ensures forall j :: j in tl ==> PatchedTo(code, code2, j, final, reg, pt)
  {
    PatchedTransitive(code, code1, code2, fl, tl);
    assert fl + tl == tl + fl;
    forall j | j in fl ensures PatchedTo(code, code2, j, final, reg, pf) {
      assert PatchedTo(code, code1, j, final, reg, pf);
      StaysPatched(code1, code2, tl, j);
    }
    forall j | j in tl ensures PatchedTo(code, code2, j, final, reg, pt) {
      assert PatchedTo(code1, code2, j, final, reg, pt);
      assert PatchedAt(code, code1, fl, j);
      StaysPatched(code, code1, fl, j);
    }
  }

  lemma StaysPatched(code: seq<Instr>, code': seq<Instr>, list: set<int>, j: nat)
    requires Patched(code, code', list) && j < |code| && j !in list && code[j].Jmp?
    ensures code'[j] == code[j] && ProducesValue(code', j) == ProducesValue(code, j)
    ensures j > 0 && IsTest(code[j - 1]) ==> code'[j - 1] == code[j - 1]
  {
    PatchedKeeps(code, code', list, j);
    PatchedSameExit(code, code', list, j);
  }

  lemma InElems(l: seq<int>)
    ensures forall j :: j in l <==> j in Elems(l)
  {
  }

  /** Disjoint lists have the same head only when both are empty. */
  lemma EqualHeads(code: seq<Instr>, head: int, l1: seq<int>, l2: seq<int>)
    requires IsList(code, head, l1) && Elems(l1) !! Elems(l2)
    ensures l1 != [] ==> !IsList(code, head, l2)
    ensures IsList(code, head, l2) ==> Elems(l1) + Elems(l2) == {} && head == NO_JUMP
  {
    if l1 != [] { assert LinkOk(code, l1, 0) && l1[0] in Elems(l1); }
    if l2 != [] { assert l2[0] in Elems(l2); }
    assert IsList(code, head, l2) && l2 != [] ==> LinkOk(code, l2, 0);
  }

  /** A value delivered to a register is an expression again. */
  lemma ExprOfOperand(t: Task, s: Snap, reg: nat)
    requires OperandOk(t, s, reg) && reg < BITRK
    ensures ExprOk(t, Delayed(s, s.code, VNonReloc(reg), {}, {}))
  {
    var d := Delayed(s, s.code, VNonReloc(reg), {}, {});
    assert d.tl + d.fl == {};
    forall pc: nat, r0 | Starts(t.s0, pc) ensures ExprRun(t, d, pc, r0) {
      assert OperandRun(t, s, reg, pc, r0);
    }
  }

  /** The code ends with the delayed negation of the main value of `d`. */
  ghost predicate NegatedTail(cmp: Comparison, d: Delayed, code: seq<Instr>, k: Kind) {
    && TailOk(|d.b.k|, code, k) && d.b.code == code[..|code| - TailLength(k)]
    && (TailLength(k) > 0 ==> d.b.here == {})
    && forall r :: NegatedValue(Machine(d.b.k, cmp), d, code, k, r)
  }

  predicate NegatedValue(m: Machine, d: Delayed, code: seq<Instr>, k: Kind, r: Regs) {
    MainValue(m, code, k, r) == Bool(IsFalse(MainValue(m, d.code, d.k, r)))
  }

  lemma BothRemoved(code: seq<Instr>, code1: seq<Instr>, code2: seq<Instr>, l1: set<int>, l2: set<int>)
    requires Patched(code, code1, l1) && Patched(code1, code2, l2) && l1 !! l2
    requires forall j :: j in l1 && 0 <= j < |code1| ==> !ProducesValue(code1, j)
    requires forall j :: j in l2 && 0 <= j < |code2| ==> !ProducesValue(code2, j)
    ensures Patched(code, code2, l1 + l2)
    ensures forall j :: j in l1 + l2 && 0 <= j < |code2| ==> !ProducesValue(code2, j)
  {
    PatchedTransitive(code, code1, code2, l1, l2);
    forall j | j in l1 && 0 <= j < |code2| ensures !ProducesValue(code2, j) {
      PatchedSameExit(code1, code2, l2, j);
    }
  }

  /** After the values of both lists are removed the code computes `not`. */
  lemma NotCoded(t: Task, d: Delayed, code0: seq<Instr>, d': Delayed)
    requires ExprOk(t, d) && NegatedTail(t.cmp, d, code0, d'.k) && Patched(code0, d'.code, d.tl + d.fl)
    requires forall j :: j in d.tl + d.fl && 0 <= j < |d'.code| ==> !ProducesValue(d'.code, j)
    requires d'.tl == d.fl && d'.fl == d.tl && d'.b == d.b.(code := Base(d'.code, d'.k))
    ensures ExprOk(t.(src := ENot(t.src)), d')
  {
    var own, n := d.tl + d.fl, |code0| - TailLength(d'.k);
    OwnInBase(t, d);
    forall i | 0 <= i < |code0| ensures i < n ==> PatchedAt(d.b.code, d'.b.code, own, i)
      ensures i >= n ==> d'.code[i] == code0[i]
    {
      assert PatchedAt(code0, d'.code, own, i);
    }
    forall r ensures MainValue(Machine(d'.b.k, t.cmp), d'.code, d'.k, r) ==
                     Bool(IsFalse(MainValue(Machine(d.b.k, t.cmp), d.code, d.k, r))) {
      assert NegatedValue(Machine(d.b.k, t.cmp), d, code0, d'.k, r);
    }
    PatchedSnapOk(d.b, d'.b, own);
    NotExpr(t, d, d');
  }

  lemma ComparisonCoded(op: CompareOp, t1: Task, s1: Snap, rk1: nat, t2: Task, s2: Snap, rk2: nat, d: Delayed,
                        nactvar: nat)
    requires OperandOk(t1, s1, rk1) && OperandOk(t2, s2, rk2) && Discharged(s2, d.b)
    requires t2.cmp == t1.cmp && t2.s0 == s1 && t1.n <= t2.n && nactvar <= t1.n && Closed(t2.src, nactvar)
    requires rk1 < t2.n || rk1 >= BITRK
    requires d == Delayed(d.b, d.b.code + [CompareInstr(op, rk1, rk2), Jmp(NO_JUMP)], VJmp(|d.b.code| + 1), {}, {})
    ensures ExprOk(t1.(src := ECompare(op, t1.src, t2.src)), d) && |d.b.code| + 1 !in d.b.pend
  {
    DischargeOperand(t2, s2, d.b, rk2);
    CompareExpr(t1, s1, rk1, t2, d.b, rk2, t1.(src := ECompare(op, t1.src, t2.src)), d, nactvar);
  }

  /** A constant or a local is its own value; constants may have been added. */
  lemma SimpleExpr(t: Task, s: Snap, k: Kind)
    requires SnapOk(t.s0) && s == t.s0.(k := s.k) && t.s0.k <= s.k
    requires TailLength(k) == 0 && (k.VK? ==> k.info < |s.k|)
    requires forall r :: MainValue(Machine(s.k, t.cmp), s.code, k, r) == Eval(t.cmp, t.src, r)
    ensures ExprOk(t, Delayed(s, s.code, k, {}, {}))
  {
    var d := Delayed(s, s.code, k, {}, {});
    var m, m' := Machine(t.s0.k, t.cmp), Machine(s.k, t.cmp);
    RunMoreConstants(m, m', s.code, s.pend, 0, map[]);
    assert d.tl + d.fl == {};
    forall pc: nat, r0 | Starts(t.s0, pc) ensures ExprRun(t, d, pc, r0) {
      RunMoreConstants(m, m', s.code, s.pend, pc, r0);
    }
  }

  /** Lists of the surrounding code stay as they are. */
  lemma OuterKeepsList(t: Task, d: Delayed, head: int, l: seq<int>)
    requires ExprOk(t, d) && IsList(t.s0.code, head, l) && Elems(l) <= Outer(t.s0)
    ensures IsList(d.code, head, l) && Elems(l) !! d.b.here + d.tl + d.fl
  {
    OwnInBase(t, d);
    forall i | 0 <= i < |l| ensures LinkOk(d.code, l, i) {
      assert LinkOk(t.s0.code, l, i) && l[i] in Elems(l);
      assert KeptJump(t.s0.code, d.b.code, l[i]);
    }
  }

  /** JunctionExpr after the lists have been linked. */
  lemma JunctionCoded(t1: Task, s1: Snap, out: set<int>, truth: bool, t2: Task, d2: Delayed, d: Delayed, nactvar: nat)
    requires CondOk(t1, s1, {}, out, truth) && ExprOk(t2, d2)
    requires t2.cmp == t1.cmp && t2.s0 == s1 && t2.n == t1.n && nactvar <= t1.n && Closed(t2.src, nactvar)
    requires Relinked(d2.code, d.code, if truth then d2.fl else d2.tl)
    requires d == d2.(b := d2.b.(code := Base(d.code, d.k)), code := d.code, tl := d.tl, fl := d.fl)
    requires d.tl == (if truth then d2.tl else d2.tl + out) && d.fl == (if truth then d2.fl + out else d2.fl)
    ensures ExprOk(t1.(src := if truth then EAnd(t1.src, t2.src) else EOr(t1.src, t2.src)), d)
  {
    var t := t1.(src := if truth then EAnd(t1.src, t2.src) else EOr(t1.src, t2.src));
    var d1 := if truth then d2.(fl := d2.fl + out) else d2.(tl := d2.tl + out);
    JunctionExpr(t1, s1, out, truth, t2, d2, t, d1, nactvar);
    OwnInBase(t2, d2);
    OwnInBase(t, d1);
    RelinkExpr(t, d1, d);
  }

  /** Parentheses do not change the value. */
  lemma ParenExpr(t1: Task, t: Task, d: Delayed)
    requires ExprOk(t1, d) && t == t1.(src := EParen(t1.src))
    ensures ExprOk(t, d)
  {
    forall pc: nat, r0 | Starts(t.s0, pc) ensures ExprRun(t, d, pc, r0) {
      assert ExprRun(t1, d, pc, r0);
    }
  }

  lemma {:induction false} NeedsRegister(e: Expr)
    ensures Need(e) >= 1
  {
    match e
    case EParen(e1) => NeedsRegister(e1);
    case ENot(e1) => NeedsRegister(e1);
    case EAnd(e1, _) => NeedsRegister(e1);
    case EOr(e1, _) => NeedsRegister(e1);
    case ECompare(_, e1, _) => NeedsRegister(e1);
    case _ =>
  }

  // ---- Lists of expressions ----

  predicate ListFits(srcs: seq<Expr>, nactvar: nat, n: nat) {
    forall i :: 0 <= i < |srcs| ==> Closed(srcs[i], nactvar) && n + i + Need(srcs[i]) < MAXREGS
  }

  /** Register `n + i` holds the value that expression `i` had at the start. */
  ghost predicate ListDelivered(cmp: Comparison, s: Snap, n: nat, srcs: seq<Expr>, r: Regs, o: Outcome) {
    && SameBelow(r, o.r, n) && Arrives(s, o)
    && forall i :: 0 <= i < |srcs| ==> Reg(o.r, n + i) == Eval(cmp, srcs[i], r)
  }

  ghost predicate ListRun(cmp: Comparison, s0: Snap, s: Snap, n: nat, srcs: seq<Expr>, pc: nat, r0: Regs)
    requires SnapOk(s0) && SnapOk(s) && pc <= |s0.code| <= |s.code|
  {
    var o0, o := RunSnap(cmp, s0, pc, r0), RunSnap(cmp, s, pc, r0);
    if Arrives(s0, o0) then ListDelivered(cmp, s, n, srcs, o0.r, o) else o == o0
  }

  ghost predicate ListOk(cmp: Comparison, s0: Snap, s: Snap, n: nat, srcs: seq<Expr>) {
    && SnapOk(s0) && SnapOk(s) && Extends(s0, s, {})
    && forall pc: nat, r0 :: Starts(s0, pc) ==> ListRun(cmp, s0, s, n, srcs, pc, r0)
  }

  lemma EmptyListOk(cmp: Comparison, s: Snap, n: nat)
    requires SnapOk(s)
    ensures ListOk(cmp, s, s, n, [])
  {
    forall pc: nat, r0 | Starts(s, pc) ensures ListRun(cmp, s, s, n, [], pc, r0) {
    }
  }

  /** One more expression, over the same locals. */
  lemma ListStep(cmp: Comparison, s0: Snap, s1: Snap, n: nat, srcs: seq<Expr>, t: Task, s2: Snap, nactvar: nat)
    requires ListOk(cmp, s0, s1, n, srcs) && t.cmp == cmp && t.s0 == s1 && t.n == n + |srcs| < BITRK
    requires OperandOk(t, s2, t.n) && Closed(t.src, nactvar) && nactvar <= n
    ensures ListOk(cmp, s0, s2, n, srcs + [t.src])
  {
    ExtendsTransitive(s0, s1, s2, {}, {});
    var none: set<int> := {};
    assert none + none == none;
    var t0 := Task(cmp, s0, n, t.src);
    forall pc: nat, r0 | Starts(s0, pc) ensures ListRun(cmp, s0, s2, n, srcs + [t.src], pc, r0) {
      assert ListRun(cmp, s0, s1, n, srcs, pc, r0);
      StartsAt(t0, s1, {}, pc, r0);
      assert OperandRun(t, s2, t.n, pc, r0);
      var o0, o1 := RunSnap(cmp, s0, pc, r0), RunSnap(cmp, s1, pc, r0);
      if Arrives(s0, o0) { EvalSame(cmp, t.src, o0.r, o1.r, nactvar); }
    }
  }

  /** The code as a whole computes the expressions into the registers from `n`. */
  ghost predicate Computes(m: Machine, code: seq<Instr>, srcs: seq<Expr>, n: nat, r: Regs)
    requires CodeOk(|m.k|, code, {})
  {
    var o := Run(m, code, {}, 0, r);
    && o.Fall? && SameBelow(r, o.r, n)
    && forall i :: 0 <= i < |srcs| ==> Reg(o.r, n + i) == Eval(m.cmp, srcs[i], r)
  }

  lemma WholeComputes(cmp: Comparison, s0: Snap, s1: Snap, s2: Snap, n: nat, srcs: seq<Expr>)
    requires ListOk(cmp, s0, s1, n, srcs) && s0.code == [] && s0.pend == {} && Discharged(s1, s2)
    ensures SnapOk(s2) && s2.pend == {}
    ensures forall r :: Computes(Machine(s2.k, cmp), s2.code, srcs, n, r)
  {
    DischargedOk(s1, s2);
    assert s1.pend == s1.here && s2.pend == {};
    forall r ensures Computes(Machine(s2.k, cmp), s2.code, srcs, n, r) {
      assert Starts(s0, 0) && ListRun(cmp, s0, s1, n, srcs, 0, r);
      EndRun(cmp, s0, r);
      DischargedRun(cmp, s1, s2, 0, r);
    }
  }

  lemma ComparisonJoins(t: Task, d: Delayed)
    requires ExprOk(t, d) && d.k.VJmp?
    ensures d.b.here == {} && 1 <= d.k.info == |d.code| - 1 && d.code[d.k.info] == Jmp(NO_JUMP) &&
            d.code[d.k.info - 1].Cmp?
    ensures d.k.info !in d.tl + d.fl
    ensures ExprOk(t, Delayed(d.b.(code := d.code, pend := d.b.pend + {d.k.info}), d.code, VFalse, d.tl + {d.k.info},
                              d.fl))
  {
    OwnInBase(t, d);
    JumpJoinsList(t, d, d.b.(code := d.code, pend := d.b.pend + {d.k.info}));
  }

  lemma ReplaceKeepsLists(code: seq<Instr>, code': seq<Instr>, i: nat, e: ExpDesc, tl: seq<int>, fl: seq<int>,
                          jpc: int, here: seq<int>)
    requires i < |code| == |code'| && !code[i].Jmp? && code' == code[i := code'[i]]
    requires IsList(code, e.t, tl) && IsList(code, e.f, fl) && IsList(code, jpc, here)
    ensures IsList(code', e.t, tl) && IsList(code', e.f, fl) && IsList(code', jpc, here)
  {
    ReplaceKeepsList(code, code', i, e.t, tl);
    ReplaceKeepsList(code, code', i, e.f, fl);
    ReplaceKeepsList(code, code', i, jpc, here);
  }

  /** The list of exits when true has been linked to the jump of the comparison. */
  lemma JumpJoined(t: Task, d: Delayed, d': Delayed, head: int, f: int, tl0: seq<int>, tl: seq<int>, fl: seq<int>)
    requires ExprOk(t, d) && d.k.VFalse? && d.tl == Elems(tl) && d.fl == Elems(fl) && tl != []
    requires d' == d.(b := d.b.(code := d'.code), code := d'.code)
    requires Relinked(d.code, d'.code, Elems(tl0)) && Elems(tl0) <= Elems(tl)
    requires IsList(d'.code, head, tl) && IsList(d.code, f, fl)
    ensures ExprOk(t, d') && IsList(d'.code, f, fl) && head != f
  {
    assert Elems(tl0) <= d.b.here + d.tl + d.fl;
    RelinkKeepsList(d.code, d'.code, Elems(tl0), f, fl);
    ListJumps(d.code, f, fl);
    OwnInBase(t, d);
    RelinkExpr(t, d, d');
    if head == f { EqualHeads(d'.code, head, tl, fl); }
  }
}
