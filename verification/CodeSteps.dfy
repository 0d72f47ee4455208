/** What each elementary action of the code generator does to the runs of the
    code: emitting, jumping, patching, adding constants (src/lcode.c). */
module CodeSteps {
  import opened LuaValues
  import opened CodeMachine
  import opened JumpLists
  import opened ExprMeaning

  // ---- dischargejpc ----

  ghost predicate Discharged(s: Snap, s': Snap) {
    && s'.k == s.k && s'.lasttarget == s.lasttarget && s'.here == {} && s'.pend == s.pend - s.here
    && Patched(s.code, s'.code, s.here)
    && forall j :: j in s.here ==> LeadsTo(s'.code, j, |s'.code|)
  }

  /** A jump without value to `dest`. */
  predicate LeadsTo(code: seq<Instr>, j: int, dest: int) {
    0 <= j < |code| && code[j].Jmp? && Target(code, j) == dest && !ProducesValue(code, j)
  }

  lemma EndIsEntry(nk: nat, code: seq<Instr>, pend: set<int>)
    requires CodeOk(nk, code, pend)
    ensures IsEntry(code, |code|)
  {
    if |code| > 0 { assert InstrOk(nk, code, pend, |code| - 1); }
  }

  lemma PatchedTests(code: seq<Instr>, code': seq<Instr>, list: set<int>)
    requires Patched(code, code', list)
    ensures forall i :: 0 <= i < |code| ==> IsTest(code'[i]) == IsTest(code[i]) && code'[i].Jmp? == code[i].Jmp?
    ensures forall i :: 0 <= i < |code| && code[i].LoadBool? ==> code'[i] == code[i]
    ensures forall i :: 0 <= i < |code| && code'[i].LoadBool? ==> code'[i] == code[i]
    ensures forall i :: 0 <= i < |code| && code'[i].TestSet? ==> code[i].TestSet? && code'[i].b == code[i].b
  {
    forall i | 0 <= i < |code|
      ensures IsTest(code'[i]) == IsTest(code[i]) && code'[i].Jmp? == code[i].Jmp?
      ensures code[i].LoadBool? || code'[i].LoadBool? ==> code'[i] == code[i]
      ensures code'[i].TestSet? ==> code[i].TestSet? && code'[i].b == code[i].b
    {
      assert PatchedAt(code, code', list, i);
    }
  }

  /** Patching keeps every jump outside its list, with its test. */
  lemma PatchedKeeps(code: seq<Instr>, code': seq<Instr>, list: set<int>, j: nat)
    requires Patched(code, code', list) && j < |code| && j !in list && code[j].Jmp?
    ensures KeptJump(code, code', j)
  {
    assert PatchedAt(code, code', list, j);
    if j > 0 {
      var i := j - 1;
      assert PatchedAt(code, code', list, i);
      assert i + 1 !in list;
    }
  }

  /** Patching `list` in a state that goes on with the same code otherwise. */
  lemma PatchedExtends(s: Snap, s': Snap, list: set<int>)
    requires SnapOk(s) && s'.k == s.k && Patched(s.code, s'.code, list) && s.lasttarget <= s'.lasttarget
    requires list !! Outer(s) && Outer(s) !! s'.here && s'.pend == Outer(s) + s'.here
    ensures Extends(s, s', {})
  {
    PatchedTests(s.code, s'.code, list);
    forall j | j in Outer(s) && 0 <= j < |s.code| ensures KeptJump(s.code, s'.code, j) {
      PatchedKeeps(s.code, s'.code, list, j);
    }
  }

  /** Targets stay below the last label when patched jumps do. */
  lemma PatchedSnapOk(s: Snap, s': Snap, list: set<int>)
    requires SnapOk(s) && s'.k == s.k && Patched(s.code, s'.code, list) && list <= s.pend
    requires s.pend - list <= s'.pend <= s.pend && s'.here <= s'.pend
    requires s.lasttarget <= s'.lasttarget <= |s.code| && (s'.here != {} ==> s'.lasttarget == |s.code|)
    requires forall j :: j in list && j !in s'.pend ==>
               0 <= j < |s'.code| && s'.code[j].Jmp? && j < Target(s'.code, j) <= s'.lasttarget &&
               IsEntry(s'.code, Target(s'.code, j))
    ensures SnapOk(s')
  {
    PatchedOk(|s.k|, s.code, s'.code, s.pend, s'.pend, list);
    PatchedTests(s.code, s'.code, list);
    forall i | 0 <= i < |s'.code| && s'.code[i].Jmp? && i !in s'.pend ensures Target(s'.code, i) <= s'.lasttarget {
      assert PatchedAt(s.code, s'.code, list, i);
    }
  }

  lemma DischargedOk(s: Snap, s': Snap)
    requires SnapOk(s) && Discharged(s, s')
    ensures SnapOk(s') && Extends(s, s', {})
  {
    PatchedTests(s.code, s'.code, s.here);
    EndIsEntry(|s.k|, s.code, s.pend);
    assert IsEntry(s'.code, |s'.code|);
    forall j | j in s.here ensures 0 <= j < |s'.code| && s'.code[j].Jmp? && Target(s'.code, j) == |s'.code| {
      assert LeadsTo(s'.code, j, |s'.code|);
    }
    PatchedSnapOk(s, s', s.here);
    PatchedExtends(s, s', s.here);
  }

  lemma DischargedRun(cmp: Comparison, s: Snap, s': Snap, pc: nat, r: Regs)
    requires SnapOk(s) && SnapOk(s') && Discharged(s, s') && IsEntry(s.code, pc)
    ensures var o := RunSnap(cmp, s, pc, r);
            RunSnap(cmp, s', pc, r) == if Arrives(s, o) then Fall(o.r) else o
  {
    var m := Machine(s.k, cmp);
    forall j | j in s.here ensures 0 <= j < |s'.code| && s'.code[j].Jmp? {
      assert LeadsTo(s'.code, j, |s'.code|);
    }
    RunPatched(m, s.code, s'.code, s.pend, s.here, pc, r);
    var o := RunSnap(cmp, s, pc, r);
    if o.Exit? && o.j in s.here {
      assert LeadsTo(s'.code, o.j, |s'.code|);
    }
  }

  // ---- Adding instructions at the end ----

  /** `ext` is put behind the code, its jumps at `added` still pending. */
  ghost predicate Appended(s: Snap, s': Snap, ext: seq<Instr>, added: set<int>) {
    && s.k <= s'.k && s'.code == s.code + ext && s'.pend == s.pend + added
    && (forall j :: j in added ==> |s.code| <= j < |s'.code|)
  }

  lemma AppendedRun(cmp: Comparison, s: Snap, s': Snap, ext: seq<Instr>, added: set<int>, pc: nat, r: Regs)
    requires SnapOk(s) && SnapOk(s') && Appended(s, s', ext, added) && pc <= |s.code|
    ensures var o := RunSnap(cmp, s, pc, r);
            RunSnap(cmp, s', pc, r) == if o.Fall? then RunSnap(cmp, s', |s.code|, o.r) else o
  {
    var m, m' := Machine(s.k, cmp), Machine(s'.k, cmp);
    RunMoreConstants(m, m', s.code, s.pend, pc, r);
    RunPrefix(m', s.code, s.pend, s'.code, s'.pend, pc, r);
  }

  /** Each instruction of `ext` is in order where it stands. */
  ghost predicate ExtOk(nk: nat, code: seq<Instr>, ext: seq<Instr>, pend: set<int>) {
    forall i :: |code| <= i < |code| + |ext| ==> InstrOk(nk, code + ext, pend, i)
  }

  lemma AppendedCodeOk(nk: nat, nk': nat, code: seq<Instr>, pend: set<int>, ext: seq<Instr>, added: set<int>)
    requires CodeOk(nk, code, pend) && nk <= nk' && ExtOk(nk', code, ext, pend + added)
    requires forall j :: j in added ==> |code| <= j < |code| + |ext| && (code + ext)[j].Jmp?
    ensures CodeOk(nk', code + ext, pend + added)
  {
    var code', pend' := code + ext, pend + added;
    EndIsEntry(nk, code, pend);
    forall i | 0 <= i < |code'| ensures InstrOk(nk', code', pend', i) {
      if i < |code| {
        assert InstrOk(nk, code, pend, i);
        assert code'[i] == code[i] && (i + 1 < |code| ==> code'[i + 1] == code[i + 1]);
        if code[i].Jmp? && i !in pend {
          var tgt := Target(code, i);
          assert tgt > 0 ==> code'[tgt - 1] == code[tgt - 1];
        }
      }
    }
  }

  lemma AppendedExtends(s: Snap, s': Snap, ext: seq<Instr>, added: set<int>, own: set<int>)
    requires SnapOk(s) && Appended(s, s', ext, added) && s.lasttarget <= s'.lasttarget
    requires s'.here !! own && s'.here + own == s.here + added
    ensures Extends(s, s', own)
  {
    forall x | x in Outer(s) ensures x !in s'.here + own {
      assert x in s.pend && x < |s.code|;
    }
  }

  /** Instructions that stand alone: no jump, no test, nothing skipped. */
  predicate IsPlain(i: Instr) {
    !i.Jmp? && !IsTest(i) && !SkipsNext(i)
  }

  lemma PlainAppended(s: Snap, s': Snap, i: Instr)
    requires SnapOk(s) && s.here == {} && s'.here == {} && s'.lasttarget == s.lasttarget
    requires Appended(s, s', [i], {}) && IsPlain(i) && ConstantsIn(|s'.k|, i)
    ensures SnapOk(s') && Extends(s, s', {})
  {
    AppendedCodeOk(|s.k|, |s'.k|, s.code, s.pend, [i], {});
    assert s.pend + {} == s.pend;
    AppendedExtends(s, s', [i], {}, {});
    KeptTargets(s, s', [i]);
  }

  lemma KeptTargets(s: Snap, s': Snap, ext: seq<Instr>)
    requires SnapOk(s) && s'.code == s.code + ext
    ensures forall i :: 0 <= i < |s.code| && s'.code[i].Jmp? && i !in s.pend ==> Target(s'.code, i) <= s.lasttarget
    ensures forall i :: 0 <= i < |s.code| && s'.code[i].LoadBool? && s'.code[i].skip ==> i + 2 <= s.lasttarget
  {
    assert forall i :: 0 <= i < |s.code| ==> s'.code[i] == s.code[i];
  }

  lemma EndRun(cmp: Comparison, s: Snap, r: Regs)
    requires SnapOk(s)
    ensures RunSnap(cmp, s, |s.code|, r) == Fall(r)
  {
  }

  lemma PlainRun(cmp: Comparison, s: Snap, s': Snap, i: Instr, pc: nat, r: Regs)
    requires SnapOk(s) && SnapOk(s') && Appended(s, s', [i], {}) && IsPlain(i) && pc <= |s.code|
    ensures var o := RunSnap(cmp, s, pc, r);
            RunSnap(cmp, s', pc, r) == if o.Fall? then Fall(Effect(Machine(s'.k, cmp), i, i, o.r)) else o
  {
    AppendedRun(cmp, s, s', [i], {}, pc, r);
    assert s'.code[|s.code|] == i;
    var o := RunSnap(cmp, s, pc, r);
    EndRun(cmp, s', Effect(Machine(s'.k, cmp), i, i, o.r));
  }

  /** A constant too far for LOADK takes two instructions. */
  lemma LoadKXAppended(s: Snap, s': Snap, a: nat, ax: nat)
    requires SnapOk(s) && s.here == {} && s'.here == {} && s'.lasttarget == s.lasttarget
    requires Appended(s, s', [LoadKX(a), ExtraArg(ax)], {}) && ax < |s'.k|
    ensures SnapOk(s') && Extends(s, s', {})
  {
    var ext := [LoadKX(a), ExtraArg(ax)];
    AppendedCodeOk(|s.k|, |s'.k|, s.code, s.pend, ext, {});
    assert s.pend + {} == s.pend;
    AppendedExtends(s, s', ext, {}, {});
    KeptTargets(s, s', ext);
  }

  lemma LoadKXRun(cmp: Comparison, s: Snap, s': Snap, a: nat, ax: nat, pc: nat, r: Regs)
    requires SnapOk(s) && SnapOk(s') && Appended(s, s', [LoadKX(a), ExtraArg(ax)], {}) && pc <= |s.code|
    ensures var o := RunSnap(cmp, s, pc, r);
            RunSnap(cmp, s', pc, r) == if o.Fall? then Fall(o.r[a := Kst(Machine(s'.k, cmp), ax)]) else o
  {
    AppendedRun(cmp, s, s', [LoadKX(a), ExtraArg(ax)], {}, pc, r);
    assert s'.code[|s.code|] == LoadKX(a) && s'.code[|s.code| + 1] == ExtraArg(ax);
    var o := RunSnap(cmp, s, pc, r);
    EndRun(cmp, s', o.r[a := Kst(Machine(s'.k, cmp), ax)]);
  }

  // ---- Jumps ----

  /** A test and its jump: the jump is left pending. */
  lemma TestAppended(s: Snap, s': Snap, test: Instr)
    requires SnapOk(s) && s.here == {} && s'.here == {} && s'.lasttarget == s.lasttarget
    requires Appended(s, s', [test, Jmp(NO_JUMP)], {|s.code| + 1}) && IsTest(test) && ConstantsIn(|s'.k|, test)
    ensures SnapOk(s') && Extends(s, s', {|s.code| + 1})
  {
    var ext, added := [test, Jmp(NO_JUMP)], {|s.code| + 1};
    AppendedCodeOk(|s.k|, |s'.k|, s.code, s.pend, ext, added);
    AppendedExtends(s, s', ext, added, added);
    KeptTargets(s, s', ext);
  }

  lemma TestRun(cmp: Comparison, s: Snap, s': Snap, test: Instr, pc: nat, r: Regs)
    requires SnapOk(s) && SnapOk(s') && IsTest(test) && pc <= |s.code|
    requires Appended(s, s', [test, Jmp(NO_JUMP)], {|s.code| + 1})
    ensures var o := RunSnap(cmp, s, pc, r);
            RunSnap(cmp, s', pc, r) ==
              if !o.Fall? then o
              else if Taken(Machine(s'.k, cmp), test, o.r) then Exit(|s.code| + 1, o.r)
              else Fall(o.r)
  {
    AppendedRun(cmp, s, s', [test, Jmp(NO_JUMP)], {|s.code| + 1}, pc, r);
    assert s'.code[|s.code|] == test && s'.code[|s.code| + 1] == Jmp(NO_JUMP);
    var o := RunSnap(cmp, s, pc, r);
    EndRun(cmp, s', o.r);
  }

  /** luaK_jump: an unconditional jump, which takes over the jumps to here. */
  lemma JumpAppended(s: Snap, s': Snap)
    requires SnapOk(s) && s'.here == {} && s'.lasttarget == s.lasttarget
    requires Appended(s, s', [Jmp(NO_JUMP)], {|s.code|})
    ensures SnapOk(s') && Extends(s, s', s.here + {|s.code|})
  {
    var added := {|s.code|};
    AppendedCodeOk(|s.k|, |s'.k|, s.code, s.pend, [Jmp(NO_JUMP)], added);
    AppendedExtends(s, s', [Jmp(NO_JUMP)], added, s.here + added);
    KeptTargets(s, s', [Jmp(NO_JUMP)]);
  }

  lemma JumpRun(cmp: Comparison, s: Snap, s': Snap, pc: nat, r: Regs)
    requires SnapOk(s) && SnapOk(s') && Appended(s, s', [Jmp(NO_JUMP)], {|s.code|}) && pc <= |s.code|
    ensures var o := RunSnap(cmp, s, pc, r);
            RunSnap(cmp, s', pc, r) == if o.Fall? then Exit(|s.code|, o.r) else o
  {
    AppendedRun(cmp, s, s', [Jmp(NO_JUMP)], {|s.code|}, pc, r);
    assert s'.code[|s.code|] == Jmp(NO_JUMP);
  }

  /** luaK_patchtohere: the jumps of a list now lead to the end of the code. */
  lemma PatchedToHere(s: Snap, s': Snap, list: set<int>, own: set<int>)
    requires SnapOk(s) && list <= s.pend - s.here && own <= s.pend - s.here && own !! list
    requires s' == s.(here := s.here + list, lasttarget := |s.code|)
    ensures SnapOk(s')
    ensures forall s0 :: Extends(s0, s, list + own) ==> Extends(s0, s', own)
  {
    forall s0 | Extends(s0, s, list + own) ensures Extends(s0, s', own) {
    }
  }

  /** Patching the pending lists that `s` has on top of `s0`. */
  lemma OwnPatched(s0: Snap, s: Snap, s': Snap, own: set<int>, own': set<int>, list: set<int>)
    requires SnapOk(s0) && SnapOk(s) && Extends(s0, s, own)
    requires s.k <= s'.k && Patched(s.code, s'.code, list) && list <= own + s.here
    requires s.lasttarget <= s'.lasttarget && s'.pend == Outer(s0) + s'.here + own'
    requires s'.here !! own' && s'.here + own' <= s.here + own
    ensures Extends(s0, s', own')
  {
    PatchedTests(s.code, s'.code, list);
    forall j | j in Outer(s0) && 0 <= j < |s0.code| ensures KeptJump(s0.code, s'.code, j) {
      assert KeptJump(s0.code, s.code, j);
      PatchedKeeps(s.code, s'.code, list, j);
    }
  }

  /** Only links of pending jumps differ. */
  ghost predicate Relinked(code: seq<Instr>, code': seq<Instr>, list: set<int>) {
    && |code'| == |code|
    && forall i :: 0 <= i < |code| ==> if i in list then code[i].Jmp? && code'[i].Jmp? else code'[i] == code[i]
  }

  lemma RelinkedIsPatched(code: seq<Instr>, code': seq<Instr>, list: set<int>)
    requires Relinked(code, code', list)
    ensures Patched(code, code', list)
  {
    forall i | 0 <= i < |code| ensures PatchedAt(code, code', list, i) {
    }
  }

  /** The test behind an exit says the same about the value. */
  predicate SameExit(code: seq<Instr>, code': seq<Instr>, j: int) {
    && 0 <= j < |code| <= |code'|
    && ProducesValue(code', j) == ProducesValue(code, j)
    && (ProducesValue(code, j) ==> code'[j - 1].b == code[j - 1].b)
  }

  lemma PatchedSameExit(code: seq<Instr>, code': seq<Instr>, list: set<int>, j: nat)
    requires Patched(code, code', list) && j < |code| && j !in list
    ensures SameExit(code, code', j)
  {
    if j > 0 {
      var i := j - 1;
      assert PatchedAt(code, code', list, i);
      assert i + 1 !in list;
    }
  }

  lemma RelinkedSameExit(code: seq<Instr>, code': seq<Instr>, list: set<int>, j: nat)
    requires Relinked(code, code', list) && j < |code|
    ensures SameExit(code, code', j)
  {
  }
}
