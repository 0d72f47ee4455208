/** The code generator for expressions (src/lcode.c, driven as by subexpr in
    src/lparser.c). Ghost parameters carry what is being compiled and the
    elements of the patch lists. */
module CodeGenerator {
  import opened LuaValues
  import opened CodeMachine
  import opened JumpLists
  import opened ExprMeaning
  import opened CodeSteps
  import opened ExprSteps
  import opened GeneratorSteps

  class FuncState {
    const cmp: Comparison
    const nactvar: nat
    var code: seq<Instr>
    var k: seq<Value>
    var scanner: map<Value, nat>  // the scanner's cache of constant positions
    var lasttarget: int
    var jpc: int
    var freereg: nat
    ghost var here: seq<int>
    ghost var pend: set<int>

    /** The state as far as running the code is concerned. */
    ghost function Now(): Snap
      reads this`k, this`code, this`pend, this`here, this`lasttarget
    {
      Snap(k, code, pend, Elems(here), lasttarget)
    }

    /** fixjump */
    method FixJump(j: nat, dest: int)
      requires j < |code| && code[j].Jmp? && dest != NO_JUMP
      modifies this`code
      ensures code == old(code)[j := Jmp(dest - (j + 1))]
    {
      code := code[j := Jmp(dest - (j + 1))];
    }

    /** luaK_concat: the list `l2` behind the list `l1`. */
    method Concat(l1: int, l2: int, ghost s1: seq<int>, ghost s2: seq<int>) returns (l: int)
      requires IsList(code, l1, s1) && IsList(code, l2, s2) && Elems(s1) !! Elems(s2)
      modifies this`code
      ensures IsList(code, l, s1 + s2) && Relinked(old(code), code, Elems(s1))
      ensures s2 == [] ==> code == old(code) && l == l1
    {
      ListJumps(code, l1, s1);
      if l2 == NO_JUMP {
        EmptyList(code, l2, s2);
        assert s1 + s2 == s1;
        return l1;
      } else if l1 == NO_JUMP {
        EmptyList(code, l1, s1);
        assert s1 + s2 == s2;
        return l2;
      }
      ghost var i := 0;
      var list := l1;
      ListTail(code, l1, s1);
      assert LinkOk(code, s1, 0);
      var next := GetJump(code, list);
      NextInList(code, s1, i);
      while next != NO_JUMP
        invariant code == old(code) && 0 <= i < |s1| && list == s1[i] && 0 <= list < |code| && code[list].Jmp?
        invariant next == GetJump(code, list) && (i + 1 < |s1| ==> next >= 0)
        decreases |s1| - i
      {
        assert LinkOk(code, s1, i) && LinkOk(code, s1, i + 1);
        list, i := next, i + 1;
        next := GetJump(code, list);
        NextInList(code, s1, i);
      }
      assert LinkOk(code, s2, 0);
      FixJump(list, l2);
      LinkLists(old(code), code, l1, l2, s1, s2);
      l := l1;
    }

    /** patchtestreg */
    method PatchTestReg(node: nat, reg: nat) returns (done: bool)
      requires node < |code| && code[node].Jmp?
      modifies this`code
      ensures done <==> old(ProducesValue(code, node))
      ensures !done ==> code == old(code)
      ensures done ==> code == old(code)[node - 1 := TestSetTo(old(code)[node - 1], reg)]
    {
      var i := Control(code, node);
      if !code[i].TestSet? {
        return false;
      }
      if reg != NO_REG && reg != code[i].b {
        code := code[i := TestSet(reg, code[i].b, code[i].c)];
      } else {
        code := code[i := Test(code[i].b, code[i].c)];
      }
      return true;
    }

    /** removevalues */
    method RemoveValues(head: int, ghost s: seq<int>)
      requires IsList(code, head, s)
      modifies this`code
      ensures IsList(code, head, s) && Patched(old(code), code, Elems(s))
      ensures forall j :: j in Elems(s) && 0 <= j < |code| ==> !ProducesValue(code, j)
      ensures forall i :: 0 <= i < |code| && i + 1 !in Elems(s) ==> code[i] == old(code)[i]
    {
      ghost var i, code0 := 0, code;
      var list := head;
      while list != NO_JUMP
        invariant 0 <= i <= |s| && list == (if i < |s| then s[i] else NO_JUMP)
        invariant |code| == |code0| && ValuesRemoved(code0, code, s, i)
        decreases |s| - i
      {
        assert LinkOk(code0, s, i);
        RemovalStep(code0, code, s, i);
        var done := PatchTestReg(list, NO_REG);
        list, i := GetJump(code, list), i + 1;
      }
      EndOfList(code0, s, i, list);
      ValuesAllRemoved(code0, code, head, s);
    }

    /** patchlistaux: tests that produce values jump to `vtarget` and put them in
        `reg`, other tests jump to `dtarget`. */
    method PatchListAux(head: int, vtarget: int, reg: nat, dtarget: int, ghost s: seq<int>)
      requires IsList(code, head, s)
      requires vtarget != NO_JUMP && (dtarget == NO_JUMP ==> forall j :: j in s && 0 <= j < |code| ==>
                                      ProducesValue(code, j))
      modifies this`code
      ensures Patched(old(code), code, Elems(s))
      ensures forall j :: j in Elems(s) ==> PatchedTo(old(code), code, j, vtarget, reg, dtarget)
    {
      ghost var i, code0 := 0, code;
      var list := head;
      while list != NO_JUMP
        invariant 0 <= i <= |s| && list == (if i < |s| then s[i] else NO_JUMP)
        invariant ListPatched(code0, code, s, i, vtarget, reg, dtarget)
        decreases |s| - i
      {
        assert LinkOk(code0, s, i);
        assert s[i] in s;
        UntouchedYet(code0, code, s, i, vtarget, reg, dtarget);
        ghost var code1 := code;
        var next := GetJump(code, list);
        var done := PatchTestReg(list, reg);
        if done {
          FixJump(list, vtarget);
        } else {
          FixJump(list, dtarget);
        }
        PatchStep(code0, code1, code, s, i, vtarget, reg, dtarget);
        list, i := next, i + 1;
      }
      EndOfList(code0, s, i, list);
      ListAllPatched(code0, code, head, s, vtarget, reg, dtarget);
    }

    /** need_value: some test of the list produces no value. */
    method NeedValue(head: int, ghost s: seq<int>) returns (need: bool)
      requires IsList(code, head, s)
      ensures need <==> exists j :: j in Elems(s) && 0 <= j < |code| && !ProducesValue(code, j)
    {
      ghost var i := 0;
      var list := head;
      while list != NO_JUMP
        invariant 0 <= i <= |s| && list == (if i < |s| then s[i] else NO_JUMP)
        invariant forall j :: j in s[..i] && 0 <= j < |code| ==> ProducesValue(code, j)
        decreases |s| - i
      {
        assert LinkOk(code, s, i);
        assert s[..i + 1] == s[..i] + [s[i]];
        if !code[Control(code, list)].TestSet? {
          assert s[i] in Elems(s);
          return true;
        }
        list, i := GetJump(code, list), i + 1;
      }
      EndOfList(code, s, i, list);
      assert s[..|s|] == s;
      return false;
    }

    /** The pending jumps to here form a list. */
    ghost predicate HereOk()
      reads this`code, this`jpc, this`here
    {
      IsList(code, jpc, here)
    }

    /** dischargejpc */
    method DischargeJpc()
      requires HereOk() && Elems(here) <= pend
      modifies this`code, this`jpc, this`here, this`pend
      ensures Discharged(old(Now()), Now()) && here == [] && jpc == NO_JUMP && HereOk()
    {
      ghost var code0 := code;
      PatchListAux(jpc, |code|, NO_REG, |code|, here);
      forall j | j in Elems(here) ensures LeadsTo(code, j, |code|) {
        assert PatchedTo(code0, code, j, |code0|, NO_REG, |code0|);
      }
      jpc := NO_JUMP;
      pend := pend - Elems(here);
      here := [];
    }

    /** luaK_code: jumps to here are settled first; `mid` is the state then. */
    method Code(i: Instr) returns (pc: nat, ghost mid: Snap)
      requires HereOk() && Elems(here) <= pend
      modifies this`code, this`jpc, this`here, this`pend
      ensures Discharged(old(Now()), mid) && code == mid.code + [i] && Now() == mid.(code := code)
      ensures here == [] && jpc == NO_JUMP && HereOk() && pc == |mid.code|
    {
      DischargeJpc();
      mid := Now();
      code := code + [i];
      pc := |code| - 1;
    }

    /** luaK_jump: the new jump takes over the pending jumps to here. */
    method Jump() returns (j: int)
      requires HereOk() && Elems(here) <= pend
      modifies this`code, this`jpc, this`here, this`pend
      ensures j == |old(code)| && |code| == j + 1 && code[j].Jmp?
      ensures IsList(code, j, [j] + old(here)) && code[..j] == old(code)
      ensures here == [] && jpc == NO_JUMP && HereOk() && pend == old(pend) + {j}
      ensures old(here) == [] ==> code[j] == Jmp(NO_JUMP)
    {
      ghost var waiting := here;
      var list := jpc;
      jpc, here := NO_JUMP, [];
      ghost var mid;
      j, mid := Code(Jmp(NO_JUMP));
      pend := pend + {j};
      NothingDischarged(old(code), mid.code);
      AppendKeepsList(old(code), [Jmp(NO_JUMP)], list, waiting);
      assert LinkOk(code, [j], 0);
      ListJumps(old(code), list, waiting);
      var l := Concat(j, list, [j], waiting);
      assert code[..j] == old(code);
    }

    // ---- Delayed expressions ----

    ghost function Delay(k1: Kind, tl: seq<int>, fl: seq<int>): Delayed
      reads this`k, this`code, this`pend, this`here, this`lasttarget
    {
      Delayed(Now().(code := Base(code, k1)), code, k1, Elems(tl), Elems(fl))
    }

    /** `e` describes the code generated so far for its task, and `tl` and `fl` are
        the elements of its patch lists. */
    ghost predicate Holds(t: Task, e: ExpDesc, tl: seq<int>, fl: seq<int>)
      reads this`k, this`code, this`pend, this`here, this`lasttarget, this`jpc
    {
      && t.cmp == cmp && nactvar <= t.n && HereOk()
      && ExprOk(t, Delay(e.k, tl, fl)) && IsList(code, e.t, tl) && IsList(code, e.f, fl)
    }

    /** Registers in use while `e` is the only expression alive. */
    predicate RegsOk(t: Task, e: ExpDesc)
      reads this`freereg
    {
      && freereg == t.n + (if IsTemp(e.k) then 1 else 0)
      && (IsTemp(e.k) ==> e.k.info == t.n)
      && (e.k.VLocal? ==> e.k.info < nactvar)
    }

    /** Constants are true, except those made for operands. */
    predicate TrueConstant(e: ExpDesc)
      reads this`k
    {
      e.k.VK? ==> e.k.info < |k| && !IsFalse(k[e.k.info])
    }

    predicate IsTemp(k1: Kind) {
      k1.VNonReloc? && k1.info >= nactvar
    }

    /** luaK_dischargevars, for the kinds of variables there are here. */
    method DischargeVars(e: ExpDesc, ghost t: Task, ghost tl: seq<int>, ghost fl: seq<int>) returns (e': ExpDesc)
      requires Holds(t, e, tl, fl)
      ensures Holds(t, e', tl, fl) && (RegsOk(t, e) ==> RegsOk(t, e'))
      ensures e' == if e.k.VLocal? then e.(k := VNonReloc(e.k.info)) else e
    {
      if e.k.VLocal? {
        e' := e.(k := VNonReloc(e.k.info));
        SameMeaning(t, Delay(e.k, tl, fl), e'.k);
      } else {
        e' := e;
      }
    }

    /** luaK_checkstack and luaK_reserveregs, within the register limit. */
    method ReserveRegs(n: nat)
      requires freereg + n < MAXREGS
      modifies this`freereg
      ensures freereg == old(freereg) + n
    {
      freereg := freereg + n;
    }

    /** freeexp: the register of a temporary is the last one reserved. */
    method FreeExp(e: ExpDesc)
      requires IsTemp(e.k) ==> freereg == e.k.info + 1
      modifies this`freereg
      ensures freereg == if IsTemp(e.k) then e.k.info else old(freereg)
    {
      if e.k.VNonReloc? && e.k.info >= nactvar {
        freereg := freereg - 1;
        assert e.k.info == freereg;
      }
    }

    /** The cache knows the indices of all constants; so there are no two equal ones. */
    static predicate Cached(k: seq<Value>, scanner: map<Value, nat>) {
      forall i :: 0 <= i < |k| ==> k[i] in scanner && scanner[k[i]] == i
    }

    /** addk: the index of a constant, reused when the scanner's cache knows it. */
    method AddK(v: Value) returns (i: nat)
      modifies this`k, this`scanner
      ensures old(k) <= k && i < |k| <= old(|k|) + 1 && k[i] == v
      ensures Cached(old(k), old(scanner)) ==> Cached(k, scanner) && (v in old(k) ==> k == old(k))
    {
      if v in scanner && scanner[v] < |k| && k[scanner[v]] == v {
        return scanner[v];
      }
      i := |k|;
      scanner := scanner[v := i];
      k := k + [v];
    }

    /** addk under a delayed expression. */
    method AddConstant(v: Value, e: ExpDesc, ghost t: Task, ghost tl: seq<int>, ghost fl: seq<int>) returns (i: nat)
      requires Holds(t, e, tl, fl) && Settled(e.k)
      modifies this`k, this`scanner
      ensures Holds(t, e, tl, fl) && old(k) <= k && i < |k| <= old(|k|) + 1 && k[i] == v
    {
      ghost var d := Delay(e.k, tl, fl);
      i := AddK(v);
      ConstantsExpr(t, d, k);
      assert Delay(e.k, tl, fl) == d.(b := d.b.(k := k));
    }

    /** A plain instruction, coded to put the value of `e` in `reg`. */
    method EmitLoad(i: Instr, reg: nat, e: ExpDesc, ghost t: Task, ghost tl: seq<int>, ghost fl: seq<int>)
      returns (e': ExpDesc)
      requires Holds(t, e, tl, fl) && Settled(e.k) && IsPlain(i) && ConstantsIn(|k|, i) && reg >= t.n
      requires Loads1(Machine(k, cmp), i, reg, e.k)
      modifies this`code, this`jpc, this`here, this`pend
      ensures e' == e.(k := VNonReloc(reg)) && Holds(t, e', tl, fl)
      ensures |code| == |old(code)| + 1 && code[|code| - 1] == i
    {
      ghost var d := Delay(e.k, tl, fl);
      assert d.b == Now();
      var pc;
      ghost var mid;
      pc, mid := Code(i);
      e' := e.(k := VNonReloc(reg));
      DischargeExpr(t, d, mid);
      CodeKeepsList(d.b, mid, i, e.t, tl);
      CodeKeepsList(d.b, mid, i, e.f, fl);
      LoadExpr(t, d.(b := mid, code := mid.code), Now(), i, reg);
    }

    /** The code ends with a LOADNIL for registers next to this one or around it. */
    static predicate JoinsLast(code: seq<Instr>, reg: nat) {
      && code != [] && code[|code| - 1].LoadNil?
      && var (first, last) := (code[|code| - 1].a, code[|code| - 1].a + code[|code| - 1].n);
         first <= reg + 1 && reg <= last + 1
    }

    /** luaK_nil for one register, merging with a LOADNIL just before when no jump
        leads between the two. */
    method EmitNil(reg: nat, e: ExpDesc, ghost t: Task, ghost tl: seq<int>, ghost fl: seq<int>) returns (e': ExpDesc)
      requires Holds(t, e, tl, fl) && e.k == VNil && reg >= t.n
      modifies this`code, this`jpc, this`here, this`pend
      ensures e' == e.(k := VNonReloc(reg)) && Holds(t, e', tl, fl)
      ensures if old(|code| > lasttarget && JoinsLast(code, reg))
              then |code| == |old(code)| && forall i :: 0 <= i < |code| - 1 ==> code[i] == old(code)[i]
              else |code| == |old(code)| + 1 && code[|code| - 1] == LoadNil(reg, 0)
    {
      if |code| > lasttarget {
        assert |code| > 0 by { assert SnapOk(Delay(e.k, tl, fl).b); }
        var previous := code[|code| - 1];
        if previous.LoadNil? {
          var from, l, pfrom, pl := reg, reg, previous.a, previous.a + previous.n;
          if (pfrom <= from && from <= pl + 1) || (from <= pfrom && pfrom <= l + 1) {
            if pfrom < from { from := pfrom; }
            if pl > l { l := pl; }
            e' := MergeNil(reg, from, l - from, e, t, tl, fl);
            return;
          }
        }
      }
      e' := EmitLoad(LoadNil(reg, 0), reg, e, t, tl, fl);
    }

    /** The final LOADNIL gets its new range. */
    method MergeNil(reg: nat, from: nat, n: nat, e: ExpDesc, ghost t: Task, ghost tl: seq<int>, ghost fl: seq<int>)
      returns (e': ExpDesc)
      requires Holds(t, e, tl, fl) && e.k == VNil && reg >= t.n
      requires 0 < |code| && code[|code| - 1].LoadNil? && |code| > lasttarget
      requires Joined(code[|code| - 1].a, code[|code| - 1].n, reg, 0, from, n)
      modifies this`code
      ensures e' == e.(k := VNonReloc(reg)) && Holds(t, e', tl, fl)
      ensures code == old(code)[|old(code)| - 1 := LoadNil(from, n)]
    {
      ghost var d, code0 := Delay(e.k, tl, fl), code;
      code := code[|code| - 1 := LoadNil(from, n)];
      NilMergedExpr(t, d, Now(), code0[|code| - 1].a, code0[|code| - 1].n, reg, from, n);
      ReplaceKeepsLists(code0, code, |code| - 1, e, tl, fl, jpc, here);
      e' := e.(k := VNonReloc(reg));
    }

    /** luaK_codek */
    method EmitConstant(reg: nat, e: ExpDesc, ghost t: Task, ghost tl: seq<int>, ghost fl: seq<int>)
      returns (e': ExpDesc)
      requires Holds(t, e, tl, fl) && e.k.VK? && reg >= t.n
      modifies this`code, this`jpc, this`here, this`pend
      ensures e' == e.(k := VNonReloc(reg)) && Holds(t, e', tl, fl)
      ensures |code| == |old(code)| + if e.k.info <= MAXARG_BX then 1 else 2
    {
      if e.k.info <= MAXARG_BX {
        e' := EmitLoad(LoadK(reg, e.k.info), reg, e, t, tl, fl);
      } else {
        e' := EmitFarConstant(reg, e, t, tl, fl);
      }
    }

    /** OP_LOADKX and its extra argument. */
    method EmitFarConstant(reg: nat, e: ExpDesc, ghost t: Task, ghost tl: seq<int>, ghost fl: seq<int>)
      returns (e': ExpDesc)
      requires Holds(t, e, tl, fl) && e.k.VK? && reg >= t.n
      modifies this`code, this`jpc, this`here, this`pend
      ensures e' == e.(k := VNonReloc(reg)) && Holds(t, e', tl, fl)
      ensures |code| == |old(code)| + 2
    {
      ghost var d := Delay(e.k, tl, fl);
      assert d.b == Now();
      var pc;
      ghost var mid, mid2;
      pc, mid := Code(LoadKX(reg));
      DischargeExpr(t, d, mid);
      CodeKeepsList(d.b, mid, LoadKX(reg), e.t, tl);
      CodeKeepsList(d.b, mid, LoadKX(reg), e.f, fl);
      ghost var code1 := code;
      pc, mid2 := Code(ExtraArg(e.k.info));
      NothingDischarged(code1, mid2.code);
      AppendKeepsList(code1, [ExtraArg(e.k.info)], e.t, tl);
      AppendKeepsList(code1, [ExtraArg(e.k.info)], e.f, fl);
      assert code == mid.code + [LoadKX(reg), ExtraArg(e.k.info)];
      e' := e.(k := VNonReloc(reg));
      LoadKXExpr(t, d.(b := mid, code := mid.code), Now(), reg, e.k.info);
    }

    /** The value of a relocatable expression goes to `reg`: SETARG_A. */
    method Relocate(reg: nat, e: ExpDesc, ghost t: Task, ghost tl: seq<int>, ghost fl: seq<int>) returns (e': ExpDesc)
      requires Holds(t, e, tl, fl) && e.k.VRelocable? && reg >= t.n
      modifies this`code
      ensures e' == e.(k := VNonReloc(reg)) && Holds(t, e', tl, fl)
    {
      ghost var d, code0 := Delay(e.k, tl, fl), code;
      code := code[e.k.info := Not(reg, code[e.k.info].b)];
      ReplaceKeepsLists(code0, code, e.k.info, e, tl, fl, jpc, here);
      assert code == d.b.code + [code[e.k.info]];
      LoadExpr(t, d, Now(), code[e.k.info], reg);
      e' := e.(k := VNonReloc(reg));
    }

    /** discharge2reg: the main value is in `reg`, unless it is still a test. */
    method Discharge2Reg(e0: ExpDesc, reg: nat, ghost t: Task, ghost tl: seq<int>, ghost fl: seq<int>)
      returns (e: ExpDesc)
      requires Holds(t, e0, tl, fl) && reg >= t.n
      modifies this`code, this`jpc, this`here, this`pend, this`k, this`scanner
      ensures Holds(t, e, tl, fl) && e.t == e0.t && e.f == e0.f
      ensures if e0.k.VJmp? then e == e0 && code == old(code) else e.k == VNonReloc(reg)
    {
      e := DischargeVars(e0, t, tl, fl);
      match e.k {
        case VNil => e := EmitNil(reg, e, t, tl, fl);
        case VFalse => e := EmitLoad(LoadBool(reg, false, false), reg, e, t, tl, fl);
        case VTrue => e := EmitLoad(LoadBool(reg, true, false), reg, e, t, tl, fl);
        case VK(_) => e := EmitConstant(reg, e, t, tl, fl);
        case VKFlt(f) => e := EmitNumber(Flt(f), reg, e, t, tl, fl);
        case VKInt(i) => e := EmitNumber(Int(i), reg, e, t, tl, fl);
        case VRelocable(_) => e := Relocate(reg, e, t, tl, fl);
        case VNonReloc(info) =>
          if reg != info {
            e := EmitLoad(Move(reg, info), reg, e, t, tl, fl);
          }
        case _ =>
      }
    }

    /** A numeral becomes a constant of the function first. */
    method EmitNumber(v: Value, reg: nat, e0: ExpDesc, ghost t: Task, ghost tl: seq<int>, ghost fl: seq<int>)
      returns (e: ExpDesc)
      requires Holds(t, e0, tl, fl) && reg >= t.n
      requires (e0.k.VKInt? && v == Int(e0.k.ival)) || (e0.k.VKFlt? && v == Flt(e0.k.nval))
      modifies this`code, this`jpc, this`here, this`pend, this`k, this`scanner
      ensures Holds(t, e, tl, fl) && e == e0.(k := VNonReloc(reg))
    {
      var i := AddConstant(v, e0, t, tl, fl);
      NumberIsConstant(t, Delay(e0.k, tl, fl), v, i);
      e := EmitConstant(reg, e0.(k := VK(i)), t, tl, fl);
    }

    /** discharge2anyreg */
    method Discharge2AnyReg(e0: ExpDesc, ghost t: Task, ghost tl: seq<int>, ghost fl: seq<int>) returns (e: ExpDesc)
      requires Holds(t, e0, tl, fl) && RegsOk(t, e0) && t.n + 1 < MAXREGS && !e0.k.VJmp?
      modifies this`code, this`jpc, this`here, this`pend, this`k, this`scanner, this`freereg
      ensures Holds(t, e, tl, fl) && RegsOk(t, e) && e.t == e0.t && e.f == e0.f && e.k.VNonReloc?
      ensures freereg <= t.n + 1
    {
      e := e0;
      if !e.k.VNonReloc? {
        ReserveRegs(1);
        e := Discharge2Reg(e, freereg - 1, t, tl, fl);
      }
    }

    // ---- Tests and jumps ----

    /** luaK_getlabel */
    method GetLabel() returns (pc: nat)
      modifies this`lasttarget
      ensures lasttarget == pc == |code|
    {
      lasttarget := |code|;
      pc := |code|;
    }

    /** luaK_patchtohere */
    method PatchToHere(list: int, ghost l: seq<int>)
      requires HereOk() && IsList(code, list, l) && Elems(here) !! Elems(l)
      modifies this`code, this`jpc, this`here, this`lasttarget
      ensures HereOk() && here == old(here) + l && lasttarget == |code|
      ensures Relinked(old(code), code, old(Elems(here))) && (old(here) == [] ==> code == old(code))
    {
      var pc := GetLabel();
      ghost var code0 := code;
      jpc := Concat(jpc, list, here, l);
      assert here == [] ==> code == code0;
      here := here + l;
    }

    /** condjump: a test and the jump that it controls. */
    method CondJump(test: Instr) returns (j: nat, ghost mid: Snap)
      requires HereOk() && Elems(here) <= pend && IsTest(test)
      modifies this`code, this`jpc, this`here, this`pend
      ensures Discharged(old(Now()), mid) && j == |mid.code| + 1 && code == mid.code + [test, Jmp(NO_JUMP)]
      ensures Now() == mid.(code := code, pend := mid.pend + {j})
      ensures here == [] && HereOk() && IsList(code, j, [j])
    {
      var pc;
      pc, mid := Code(test);
      j := Jump();
      assert code == mid.code + [test, Jmp(NO_JUMP)];
      assert [j] + [] == [j];
    }

    /** After a test: its jump is `pc`, the lists of `e` are as they were. */
    ghost predicate Tested(t: Task, truth: bool, e: ExpDesc, pc: int, tl: seq<int>, fl: seq<int>, pl: seq<int>)
      reads this`k, this`code, this`pend, this`here, this`lasttarget, this`jpc
    {
      && HereOk() && IsList(code, e.t, tl) && IsList(code, e.f, fl) && IsList(code, pc, pl)
      && Elems(pl) !! Elems(tl) && Elems(pl) !! Elems(fl) && Elems(tl) !! Elems(fl)
      && (if truth then CondOk(t, Now(), Elems(tl), Elems(fl) + Elems(pl), true)
          else CondOk(t, Now(), Elems(fl), Elems(tl) + Elems(pl), false))
    }

    /** A test of the value of `e`, coded so that its jump is taken when the value
        is not `truth`. */
    method CodeTest(test: Instr, truth: bool, e: ExpDesc, ghost t: Task, ghost tl: seq<int>, ghost fl: seq<int>)
      returns (pc: int, ghost pl: seq<int>)
      requires Holds(t, e, tl, fl) && Settled(e.k) && Tests(t, Delay(e.k, tl, fl), test, truth)
      modifies this`code, this`jpc, this`here, this`pend
      ensures Tested(t, truth, e, pc, tl, fl, pl)
    {
      ghost var d := Delay(e.k, tl, fl);
      assert d.b == Now();
      ghost var mid;
      pc, mid := CondJump(test);
      pl := [pc];
      DischargeExpr(t, d, mid);
      ghost var d1 := d.(b := mid, code := mid.code);
      TestedLists(d.b, mid, test, e.t, tl);
      TestedLists(d.b, mid, test, e.f, fl);
      SettledTests(t, d, d1, test, truth);
      TestCond(t, d1, Now(), test, truth, if truth then d.tl else d.fl, (if truth then d.fl else d.tl) + {pc});
      assert Elems(pl) == {pc};
    }

    /** jumponcond, where `e` is no comparison. */
    method JumpOnCond(e0: ExpDesc, cond: bool, ghost t: Task, ghost tl: seq<int>, ghost fl: seq<int>)
      returns (pc: int, ghost pl: seq<int>)
      requires Holds(t, e0, tl, fl) && RegsOk(t, e0) && t.n + 1 < MAXREGS && !e0.k.VJmp?
      modifies this`code, this`jpc, this`here, this`pend, this`k, this`scanner, this`freereg
      ensures Tested(t, !cond, e0, pc, tl, fl, pl) && freereg == t.n
    {
      if e0.k.VRelocable? {
        pc, pl := JumpOnNot(e0, cond, t, tl, fl);
      } else {
        var e := Discharge2AnyReg(e0, t, tl, fl);
        FreeExp(e);
        pc, pl := CodeTest(TestSet(NO_REG, e.k.info, cond), !cond, e, t, tl, fl);
      }
    }

    /** jumponcond takes back a NOT and inverts the condition. */
    method JumpOnNot(e: ExpDesc, cond: bool, ghost t: Task, ghost tl: seq<int>, ghost fl: seq<int>)
      returns (pc: int, ghost pl: seq<int>)
      requires Holds(t, e, tl, fl) && e.k.VRelocable?
      modifies this`code, this`jpc, this`here, this`pend
      ensures Tested(t, !cond, e, pc, tl, fl, pl)
    {
      ghost var d := Delay(e.k, tl, fl);
      OwnInBase(t, d);
      var ie := code[e.k.info];
      TruncatedList(code, |code| - 1, e.t, tl);
      TruncatedList(code, |code| - 1, e.f, fl);
      code := code[..|code| - 1];
      NoElems(here);
      assert Now() == d.b;
      ghost var mid;
      pc, mid := CondJump(Test(ie.b, !cond));
      NothingDischarged(d.b.code, mid.code);
      pl := [pc];
      AppendKeepsList(d.b.code, [Test(ie.b, !cond), Jmp(NO_JUMP)], e.t, tl);
      AppendKeepsList(d.b.code, [Test(ie.b, !cond), Jmp(NO_JUMP)], e.f, fl);
      ghost var go, out := if cond then d.fl else d.tl, if cond then d.tl else d.fl;
      TestCond(t, d, Now(), Test(ie.b, !cond), !cond, go, out + {pc});
      assert Elems(pl) == {pc};
    }

    /** negatecondition */
    method NegateCondition(e: ExpDesc)
      requires e.k.VJmp? && 0 < e.k.info < |code| && code[e.k.info - 1].Cmp?
      modifies this`code
      ensures code == old(code)[e.k.info - 1 := Negated(old(code)[e.k.info - 1])]
    {
      var i := Control(code, e.k.info);
      code := code[i := Negated(code[i])];
    }

    /** The jump of a comparison is made the exit for when its value is not
        `truth`. */
    method JumpIsExit(truth: bool, e: ExpDesc, ghost t: Task, ghost tl: seq<int>, ghost fl: seq<int>)
      returns (pc: int, ghost pl: seq<int>)
      requires Holds(t, e, tl, fl) && e.k.VJmp?
      modifies this`code, this`pend
      ensures Tested(t, truth, e, pc, tl, fl, pl)
    {
      ghost var d, code0 := Delay(e.k, tl, fl), code;
      OwnInBase(t, d);
      if truth {
        NegateCondition(e);
        ReplaceKeepsLists(code0, code, e.k.info - 1, e, tl, fl, jpc, here);
      }
      pc := e.k.info;
      pl := [pc];
      pend := pend + {pc};
      ComparisonExit(t, d, Now(), truth);
      assert LinkOk(code, pl, 0);
      assert Elems(pl) == {pc};
    }

    /** A constant whose truth is known needs no test and no jump. */
    method NoTest(truth: bool, e: ExpDesc, ghost t: Task, ghost tl: seq<int>, ghost fl: seq<int>)
      returns (pc: int, ghost pl: seq<int>)
      requires Holds(t, e, tl, fl) && Settled(e.k)
      requires forall r :: IsFalse(MainValue(Machine(k, cmp), code, e.k, r)) == !truth
      ensures Tested(t, truth, e, pc, tl, fl, pl)
    {
      pc, pl := NO_JUMP, [];
      ConstantCond(t, Delay(e.k, tl, fl), truth);
      assert Elems(tl) + {} == Elems(tl) && Elems(fl) + {} == Elems(fl);
      assert Elems(pl) == {};
    }

    /** The jump `pc` joins the list `out` for when the value is not as wanted; the
        list `go` for when it is leads to here. */
    method CloseCondition(truth: bool, go: int, out: int, pc: int, ghost t: Task,
                          ghost gl: seq<int>, ghost ol: seq<int>, ghost pl: seq<int>)
      returns (out': int)
      requires HereOk() && IsList(code, go, gl) && IsList(code, out, ol) && IsList(code, pc, pl)
      requires Elems(pl) !! Elems(gl) && Elems(pl) !! Elems(ol) && Elems(gl) !! Elems(ol)
      requires CondOk(t, Now(), Elems(gl), Elems(ol) + Elems(pl), truth)
      modifies this`code, this`jpc, this`here, this`lasttarget
      ensures HereOk() && IsList(code, out', ol + pl) && CondOk(t, Now(), {}, Elems(ol + pl), truth)
    {
      ghost var s0 := Now();
      out' := Concat(out, pc, ol, pl);
      ElemsConcat(ol, pl);
      ghost var s1 := Now();
      RelinkKeepsList(s0.code, s1.code, Elems(ol), go, gl);
      RelinkKeepsList(s0.code, s1.code, Elems(ol), jpc, here);
      RelinkCond(t, s0, s1, Elems(gl), Elems(ol + pl), truth);
      PatchToHere(go, gl);
      ElemsConcat(here[..|here| - |gl|], gl);
      ghost var s2 := s1.(here := s1.here + Elems(gl), lasttarget := |s1.code|);
      CondToHere(t, s1, s2, Elems(gl), Elems(ol + pl), truth);
      RelinkKeepsList(s1.code, code, s1.here, out', ol + pl);
      RelinkCond(t, s2, Now(), {}, Elems(ol + pl), truth);
    }

    /** luaK_goiftrue */
    method GoIfTrue(e0: ExpDesc, ghost t: Task, ghost tl: seq<int>, ghost fl: seq<int>)
      returns (e: ExpDesc, ghost out: seq<int>)
      requires Holds(t, e0, tl, fl) && RegsOk(t, e0) && TrueConstant(e0) && t.n + 1 < MAXREGS
      modifies this`code, this`jpc, this`here, this`pend, this`k, this`scanner, this`freereg, this`lasttarget
      ensures HereOk() && IsList(code, e.f, out) && e.t == NO_JUMP && CondOk(t, Now(), {}, Elems(out), true)
      ensures freereg == t.n
    {
      e := DischargeVars(e0, t, tl, fl);
      var pc;
      ghost var pl;
      if e.k.VJmp? {
        pc, pl := JumpIsExit(true, e, t, tl, fl);
      } else if e.k.VK? || e.k.VKFlt? || e.k.VKInt? || e.k.VTrue? {
        pc, pl := NoTest(true, e, t, tl, fl);
      } else {
        pc, pl := JumpOnCond(e, false, t, tl, fl);
      }
      var f := CloseCondition(true, e.t, e.f, pc, t, tl, fl, pl);
      e := e.(t := NO_JUMP, f := f);
      out := fl + pl;
    }

    /** luaK_goiffalse */
    method GoIfFalse(e0: ExpDesc, ghost t: Task, ghost tl: seq<int>, ghost fl: seq<int>)
      returns (e: ExpDesc, ghost out: seq<int>)
      requires Holds(t, e0, tl, fl) && RegsOk(t, e0) && TrueConstant(e0) && t.n + 1 < MAXREGS
      modifies this`code, this`jpc, this`here, this`pend, this`k, this`scanner, this`freereg, this`lasttarget
      ensures HereOk() && IsList(code, e.t, out) && e.f == NO_JUMP && CondOk(t, Now(), {}, Elems(out), false)
      ensures freereg == t.n
    {
      e := DischargeVars(e0, t, tl, fl);
      var pc;
      ghost var pl;
      if e.k.VJmp? {
        pc, pl := JumpIsExit(false, e, t, tl, fl);
      } else if e.k.VNil? || e.k.VFalse? {
        pc, pl := NoTest(false, e, t, tl, fl);
      } else {
        pc, pl := JumpOnCond(e, true, t, tl, fl);
      }
      var t' := CloseCondition(false, e.f, e.t, pc, t, fl, tl, pl);
      e := e.(t := t', f := NO_JUMP);
      out := tl + pl;
    }

    // ---- Results in registers ----

    /** The loads behind the code for tests that produce no value: a comparison
        falls into them, any other value is already in `reg` and jumps over. */
    method EmitLoads(isJump: bool, reg: nat, e: ExpDesc, ghost t: Task, ghost tl: seq<int>, ghost fl: seq<int>)
      returns (pf: nat, pt: nat, ghost s: Snap, ghost done: seq<int>)
      requires Holds(t, e.(k := if isJump then VFalse else VNonReloc(reg)), tl, fl) && (isJump ==> here == [])
      modifies this`code, this`jpc, this`here, this`pend, this`lasttarget
      ensures LandOk(t, s, Elems(done), Elems(tl), Elems(fl), reg) && WithLoads(s, Now(), reg, Elems(done))
      ensures pf == |s.code| && pt == |s.code| + 1
      ensures HereOk() && here == done && IsList(code, e.t, tl) && IsList(code, e.f, fl)
    {
      var fj: int;
      fj, done := LandingJump(isJump, reg, e, t, tl, fl);
      s := Now();
      pf := CodeLoadBool(reg, false, true);
      pt := CodeLoadBool(reg, true, false);
      assert code == s.code + Loads(reg);
      AppendKeepsList(s.code, Loads(reg), e.t, tl);
      AppendKeepsList(s.code, Loads(reg), e.f, fl);
      AppendKeepsList(s.code, Loads(reg), fj, done);
      PatchToHere(fj, done);
      assert [] + done == done;
    }

    /** The jump over the loads, which takes over the jumps to here. */
    method LandingJump(isJump: bool, reg: nat, e: ExpDesc, ghost t: Task, ghost tl: seq<int>, ghost fl: seq<int>)
      returns (fj: int, ghost done: seq<int>)
      requires Holds(t, e.(k := if isJump then VFalse else VNonReloc(reg)), tl, fl) && (isJump ==> here == [])
      modifies this`code, this`jpc, this`here, this`pend
      ensures LandOk(t, Now(), Elems(done), Elems(tl), Elems(fl), reg) && here == [] && HereOk()
      ensures IsList(code, fj, done) && IsList(code, e.t, tl) && IsList(code, e.f, fl)
    {
      ghost var d := Delay(if isJump then VFalse else VNonReloc(reg), tl, fl);
      if isJump {
        fj, done := NO_JUMP, [];
        FalseLands(t, d, reg);
        assert Elems(done) == {};
      } else {
        ghost var waiting, code0 := here, code;
        fj := Jump();
        done := [fj] + waiting;
        ElemsConcat([fj], waiting);
        assert code == code0 + [code[fj]];
        AppendKeepsList(code0, [code[fj]], e.t, tl);
        AppendKeepsList(code0, [code[fj]], e.f, fl);
        LandsBehind(t, d, Now(), reg);
        assert Elems([fj]) == {fj};
      }
    }

    /** code_loadbool: these instructions may be jump targets. */
    method CodeLoadBool(a: nat, b: bool, skip: bool) returns (pc: nat)
      requires here == [] && HereOk()
      modifies this`code, this`jpc, this`here, this`pend, this`lasttarget
      ensures pc == |old(code)| && code == old(code) + [LoadBool(a, b, skip)]
      ensures here == [] && HereOk() && pend == old(pend) && lasttarget == |old(code)|
    {
      pc := GetLabel();
      ghost var mid, code0 := Now(), code;
      pc, mid := Code(LoadBool(a, b, skip));
      NothingDischarged(code0, mid.code);
    }

    /** Both lists are sent to the end of the code or to the loads before it. */
    method CloseLists(e: ExpDesc, reg: nat, pf: int, pt: int, ghost tl: seq<int>, ghost fl: seq<int>)
      requires HereOk() && IsList(code, e.t, tl) && IsList(code, e.f, fl) && Elems(tl) !! Elems(fl)
      requires Elems(here) !! Elems(tl) + Elems(fl)
      requires pf == NO_JUMP ==> forall j :: j in fl && 0 <= j < |code| ==> ProducesValue(code, j)
      requires pt == NO_JUMP ==> forall j :: j in tl && 0 <= j < |code| ==> ProducesValue(code, j)
      modifies this`code, this`pend, this`lasttarget
      ensures Closes(old(Now()), Now(), Elems(tl), Elems(fl), reg, pf, pt) && HereOk()
    {
      ghost var code0 := code;
      var final := GetLabel();
      PatchListAux(e.f, final, reg, pf, fl);
      ghost var code1 := code;
      SecondList(code0, code1, Elems(fl), e.t, tl);
      PatchListAux(e.t, final, reg, pt, tl);
      ClosesBoth(code0, code1, code, Elems(tl), Elems(fl), |code0|, reg, pf, pt);
      PatchKeepsList(code0, code, Elems(tl) + Elems(fl), jpc, here);
      pend := pend - (Elems(tl) + Elems(fl));
    }

    /** The value of an expression with jumps, in `reg`. */
    method FinishJumps(isJump: bool, reg: nat, e: ExpDesc, ghost t: Task, ghost tl: seq<int>, ghost fl: seq<int>)
      requires Holds(t, e.(k := if isJump then VFalse else VNonReloc(reg)), tl, fl) && (isJump ==> here == [])
      requires t.n <= reg < NO_REG
      requires isJump ==> exists j :: j in Elems(tl) && 0 <= j < |code| && !ProducesValue(code, j)
      modifies this`code, this`jpc, this`here, this`pend, this`lasttarget
      ensures OperandOk(t, Now(), reg) && HereOk()
    {
      var pf, pt := NO_JUMP, NO_JUMP;
      var need := NeedValue(e.t, tl);
      if !need {
        need := NeedValue(e.f, fl);
      }
      if need {
        ghost var s, done;
        pf, pt, s, done := EmitLoads(isJump, reg, e, t, tl, fl);
        ghost var s1 := Now();
        CloseLists(e, reg, pf, pt, tl, fl);
        LoadsFinish(t, s, Elems(done), Elems(tl), Elems(fl), reg, s1, Now());
      } else {
        ghost var d := Delay(VNonReloc(reg), tl, fl);
        InElems(tl);
        InElems(fl);
        CloseLists(e, reg, pf, pt, tl, fl);
        DirectFinish(t, d, reg, Now());
      }
    }

    /** exp2reg */
    method Exp2Reg(e0: ExpDesc, reg: nat, ghost t: Task, ghost tl0: seq<int>, ghost fl: seq<int>) returns (e: ExpDesc)
      requires Holds(t, e0, tl0, fl) && t.n <= reg < NO_REG
      modifies this`code, this`jpc, this`here, this`pend, this`k, this`scanner, this`lasttarget
      ensures OperandOk(t, Now(), reg) && Holds(t, e, [], []) && e == ExpDesc(VNonReloc(reg), NO_JUMP, NO_JUMP)
    {
      e := Discharge2Reg(e0, reg, t, tl0, fl);
      ghost var tl := tl0;
      var isJump := e.k.VJmp?;
      if isJump {
        e, tl := JoinJump(e, t, tl0, fl);
      }
      if e.t != e.f {
        FinishJumps(isJump, reg, e, t, tl, fl);
      } else {
        EqualHeads(code, e.t, tl, fl);
        OperandOfExpr(t, Delay(e.k, tl, fl), reg);
      }
      e := ExpDesc(VNonReloc(reg), NO_JUMP, NO_JUMP);
      ExprOfOperand(t, Now(), reg);
      assert Elems([]) == {};
    }

    /** The jump of a comparison joins the exits when true. */
    method JoinJump(e0: ExpDesc, ghost t: Task, ghost tl0: seq<int>, ghost fl: seq<int>)
      returns (e: ExpDesc, ghost tl: seq<int>)
      requires Holds(t, e0, tl0, fl) && e0.k.VJmp?
      modifies this`code, this`pend
      ensures Holds(t, e.(k := VFalse), tl, fl) && here == [] && e.k == e0.k && tl != [] && e.t != e.f
      ensures exists j :: j in Elems(tl) && 0 <= j < |code| && !ProducesValue(code, j)
    {
      ghost var d, p := Delay(e0.k, tl0, fl), e0.k.info;
      ComparisonJoins(t, d);
      NoElems(here);
      pend := pend + {p};
      ghost var s := Now();
      assert LinkOk(code, [p], 0) && Elems([p]) == {p};
      var l := Concat(e0.t, e0.k.info, tl0, [p]);
      e, tl := e0.(t := l), tl0 + [p];
      ElemsConcat(tl0, [p]);
      JumpJoined(t, Delayed(s, s.code, VFalse, Elems(tl), Elems(fl)), Delay(VFalse, tl, fl), e.t, e.f, tl0, tl, fl);
      assert p in Elems(tl) && !ProducesValue(code, p);
    }

    /** luaK_exp2nextreg */
    method Exp2NextReg(e0: ExpDesc, ghost t: Task, ghost tl: seq<int>, ghost fl: seq<int>) returns (e: ExpDesc)
      requires Holds(t, e0, tl, fl) && RegsOk(t, e0) && t.n + 1 < MAXREGS
      modifies this`code, this`jpc, this`here, this`pend, this`k, this`scanner, this`lasttarget, this`freereg
      ensures Holds(t, e, [], []) && RegsOk(t, e) && OperandOk(t, Now(), t.n)
      ensures e == ExpDesc(VNonReloc(t.n), NO_JUMP, NO_JUMP) && freereg == t.n + 1
    {
      e := DischargeVars(e0, t, tl, fl);
      FreeExp(e);
      ReserveRegs(1);
      e := Exp2Reg(e, freereg - 1, t, tl, fl);
    }

    /** luaK_exp2anyreg */
    method Exp2AnyReg(e0: ExpDesc, ghost t: Task, ghost tl: seq<int>, ghost fl: seq<int>) returns (e: ExpDesc)
      requires Holds(t, e0, tl, fl) && RegsOk(t, e0) && t.n + 1 < MAXREGS
      modifies this`code, this`jpc, this`here, this`pend, this`k, this`scanner, this`lasttarget, this`freereg
      ensures Holds(t, e, [], []) && RegsOk(t, e) && e.k.VNonReloc? && e.t == e.f
      ensures e0.t == e0.f && (e0.k.VNonReloc? || e0.k.VLocal?) ==> e.k.info == e0.k.info && code == old(code)
    {
      e := DischargeVars(e0, t, tl, fl);
      if e.k.VNonReloc? {
        if e.t == e.f {
          NoJumps(t, e, tl, fl);
          return;
        }
        if e.k.info >= nactvar {
          e := Exp2Reg(e, e.k.info, t, tl, fl);
          return;
        }
      }
      e := Exp2NextReg(e, t, tl, fl);
    }

    /** Equal lists are empty. */
    lemma NoJumps(t: Task, e: ExpDesc, tl: seq<int>, fl: seq<int>)
      requires Holds(t, e, tl, fl) && e.t == e.f
      ensures tl == [] && fl == []
    {
      EqualHeads(code, e.t, tl, fl);
      NoElems(tl);
      NoElems(fl);
    }

    /** luaK_exp2val */
    method Exp2Val(e0: ExpDesc, ghost t: Task, ghost tl: seq<int>, ghost fl: seq<int>) returns (e: ExpDesc)
      requires Holds(t, e0, tl, fl) && RegsOk(t, e0) && t.n + 1 < MAXREGS
      modifies this`code, this`jpc, this`here, this`pend, this`k, this`scanner, this`lasttarget, this`freereg
      ensures Holds(t, e, [], []) && RegsOk(t, e)
      ensures e0.t == e0.f ==> k == old(k) && (ConstantOf(e0.k).Some? ==> e.k == e0.k)
    {
      if e0.t != e0.f {
        e := Exp2AnyReg(e0, t, tl, fl);
      } else {
        NoJumps(t, e0, tl, fl);
        e := DischargeVars(e0, t, tl, fl);
      }
    }

    static function ConstantOf(k: Kind): Option<Value> {
      match k
      case VNil => Some(Nil)
      case VTrue => Some(Bool(true))
      case VFalse => Some(Bool(false))
      case VKInt(i) => Some(Int(i))
      case VKFlt(f) => Some(Flt(f))
      case _ => None
    }

    /** boolK, nilK, luaK_intK, luaK_numberK: a constant value in the table of
        constants. */
    method ValueToK(e0: ExpDesc, ghost t: Task) returns (e: ExpDesc)
      requires Holds(t, e0, [], []) && RegsOk(t, e0)
      modifies this`k, this`scanner
      ensures Holds(t, e, [], []) && RegsOk(t, e)
      ensures if ConstantOf(e0.k).Some? then e.k.VK? && e.k.info < |k| && k[e.k.info] == ConstantOf(e0.k).value
              else e == e0 && k == old(k)
      ensures |k| <= old(|k|) + 1
    {
      e := e0;
      var v;
      if e.k.VTrue? {
        v := Bool(true);
      } else if e.k.VFalse? {
        v := Bool(false);
      } else if e.k.VNil? {
        v := Nil;
      } else if e.k.VKInt? {
        v := Int(e.k.ival);
      } else if e.k.VKFlt? {
        v := Flt(e.k.nval);
      } else {
        return;
      }
      var i := AddConstant(v, e0, t, [], []);
      NumberIsConstant(t, Delay(e0.k, [], []), v, i);
      e := e.(k := VK(i));
    }

    /** An operand: a register, or a constant that fits in an argument. */
    predicate IsOperand(e: ExpDesc, rk: nat) {
      (e.k.VNonReloc? && rk == e.k.info < BITRK) || (e.k.VK? && e.k.info <= MAXINDEXRK && rk == BITRK + e.k.info)
    }

    /** luaK_exp2RK */
    method Exp2RK(e0: ExpDesc, ghost t: Task, ghost tl: seq<int>, ghost fl: seq<int>) returns (e: ExpDesc, rk: nat)
      requires Holds(t, e0, tl, fl) && RegsOk(t, e0) && t.n + 1 < MAXREGS
      modifies this`code, this`jpc, this`here, this`pend, this`k, this`scanner, this`lasttarget, this`freereg
      ensures Holds(t, e, [], []) && RegsOk(t, e) && IsOperand(e, rk) && OperandOk(t, Now(), rk)
      ensures e0.t == e0.f && ConstantOf(e0.k).Some? && old(|k|) <= MAXINDEXRK ==> rk >= BITRK
    {
      e := Exp2Val(e0, t, tl, fl);
      e := ValueToK(e, t);
      if e.k.VK? && e.k.info <= MAXINDEXRK {
        rk := BITRK + e.k.info;
      } else {
        e := Exp2AnyReg(e, t, [], []);
        rk := e.k.info;
      }
      assert Elems([]) == {};
      OperandOfExpr(t, Delay(e.k, [], []), rk);
    }

    // ---- not and comparisons ----

    /** The main value of `e` is negated at the end of the code. */
    ghost predicate MainNegated(t: Task, e: ExpDesc, d: Delayed)
      reads this`k, this`code, this`pend, this`here, this`lasttarget
    {
      && Now() == d.b.(code := code) && NegatedTail(t.cmp, d, code, e.k)
    }

    /** The part of codenot that deals with the main value. */
    method NegateMain(e0: ExpDesc, ghost t: Task, ghost tl: seq<int>, ghost fl: seq<int>)
      returns (e: ExpDesc, ghost d: Delayed)
      requires Holds(t, e0, tl, fl) && RegsOk(t, e0) && TrueConstant(e0) && t.n + 1 < MAXREGS
      modifies this`code, this`jpc, this`here, this`pend, this`k, this`scanner, this`freereg
      ensures ExprOk(t, d) && d.tl == Elems(tl) && d.fl == Elems(fl) && MainNegated(t, e, d)
      ensures HereOk() && IsList(code, e.t, tl) && IsList(code, e.f, fl) && RegsOk(t, e) && !e.k.VLocal? && !e.k.VK?
      ensures e0.k.VNil? || e0.k.VFalse? ==> e.k == VTrue && code == old(code)
      ensures e0.k.VTrue? || e0.k.VK? || e0.k.VKInt? || e0.k.VKFlt? ==> e.k == VFalse && code == old(code)
    {
      e := DischargeVars(e0, t, tl, fl);
      d := Delay(e.k, tl, fl);
      if e.k.VNil? || e.k.VFalse? {
        e := e.(k := VTrue);
      } else if e.k.VK? || e.k.VKFlt? || e.k.VKInt? || e.k.VTrue? {
        e := e.(k := VFalse);
      } else if e.k.VJmp? {
        NegateJump(e, t, tl, fl);
      } else {
        e, d := NegateInRegister(e, t, tl, fl);
      }
    }

    method NegateInRegister(e0: ExpDesc, ghost t: Task, ghost tl: seq<int>, ghost fl: seq<int>)
      returns (e: ExpDesc, ghost d: Delayed)
      requires Holds(t, e0, tl, fl) && RegsOk(t, e0) && t.n + 1 < MAXREGS && !e0.k.VJmp?
      modifies this`code, this`jpc, this`here, this`pend, this`k, this`scanner, this`freereg
      ensures ExprOk(t, d) && d.tl == Elems(tl) && d.fl == Elems(fl) && MainNegated(t, e, d)
      ensures HereOk() && IsList(code, e.t, tl) && IsList(code, e.f, fl) && RegsOk(t, e) && e.k.VRelocable?
    {
      e := Discharge2AnyReg(e0, t, tl, fl);
      FreeExp(e);
      e, d := CodeNotInstr(e, t, tl, fl);
    }

    method NegateJump(e: ExpDesc, ghost t: Task, ghost tl: seq<int>, ghost fl: seq<int>)
      requires Holds(t, e, tl, fl) && e.k.VJmp?
      modifies this`code
      ensures MainNegated(t, e, old(Delay(e.k, tl, fl)))
      ensures HereOk() && IsList(code, e.t, tl) && IsList(code, e.f, fl)
    {
      ghost var code0 := code;
      NegateCondition(e);
      ReplaceKeepsLists(code0, code, e.k.info - 1, e, tl, fl, jpc, here);
    }

    method CodeNotInstr(e0: ExpDesc, ghost t: Task, ghost tl: seq<int>, ghost fl: seq<int>)
      returns (e: ExpDesc, ghost d: Delayed)
      requires Holds(t, e0, tl, fl) && e0.k.VNonReloc?
      modifies this`code, this`jpc, this`here, this`pend
      ensures ExprOk(t, d) && d.tl == Elems(tl) && d.fl == Elems(fl) && MainNegated(t, e, d)
      ensures HereOk() && IsList(code, e.t, tl) && IsList(code, e.f, fl)
      ensures |code| > 0 && e == e0.(k := VRelocable(|code| - 1))
    {
      ghost var d0 := Delay(e0.k, tl, fl);
      assert d0.b == Now();
      var pc;
      ghost var mid;
      pc, mid := Code(Not(0, e0.k.info));
      d := d0.(b := mid, code := mid.code);
      DischargeExpr(t, d0, mid);
      CodeKeepsList(d0.b, mid, Not(0, e0.k.info), e0.t, tl);
      CodeKeepsList(d0.b, mid, Not(0, e0.k.info), e0.f, fl);
      e := e0.(k := VRelocable(pc));
    }

    /** codenot */
    method CodeNot(e0: ExpDesc, ghost t: Task, ghost tl: seq<int>, ghost fl: seq<int>) returns (e: ExpDesc)
      requires Holds(t, e0, tl, fl) && RegsOk(t, e0) && TrueConstant(e0) && t.n + 1 < MAXREGS
      modifies this`code, this`jpc, this`here, this`pend, this`k, this`scanner, this`freereg
      ensures Holds(t.(src := ENot(t.src)), e, fl, tl) && RegsOk(t, e) && TrueConstant(e)
    {
      ghost var d;
      e, d := NegateMain(e0, t, tl, fl);
      ghost var code0 := code;
      e := e.(t := e.f, f := e.t);
      RemoveValues(e.f, tl);
      ghost var code1 := code;
      PatchKeepsList(code0, code1, Elems(tl), e.t, fl);
      RemoveValues(e.t, fl);
      PatchKeepsList(code1, code, Elems(fl), e.f, tl);
      BothRemoved(code0, code1, code, Elems(tl), Elems(fl));
      PatchKeepsList(code0, code, Elems(tl) + Elems(fl), jpc, here);
      NotCoded(t, d, code0, Delay(e.k, fl, tl));
    }

    /** freereg */
    method FreeReg(reg: nat)
      requires reg < BITRK && reg >= nactvar ==> freereg == reg + 1
      modifies this`freereg
      ensures freereg == if reg < BITRK && reg >= nactvar then reg else old(freereg)
    {
      if reg < BITRK && reg >= nactvar {
        freereg := freereg - 1;
        assert reg == freereg;
      }
    }

    /** freeexps: the higher register first. */
    method FreeExps(e1: ExpDesc, e2: ExpDesc, ghost n: nat)
      requires e1.k.VNonReloc? || e1.k.VK?
      requires e2.k.VNonReloc? || e2.k.VK?
      requires IsTemp(e1.k) ==> e1.k.info == n < BITRK
      requires IsTemp(e2.k) ==> e2.k.info == (if IsTemp(e1.k) then n + 1 else n) < BITRK
      requires freereg == n + (if IsTemp(e1.k) then 1 else 0) + (if IsTemp(e2.k) then 1 else 0)
      requires nactvar <= n
      modifies this`freereg
      ensures freereg == n
    {
      var r1 := if e1.k.VNonReloc? then e1.k.info else -1;
      var r2 := if e2.k.VNonReloc? then e2.k.info else -1;
      if r1 > r2 {
        FreeReg(r1);
        if r2 >= 0 { FreeReg(r2); }
      } else {
        if r2 >= 0 { FreeReg(r2); }
        if r1 >= 0 { FreeReg(r1); }
      }
    }

    /** codecomp: the first operand was delivered at state `s1`. */
    method CodeComp(op: CompareOp, e1: ExpDesc, e20: ExpDesc, ghost t1: Task, ghost s1: Snap, ghost rk: nat,
                    ghost t2: Task, ghost tl2: seq<int>, ghost fl2: seq<int>) returns (e: ExpDesc)
      requires t1.cmp == cmp && nactvar <= t1.n && OperandOk(t1, s1, rk) && IsOperand(e1, rk)
      requires IsTemp(e1.k) ==> e1.k.info == t1.n
      requires t2.s0 == s1 && t2.n == t1.n + (if IsTemp(e1.k) then 1 else 0) && Closed(t2.src, nactvar)
      requires Holds(t2, e20, tl2, fl2) && RegsOk(t2, e20) && t2.n + 1 < MAXREGS
      modifies this`code, this`jpc, this`here, this`pend, this`k, this`scanner, this`lasttarget, this`freereg
      ensures Holds(t1.(src := ECompare(op, t1.src, t2.src)), e, [], []) && RegsOk(t1, e) && e.k.VJmp?
    {
      var rk1 := if e1.k.VK? then BITRK + e1.k.info else e1.k.info;
      assert rk1 == rk && (rk < t2.n || rk >= BITRK);
      var rk2 := SecondOperand(e1, e20, t1, t2, tl2, fl2);
      e := EmitComparison(op, rk1, rk2, t1, s1, t2);
    }

    /** The second operand in R/K form; both operands give up their registers. */
    method SecondOperand(e1: ExpDesc, e20: ExpDesc, ghost t1: Task, ghost t2: Task, ghost tl2: seq<int>,
                         ghost fl2: seq<int>)
      returns (rk2: nat)
      requires nactvar <= t1.n && (e1.k.VNonReloc? || e1.k.VK?)
      requires IsTemp(e1.k) ==> e1.k.info == t1.n
      requires t2.n == t1.n + (if IsTemp(e1.k) then 1 else 0)
      requires Holds(t2, e20, tl2, fl2) && RegsOk(t2, e20) && t2.n + 1 < MAXREGS
      modifies this`code, this`jpc, this`here, this`pend, this`k, this`scanner, this`lasttarget, this`freereg
      ensures OperandOk(t2, Now(), rk2) && HereOk() && freereg == t1.n
    {
      var e2;
      e2, rk2 := Exp2RK(e20, t2, tl2, fl2);
      FreeExps(e1, e2, t1.n);
    }

    /** The opcode and the order of the operands. */
    method CodeCompare(op: CompareOp, rk1: nat, rk2: nat) returns (j: nat, ghost mid: Snap)
      requires HereOk() && Elems(here) <= pend
      modifies this`code, this`jpc, this`here, this`pend
      ensures Discharged(old(Now()), mid) && j == |mid.code| + 1
      ensures code == mid.code + [CompareInstr(op, rk1, rk2), Jmp(NO_JUMP)]
      ensures Now() == mid.(code := code, pend := mid.pend + {j}) && here == [] && HereOk()
    {
      if op.OpNe? {
        j, mid := CondJump(Cmp(EQ, false, rk1, rk2));
      } else if op.OpGt? || op.OpGe? {
        j, mid := CondJump(Cmp(if op.OpGt? then LT else LE, true, rk2, rk1));
      } else {
        j, mid := CondJump(Cmp(if op.OpEq? then EQ else if op.OpLt? then LT else LE, true, rk1, rk2));
      }
    }

    /** The comparison of two operands, with its jump. */
    method EmitComparison(op: CompareOp, rk1: nat, rk2: nat, ghost t1: Task, ghost s1: Snap, ghost t2: Task)
      returns (e: ExpDesc)
      requires t1.cmp == cmp == t2.cmp && nactvar <= t1.n <= t2.n && HereOk()
      requires OperandOk(t1, s1, rk1) && OperandOk(t2, Now(), rk2)
      requires t2.s0 == s1 && Closed(t2.src, nactvar) && (rk1 < t2.n || rk1 >= BITRK)
      modifies this`code, this`jpc, this`here, this`pend
      ensures Holds(t1.(src := ECompare(op, t1.src, t2.src)), e, [], []) && e.k.VJmp?
    {
      ghost var s2 := Now();
      var j;
      ghost var mid;
      j, mid := CodeCompare(op, rk1, rk2);
      e := ExpDesc(VJmp(j), NO_JUMP, NO_JUMP);
      ghost var d := Delayed(mid, code, VJmp(j), {}, {});
      pend := pend - {j};
      ComparisonCoded(op, t1, s1, rk1, t2, s2, rk2, d, nactvar);
      assert Elems([]) == {} && mid.pend + {j} - {j} == mid.pend;
      assert Delay(e.k, [], []) == d;
    }

    // ---- Whole expressions ----

    /** simpleexp and singlevar: constants, and locals in their registers. */
    method Simple(src: Expr, ghost t: Task) returns (e: ExpDesc)
      requires t == Task(cmp, Now(), freereg, src) && SnapOk(Now()) && HereOk()
      requires nactvar <= freereg && Closed(src, nactvar)
      requires src.ENil? || src.ETrue? || src.EFalse? || src.EInt? || src.EFlt? || src.EStr? || src.ELocal?
      modifies this`k, this`scanner
      ensures Holds(t, e, [], []) && RegsOk(t, e) && TrueConstant(e)
    {
      var k1: Kind;
      match src {
        case ENil => k1 := VNil;
        case ETrue => k1 := VTrue;
        case EFalse => k1 := VFalse;
        case EInt(i) => k1 := VKInt(i);
        case EFlt(f) => k1 := VKFlt(f);
        case ELocal(reg) => k1 := VLocal(reg);
        case EStr(s) =>
          var i := AddK(ShortStr(s));
          k1 := VK(i);
      }
      e := ExpDesc(k1, NO_JUMP, NO_JUMP);
      assert Elems([]) == {};
      SimpleExpr(t, Now(), k1);
    }

    /** The jumps of the first operand join the list of the second one:
        luaK_posfix for `and` (truth) and `or`. */
    method JoinOperands(truth: bool, l1: int, e20: ExpDesc, ghost t1: Task, ghost s1: Snap, ghost out: seq<int>,
                        ghost t2: Task, ghost tl2: seq<int>, ghost fl2: seq<int>)
      returns (e: ExpDesc, ghost tl: seq<int>, ghost fl: seq<int>)
      requires CondOk(t1, s1, {}, Elems(out), truth) && IsList(s1.code, l1, out)
      requires Holds(t2, e20, tl2, fl2) && RegsOk(t2, e20) && TrueConstant(e20)
      requires t2 == Task(t1.cmp, s1, t1.n, t2.src) && Closed(t2.src, nactvar)
      modifies this`code
      ensures Holds(t1.(src := if truth then EAnd(t1.src, t2.src) else EOr(t1.src, t2.src)), e, tl, fl)
      ensures RegsOk(t1, e) && TrueConstant(e)
    {
      e := DischargeVars(e20, t2, tl2, fl2);
      ghost var d2 := Delay(e.k, tl2, fl2);
      OuterKeepsList(t2, d2, l1, out);
      tl, fl := tl2, fl2;
      if truth {
        var f := Concat(e.f, l1, fl2, out);
        e, fl := e.(f := f), fl2 + out;
        ElemsConcat(fl2, out);
        RelinkKeepsList(d2.code, code, Elems(fl2), e.t, tl2);
        RelinkKeepsList(d2.code, code, Elems(fl2), jpc, here);
      } else {
        var t' := Concat(e.t, l1, tl2, out);
        e, tl := e.(t := t'), tl2 + out;
        ElemsConcat(tl2, out);
        RelinkKeepsList(d2.code, code, Elems(tl2), e.f, fl2);
        RelinkKeepsList(d2.code, code, Elems(tl2), jpc, here);
      }
      JunctionCoded(t1, s1, Elems(out), truth, t2, d2, Delay(e.k, tl, fl), nactvar);
    }

    method CompileAnd(e1: Expr, e2: Expr, ghost t: Task) returns (e: ExpDesc, ghost tl: seq<int>, ghost fl: seq<int>)
      requires CanCompile(t, EAnd(e1, e2))
      modifies this
      ensures Compiled(t, e, tl, fl)
      decreases EAnd(e1, e2), 1
    {
      ghost var t1 := t.(src := e1);
      var v;
      ghost var tl1, fl1, out;
      v, tl1, fl1 := Compile(e1, t1);
      NeedsRegister(e1);
      v, out := GoIfTrue(v, t1, tl1, fl1);
      ghost var s1 := Now();
      ghost var t2 := Task(cmp, s1, freereg, e2);
      var v2;
      v2, tl, fl := Compile(e2, t2);
      e, tl, fl := JoinOperands(true, v.f, v2, t1, s1, out, t2, tl, fl);
    }

    method CompileOr(e1: Expr, e2: Expr, ghost t: Task) returns (e: ExpDesc, ghost tl: seq<int>, ghost fl: seq<int>)
      requires CanCompile(t, EOr(e1, e2))
      modifies this
      ensures Compiled(t, e, tl, fl)
      decreases EOr(e1, e2), 1
    {
      ghost var t1 := t.(src := e1);
      var v;
      ghost var tl1, fl1, out;
      v, tl1, fl1 := Compile(e1, t1);
      NeedsRegister(e1);
      v, out := GoIfFalse(v, t1, tl1, fl1);
      ghost var s1 := Now();
      ghost var t2 := Task(cmp, s1, freereg, e2);
      var v2;
      v2, tl, fl := Compile(e2, t2);
      e, tl, fl := JoinOperands(false, v.t, v2, t1, s1, out, t2, tl, fl);
    }

    method CompileCompare(op: CompareOp, e1: Expr, e2: Expr, ghost t: Task)
      returns (e: ExpDesc, ghost tl: seq<int>, ghost fl: seq<int>)
      requires CanCompile(t, ECompare(op, e1, e2))
      modifies this
      ensures Compiled(t, e, tl, fl)
      decreases ECompare(op, e1, e2), 1
    {
      ghost var t1 := t.(src := e1);
      NeedsRegister(e2);
      var v, rk := CompileOperand(e1, t1);
      ghost var s1 := Now();
      ghost var t2 := Task(cmp, s1, freereg, e2);
      var v2;
      v2, tl, fl := Compile(e2, t2);
      e := CodeComp(op, v, v2, t1, s1, rk, t2, tl, fl);
      tl, fl := [], [];
    }

    /** The first operand of a comparison: luaK_infix. */
    method CompileOperand(e1: Expr, ghost t1: Task) returns (v: ExpDesc, rk: nat)
      requires CanCompile(t1, e1)
      modifies this
      ensures OperandOk(t1, Now(), rk) && HereOk() && IsOperand(v, rk) && RegsOk(t1, v)
      decreases e1, 3
    {
      ghost var tl, fl;
      v, tl, fl := Compile(e1, t1);
      NeedsRegister(e1);
      v, rk := Exp2RK(v, t1, tl, fl);
    }

    /** The present state is where `t` starts, with room for it. */
    ghost predicate CanCompile(t: Task, src: Expr)
      reads this
    {
      && t == Task(cmp, Now(), freereg, src) && SnapOk(Now()) && HereOk()
      && nactvar <= freereg && Closed(src, nactvar) && freereg + Need(src) < MAXREGS
    }

    ghost predicate Compiled(t: Task, e: ExpDesc, tl: seq<int>, fl: seq<int>)
      reads this
    {
      Holds(t, e, tl, fl) && RegsOk(t, e) && TrueConstant(e)
    }

    /** subexpr, with the operators already grouped into a tree. */
    method Compile(src: Expr, ghost t: Task) returns (e: ExpDesc, ghost tl: seq<int>, ghost fl: seq<int>)
      requires CanCompile(t, src)
      modifies this
      ensures Compiled(t, e, tl, fl) && (src.EParen? ==> !e.k.VLocal?)
      decreases src, 2
    {
      match src {
        case EParen(e1) =>
          ghost var t1 := t.(src := e1);
          e, tl, fl := Compile(e1, t1);
          e := DischargeVars(e, t1, tl, fl);
          ParenExpr(t1, t, Delay(e.k, tl, fl));
        case ENot(e1) =>
          ghost var t1 := t.(src := e1);
          ghost var tl1, fl1;
          e, tl1, fl1 := Compile(e1, t1);
          NeedsRegister(e1);
          e := CodeNot(e, t1, tl1, fl1);
          tl, fl := fl1, tl1;
        case EAnd(e1, e2) => e, tl, fl := CompileAnd(e1, e2, t);
        case EOr(e1, e2) => e, tl, fl := CompileOr(e1, e2, t);
        case ECompare(op, e1, e2) => e, tl, fl := CompileCompare(op, e1, e2, t);
        case _ =>
          e := Simple(src, t);
          tl, fl := [], [];
      }
    }

    /** An expression compiled into the next free register. Whatever ran before,
        with whatever registers: the code comes to its end with the value of the
        expression in that register and the registers below unchanged. */
    method CompileToNextReg(src: Expr, ghost t: Task) returns (e: ExpDesc)
      requires CanCompile(t, src)
      modifies this
      ensures OperandOk(t, Now(), t.n) && HereOk() && freereg == t.n + 1
      ensures e == ExpDesc(VNonReloc(t.n), NO_JUMP, NO_JUMP)
    {
      ghost var tl, fl;
      e, tl, fl := Compile(src, t);
      NeedsRegister(src);
      e := Exp2NextReg(e, t, tl, fl);
    }

    /** The state of a function with `n` active locals and no code. */
    constructor (cmp: Comparison, n: nat)
      ensures this.cmp == cmp && nactvar == n && freereg == n && IsEmpty()
    {
      this.cmp, nactvar, freereg := cmp, n, n;
      code, k, scanner := [], [], map[];
      lasttarget, jpc, here, pend := 0, NO_JUMP, [], {};
    }

    ghost predicate IsEmpty()
      reads this
    {
      code == [] && k == [] && here == [] && pend == {} && jpc == NO_JUMP && lasttarget == 0
    }

    /** explist, each expression to the next register. */
    method CompileList(srcs: seq<Expr>)
      requires SnapOk(Now()) && HereOk() && nactvar <= freereg && ListFits(srcs, nactvar, freereg)
      modifies this
      ensures HereOk() && freereg == old(freereg) + |srcs|
      ensures ListOk(cmp, old(Now()), Now(), old(freereg), srcs)
    {
      ghost var s0, n := Now(), freereg;
      var i := 0;
      EmptyListOk(cmp, s0, n);
      while i < |srcs|
        invariant 0 <= i <= |srcs| && freereg == n + i && HereOk()
        invariant ListOk(cmp, s0, Now(), n, srcs[..i])
      {
        ghost var s1 := Now();
        ghost var t := Task(cmp, s1, freereg, srcs[i]);
        var e := CompileToNextReg(srcs[i], t);
        ListStep(cmp, s0, s1, n, srcs[..i], t, Now(), nactvar);
        assert srcs[..i + 1] == srcs[..i] + [srcs[i]];
        i := i + 1;
      }
      assert srcs[..|srcs|] == srcs;
    }

    /** A function of its own that computes a list of expressions: run from its
        first instruction, the finished code falls off its end with their values
        in the registers behind the locals, which are unchanged. */
    method CompileWhole(srcs: seq<Expr>)
      requires IsEmpty() && freereg == nactvar && ListFits(srcs, nactvar, nactvar)
      modifies this
      ensures CodeOk(|k|, code, {})
      ensures forall r :: Computes(Machine(k, cmp), code, srcs, nactvar, r)
    {
      ghost var s0 := Now();
      assert Elems([]) == {};
      CompileList(srcs);
      ghost var s1 := Now();
      DischargeJpc();
      assert Elems([]) == {};
      WholeComputes(cmp, s0, s1, Now(), nactvar, srcs);
    }
  }
}
