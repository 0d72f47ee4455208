/** Lists of pending jumps, threaded through the jump instructions themselves
    (src/lcode.c). */
module JumpLists {
  import opened CodeMachine

  /** Next element of the list that the jump at `j` belongs to. */
  function GetJump(code: seq<Instr>, j: nat): int
    requires j < |code| && code[j].Jmp?
  {
    if code[j].sbx == NO_JUMP then NO_JUMP else j + 1 + code[j].sbx
  }

  ghost predicate Distinct(s: seq<int>) {
    forall i, j :: 0 <= i < j < |s| ==> s[i] != s[j]
  }

  ghost predicate LinkOk(code: seq<Instr>, s: seq<int>, i: nat)
    requires i < |s|
  {
    && 0 <= s[i] < |code| && code[s[i]].Jmp?
    && GetJump(code, s[i]) == if i + 1 < |s| then s[i + 1] else NO_JUMP
  }

  /** `head` is a finite chain of jumps that visits `s`, each once. */
  ghost predicate IsList(code: seq<Instr>, head: int, s: seq<int>) {
    && head == (if s == [] then NO_JUMP else s[0])
    && Distinct(s)
    && forall i :: 0 <= i < |s| ==> LinkOk(code, s, i)
  }

  ghost function Elems(s: seq<int>): set<int> {
    set x | x in s
  }

  /** A chain of links determines its elements. */
  lemma {:induction false} ListUnique(code: seq<Instr>, head: int, s: seq<int>, s': seq<int>)
    requires IsList(code, head, s) && IsList(code, head, s')
    ensures s == s'
    decreases |s|
  {
    if s != [] { assert LinkOk(code, s, 0); }
    if s' != [] { assert LinkOk(code, s', 0); }
    if s != [] && s' != [] {
      ListTail(code, head, s);
      ListTail(code, head, s');
      ListUnique(code, GetJump(code, head), s[1..], s'[1..]);
    }
  }

  lemma ListJumps(code: seq<Instr>, head: int, s: seq<int>)
    requires IsList(code, head, s)
    ensures forall j :: j in Elems(s) ==> 0 <= j < |code| && code[j].Jmp?
  {
    forall j | j in Elems(s) ensures 0 <= j < |code| && code[j].Jmp? {
      var i :| 0 <= i < |s| && s[i] == j;
      assert LinkOk(code, s, i);
    }
  }

  lemma ListTail(code: seq<Instr>, head: int, s: seq<int>)
    requires IsList(code, head, s) && s != []
    ensures 0 <= head < |code| && code[head].Jmp? && IsList(code, GetJump(code, head), s[1..])
  {
    assert LinkOk(code, s, 0);
    forall i | 0 <= i < |s| - 1 ensures LinkOk(code, s[1..], i) {
      assert LinkOk(code, s, i + 1);
    }
  }

  /** The test that controls a jump; the jump itself when it is unconditional. */
  function Control(code: seq<Instr>, j: nat): (c: nat)
    requires j < |code|
    ensures c == j || c + 1 == j
  {
    if j >= 1 && IsTest(code[j - 1]) then j - 1 else j
  }

  /** The jump belongs to a test that also produces a value. */
  predicate ProducesValue(code: seq<Instr>, j: nat)
    requires j < |code|
  {
    j >= 1 && code[j - 1].TestSet?
  }

  /** A list whose jumps nobody else touches survives a patch. */
  lemma PatchKeepsList(code: seq<Instr>, code': seq<Instr>, list: set<int>, head: int, s: seq<int>)
    requires IsList(code, head, s) && Patched(code, code', list) && Elems(s) !! list
    ensures IsList(code', head, s)
  {
    forall i | 0 <= i < |s| ensures LinkOk(code', s, i) {
      assert LinkOk(code, s, i);
      assert s[i] in Elems(s);
      assert PatchedAt(code, code', list, s[i]);
    }
  }

  lemma AppendKeepsList(code: seq<Instr>, ext: seq<Instr>, head: int, s: seq<int>)
    requires IsList(code, head, s)
    ensures IsList(code + ext, head, s)
  {
    forall i | 0 <= i < |s| ensures LinkOk(code + ext, s, i) {
      assert LinkOk(code, s, i);
    }
  }
}
