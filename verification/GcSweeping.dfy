/** Closing upvalues and sweeping (src/lfunc.c, src/lgc.c). */
module GcSweeping {
  import opened LuaValues
  import opened GcHeap
  import opened GcState
  import opened GcMarking
  import opened GcAtomic

  // ---- luaF_close ----

  /** Some open upvalues of the thread have been closed: nobody sees another value. */
  ghost predicate ClosedUps(h: Heap, h': Heap, th: Ref) {
    && IsThread(h, th) && IsThread(h', th) && h'.ups.Keys == h.ups.Keys
    && h'.objs == h.objs[th := Thread(h.objs[th].stack, h'.objs[th].openupval)]
    && (forall u :: u in h.ups ==> ClosedAt(h, h', th, u))
    && (forall u :: UpValue(h', u) == UpValue(h, u))
  }

  predicate ClosedAt(h: Heap, h': Heap, th: Ref, u: Up)
    requires u in h.ups && u in h'.ups
  {
    h'.ups[u] == h.ups[u] || (OpenIn(h, u, th) && h'.ups[u] == Closed(UpValue(h, u)))
  }

  /** The heap after the first open upvalue of the thread has been closed. */
  function CloseFirst(h: Heap, th: Ref): Heap
    requires IsThread(h, th) && h.objs[th].openupval != []
  {
    var t := h.objs[th];
    Heap(h.objs[th := Thread(t.stack, t.openupval[1..])],
         h.ups[t.openupval[0] := Closed(UpValue(h, t.openupval[0]))])
  }

  lemma FirstClosed(h: Heap, th: Ref)
    requires UpvaluesOk(h) && IsThread(h, th) && h.objs[th].openupval != []
    ensures ClosedUps(h, CloseFirst(h, th), th) && UpvaluesOk(CloseFirst(h, th))
  {
    var h', l := CloseFirst(h, th), h.objs[th].openupval;
    assert ThreadOk(h, th) && OpenIn(h, l[0], th);
    forall u ensures UpValue(h', u) == UpValue(h, u) {
    }
    forall t | IsThread(h', t) ensures ThreadOk(h', t) {
      assert ThreadOk(h, t);
      var l' := h'.objs[t].openupval;
      forall i | 0 <= i < |l'| ensures OpenIn(h', l'[i], t) && h'.ups[l'[i]].slot < |h'.objs[t].stack| {
        assert OpenIn(h, h.objs[t].openupval[if t == th then i + 1 else i], t);
      }
    }
    forall u | u in h'.ups && h'.ups[u].Open? ensures OpenUpOk(h', u) {
      assert OpenUpOk(h, u);
      if h.ups[u].thread == th {
        var i :| 0 <= i < |l| && l[i] == u;
        assert l[1..][i - 1] == u;
      }
    }
    forall a | a in h'.objs ensures ClosureOk(h', h'.objs[a]) {
      assert ClosureOk(h, h.objs[a]);
    }
  }

  lemma ClosedUpsTransitive(h: Heap, h1: Heap, h2: Heap, th: Ref)
    requires ClosedUps(h, h1, th) && ClosedUps(h1, h2, th)
    ensures ClosedUps(h, h2, th)
  {
    forall u | u in h.ups ensures ClosedAt(h, h2, th, u) {
      assert ClosedAt(h, h1, th, u) && ClosedAt(h1, h2, th, u);
    }
  }

  lemma ClosedUpsClosed(h: Heap, h': Heap, th: Ref, s: set<Ref>)
    requires ClosedUps(h, h', th) && ClosedSet(h, s)
    ensures ClosedSet(h', s)
  {
    forall a | a in s ensures StaysIn(h', a, s) {
      assert StaysIn(h, a, s);
    }
  }

  lemma NothingClosed(h: Heap, th: Ref)
    requires IsThread(h, th)
    ensures ClosedUps(h, h, th) && NewlyClosed(h.ups, h.ups, {})
  {
  }

  /** Values of upvalues closed since are in `s`. */
  ghost predicate NewlyClosed(ups: map<Up, UpVal>, ups': map<Up, UpVal>, s: set<Ref>) {
    forall u :: u in ups && u in ups' && ups[u].Open? && ups'[u].Closed? ==> PtrIn(ups'[u].value, s)
  }

  /** Only upvalues from the level up have been closed. */
  ghost predicate ClosedAbove(h: Heap, h': Heap, th: Ref, level: nat) {
    forall u :: OpenIn(h, u, th) && h.ups[u].slot < level ==> OpenIn(h', u, th)
  }

  /** Exactly the upvalues from the level up have been closed. */
  ghost predicate ClosedFrom(h: Heap, h': Heap, th: Ref, level: nat) {
    forall u :: OpenIn(h, u, th) ==> (OpenIn(h', u, th) <==> h.ups[u].slot < level)
  }

  predicate FirstIsOpen(h: Heap, th: Ref)
    requires IsThread(h, th)
  {
    h.objs[th].openupval != [] ==> OpenIn(h, h.objs[th].openupval[0], th)
  }

  lemma ThreadIsOk(h: Heap, th: Ref)
    requires UpvaluesOk(h) && IsThread(h, th)
    ensures FirstIsOpen(h, th)
  {
    assert ThreadOk(h, th);
  }

  lemma StillOpen(h: Heap, h': Heap, th: Ref, level: nat)
    requires ClosedUps(h, h', th) && UpvaluesOk(h') && ClosedAbove(h, h', th, level)
    requires FirstIsOpen(h', th)
    requires h'.objs[th].openupval != [] ==> h'.ups[h'.objs[th].openupval[0]].slot < level
    ensures ClosedFrom(h, h', th, level)
  {
    forall u | OpenIn(h, u, th) ensures OpenIn(h', u, th) <==> h.ups[u].slot < level {
      assert ClosedAt(h, h', th, u);
      if OpenIn(h', u, th) {
        assert OpenUpOk(h', u) && ThreadOk(h', th);
        var l := h'.objs[th].openupval;
        var i :| 0 <= i < |l| && l[i] == u;
        assert i > 0 ==> h'.ups[l[0]].slot > h'.ups[l[i]].slot;
      }
    }
  }

  lemma HeadClosed(h: Heap, h1: Heap, h2: Heap, th: Ref, level: nat)
    requires ClosedUps(h, h1, th) && ClosedUps(h1, h2, th) && ClosedAbove(h, h1, th, level)
    requires h1.objs[th].openupval != [] && h1.objs[th].openupval[0] in h1.ups && h2 == CloseFirst(h1, th)
    requires h1.ups[h1.objs[th].openupval[0]].Open? && h1.ups[h1.objs[th].openupval[0]].slot >= level
    ensures ClosedUps(h, h2, th) && ClosedAbove(h, h2, th, level)
  {
    ClosedUpsTransitive(h, h1, h2, th);
    forall u | OpenIn(h, u, th) && h.ups[u].slot < level ensures OpenIn(h2, u, th) {
      assert ClosedAt(h, h1, th, u);
    }
  }

  lemma HeadCloses(h1: Heap, h2: Heap, th: Ref, m: Marks, m1: Marks, g: seq<Ref>, g1: seq<Ref>)
    requires ClosedUps(h1, h2, th) && ClosedSet(h1, h1.objs.Keys) && h1.objs[th].openupval != [] && FirstIsOpen(h1, th)
    requires Grown(h1.objs, m, g, m1, g1) && h2 == CloseFirst(h1, th)
    ensures ClosedSet(h2, h2.objs.Keys) && Grown(h2.objs, m, g, m1, g1)
    ensures PtrIn(h2.ups[h1.objs[th].openupval[0]].value, h2.objs.Keys)
  {
    assert h2.objs.Keys == h1.objs.Keys;
    ClosedUpsClosed(h1, h2, th, h1.objs.Keys);
    forall x | x in m ensures GrownAt(h2.objs, m, m1, x) {
      assert GrownAt(h1.objs, m, m1, x);
    }
    var u := h1.objs[th].openupval[0];
    if u in h1.ups && h1.ups[u].Open? {
      var t, slot := h1.ups[u].thread, h1.ups[u].slot;
      if t in h1.objs {
        assert StaysIn(h1, t, h1.objs.Keys);
        assert IsThread(h1, t) && slot < |h1.objs[t].stack| ==> PtrIn(Direct(h1.objs[t])[slot], h1.objs.Keys);
      }
    }
  }

  lemma HeadMarked(h: Heap, h1: Heap, h2: Heap, th: Ref, m: Marks, g: seq<Ref>, m1: Marks, g1: seq<Ref>, m2: Marks,
                   g2: seq<Ref>)
    requires Grown(h2.objs, m, g, m1, g1) && Grown(h2.objs, m1, g1, m2, g2)
    requires IsThread(h1, th) && h1.objs[th].openupval != [] && h2 == CloseFirst(h1, th)
    requires NewlyClosed(h.ups, h1.ups, NonWhite(m1))
    requires PtrIn(h2.ups[h1.objs[th].openupval[0]].value, NonWhite(m2))
    ensures Grown(h2.objs, m, g, m2, g2) && NewlyClosed(h.ups, h2.ups, NonWhite(m2))
  {
    GrownTransitive(h2.objs, m, g, m1, g1, m2, g2);
    GrownWhites(h2.objs, m1, g1, m2, g2);
  }

  // ---- sweeplist ----

  /** A sweep takes nothing away that is live. */
  ghost predicate LiveKept(s: Snap, s': Snap) {
    && s' == s.(objs := s'.objs, ups := s'.ups, marked := s'.marked, allgc := s'.allgc, sweepgc := s'.sweepgc)
    && (forall x :: x in Live(s) ==> KeptObj(s, s', x))
    && (forall u :: UpValue(HeapOf(s'), u) == UpValue(HeapOf(s), u))
    && SmallerHeap(HeapOf(s), HeapOf(s')) && Live(s') <= Live(s)
  }

  /** Objects may have gone and upvalues been closed. */
  ghost predicate SmallerHeap(h: Heap, h': Heap) {
    && h'.objs.Keys <= h.objs.Keys
    && (forall x :: x in h'.objs ==> StrongAt(h, h', x))
    && (forall u :: u in h'.ups && h'.ups[u].Open? ==> u in h.ups && h.ups[u].Open?)
  }

  lemma SmallerTransitive(h: Heap, h1: Heap, h2: Heap)
    requires SmallerHeap(h, h1) && SmallerHeap(h1, h2)
    ensures SmallerHeap(h, h2)
  {
    forall x | x in h2.objs ensures StrongAt(h, h2, x) {
      assert StrongAt(h1, h2, x) && StrongAt(h, h1, x);
    }
  }

  predicate KeptObj(s: Snap, s': Snap, x: Ref) {
    x in Live(s') && x in s.objs && x in s'.objs && s'.objs[x] == s.objs[x]
  }

  lemma LiveKeptSame(s: Snap)
    requires s.marked.Keys == s.objs.Keys
    ensures LiveKept(s, s)
  {
  }

  lemma LiveKeptTransitive(s: Snap, s1: Snap, s2: Snap)
    requires LiveKept(s, s1) && LiveKept(s1, s2)
    ensures LiveKept(s, s2)
  {
    SmallerTransitive(HeapOf(s), HeapOf(s1), HeapOf(s2));
    forall x | x in Live(s) ensures KeptObj(s, s2, x) {
      assert KeptObj(s, s1, x) && KeptObj(s1, s2, x);
    }
  }

  /** The object at the position of the sweep is on no other list. */
  lemma SweepTarget(s: Snap, i: nat)
    requires Structure(s) && i < |s.allgc|
    ensures var x := s.allgc[i]; x in s.objs && x !in s.fixedgc && x != s.mainthread
    ensures s.allgc[i] !in s.allgc[..i] && s.allgc[i] !in s.allgc[i + 1..]
  {
    var x := s.allgc[i];
    assert Owners(s, x) == Count(x in s.objs);
    assert s.allgc == s.allgc[..i] + [x] + s.allgc[i + 1..];
    assert multiset(s.allgc) == multiset(s.allgc[..i]) + multiset{x} + multiset(s.allgc[i + 1..]);
    var before, after := s.allgc[..i], s.allgc[i + 1..];
    assert x in s.fixedgc <==> multiset(s.fixedgc)[x] >= 1;
    assert x in before <==> multiset(before)[x] >= 1;
    assert x in after <==> multiset(after)[x] >= 1;
  }

  /** A live object that is not fixed is made white again; the state may change. */
  lemma Whitened(s: Snap, s': Snap, x: Ref)
    requires Common(s) && x in Live(s) && x !in s.fixedgc
    requires s' == s.(marked := s.marked[x := s.currentwhite], gcstate := s'.gcstate, sweepgc := s'.sweepgc)
    ensures Common(s') && Live(s') == Live(s) && LiveKept(s.(gcstate := s'.gcstate), s')
  {
    assert s'.currentwhite != Ow(s');
    assert Live(s') == Live(s) && HeapOf(s') == HeapOf(s);
    forall y ensures Owners(s', y) == Count(y in s'.objs) {
      assert Owners(s', y) == Owners(s, y) && Owners(s, y) == Count(y in s.objs);
    }
    forall y | y in s'.fixedgc ensures IsFixed(s', y) {
      assert IsFixed(s, y);
    }
    LiveKeptSame(s);
  }

  lemma SweptLive(s: Snap, s': Snap, i: nat)
    requires Inv(s) && s.gcstate.SwpAllGc? && s.sweepgc == Some(i) && i < |s.allgc| && s.allgc[i] in Live(s)
    requires s' == s.(marked := s.marked[s.allgc[i] := s.currentwhite], sweepgc := Some(i + 1))
    ensures Inv(s') && LiveKept(s, s') && Live(s') == Live(s)
  {
    SweepTarget(s, i);
    Whitened(s, s', s.allgc[i]);
    PositionMoved(s, s', i);
    assert SweepPhaseOk(s');
  }

  lemma PositionMoved(s: Snap, s': Snap, i: nat)
    requires SweepOk(s) && s.sweepgc == Some(i) && i < |s.allgc|
    requires s.gcstate.SwpAllGc? && IsWhite(s.currentwhite) && s.allgc[i] != s.mainthread
    requires s' == s.(marked := s.marked[s.allgc[i] := s.currentwhite], sweepgc := Some(i + 1))
    ensures SweepOk(s')
  {
    assert s'.mainthread in NonWhite(s'.marked);
  }

  /** A dead object without open upvalues goes away. */
  lemma SweptDead(s: Snap, s': Snap, i: nat)
    requires Inv(s) && s.gcstate.SwpAllGc? && s.sweepgc == Some(i) && i < |s.allgc| && s.allgc[i] !in Live(s)
    requires s' == s.(objs := s.objs - {s.allgc[i]}, marked := s.marked - {s.allgc[i]},
                      allgc := s.allgc[..i] + s.allgc[i + 1..])
    requires forall u :: u in s.ups && s.ups[u].Open? ==> s.ups[u].thread != s.allgc[i]
    ensures Inv(s') && LiveKept(s, s') && Live(s') == Live(s)
  {
    var x, h, h' := s.allgc[i], HeapOf(s), HeapOf(s');
    SweepTarget(s, i);
    assert Live(s') == Live(s);
    forall u ensures UpValue(h', u) == UpValue(h, u) {
    }
    DeadStructure(s, s', i);
    forall a | a in Live(s') ensures StaysIn(h', a, Live(s')) {
      assert StaysIn(h, a, Live(s));
      assert h.objs[a].LClosure? ==> PtrIn(Direct(h.objs[a])[0], Live(s));
    }
    forall j | 0 <= j < i ensures s'.allgc[j] in s'.marked && s'.marked[s'.allgc[j]] == s.currentwhite {
      assert s'.allgc[j] == s.allgc[j] && s.allgc[..i][j] == s.allgc[j];
    }
  }

  lemma DeadStructure(s: Snap, s': Snap, i: nat)
    requires Structure(s) && LiveOk(s) && i < |s.allgc| && s.allgc[i] !in Live(s)
    requires s' == s.(objs := s.objs - {s.allgc[i]}, marked := s.marked - {s.allgc[i]},
                      allgc := s.allgc[..i] + s.allgc[i + 1..])
    requires forall u :: u in s.ups && s.ups[u].Open? ==> s.ups[u].thread != s.allgc[i]
    ensures Structure(s')
  {
    var x, h, h' := s.allgc[i], HeapOf(s), HeapOf(s');
    SweepTarget(s, i);
    assert s.allgc == s.allgc[..i] + [x] + s.allgc[i + 1..];
    assert multiset(s.allgc) == multiset(s'.allgc) + multiset{x};
    forall y ensures Owners(s', y) == Count(y in s'.objs) {
      assert Owners(s, y) == Count(y in s.objs);
    }
    forall y | y in s'.fixedgc ensures IsFixed(s', y) {
      assert IsFixed(s, y);
    }
    forall t | IsThread(h', t) ensures ThreadOk(h', t) {
      assert ThreadOk(h, t);
    }
    forall u | u in h'.ups && h'.ups[u].Open? ensures OpenUpOk(h', u) {
      assert OpenUpOk(h, u);
    }
    forall a | a in h'.objs ensures ClosureOk(h', h'.objs[a]) {
      assert ClosureOk(h, h.objs[a]);
    }
  }

  /** The lists of all objects do not depend on what is in the objects. */
  lemma SameLists(s: Snap, s': Snap)
    requires Structure(s) && s'.objs.Keys == s.objs.Keys && s'.marked == s.marked && s'.allgc == s.allgc
    requires s'.fixedgc == s.fixedgc && s'.mainthread == s.mainthread
    requires forall x :: x in s.objs && s.objs[x].Str? ==> s'.objs[x].Str?
    ensures FixedOk(s') && forall x :: Owners(s', x) == Count(x in s'.objs)
  {
    forall x ensures Owners(s', x) == Count(x in s'.objs) {
      assert Owners(s, x) == Count(x in s.objs) && Owners(s', x) == Owners(s, x);
    }
    forall x | x in s'.fixedgc ensures IsFixed(s', x) {
      assert IsFixed(s, x);
    }
  }

  lemma ClosedCommon(s: Snap, s': Snap, th: Ref)
    requires Common(s) && s' == s.(objs := s'.objs, ups := s'.ups)
    requires ClosedUps(HeapOf(s), HeapOf(s'), th) && UpvaluesOk(HeapOf(s'))
    ensures Common(s') && Live(s') == Live(s)
  {
    assert Live(s') == Live(s);
    ClosedUpsClosed(HeapOf(s), HeapOf(s'), th, Live(s));
    SameLists(s, s');
    forall t | t in Live(s') && HasOpen(HeapOf(s'), t) ensures t in s'.twups {
      assert ThreadOk(HeapOf(s'), t);
      var u := s'.objs[t].openupval[0];
      assert OpenIn(HeapOf(s'), u, t) && ClosedAt(HeapOf(s), HeapOf(s'), th, u);
      assert OpenUpOk(HeapOf(s), u);
      assert HasOpen(HeapOf(s), t);
    }
  }

  /** Closing the upvalues of a thread that is not live, while sweeping. */
  lemma DeadThreadClosed(s: Snap, s': Snap, th: Ref)
    requires Inv(s) && s.gcstate.SwpAllGc? && th !in Live(s) && s' == s.(objs := s'.objs, ups := s'.ups)
    requires ClosedUps(HeapOf(s), HeapOf(s'), th) && UpvaluesOk(HeapOf(s'))
    ensures Inv(s') && LiveKept(s, s') && Live(s') == Live(s)
  {
    ClosedCommon(s, s', th);
    assert SweepPhaseOk(s');
    ClosedKept(s, s', th);
  }

  lemma ClosedKept(s: Snap, s': Snap, th: Ref)
    requires LiveOk(s) && s.marked.Keys == s.objs.Keys && th !in Live(s) && s' == s.(objs := s'.objs, ups := s'.ups)
    requires ClosedUps(HeapOf(s), HeapOf(s'), th) && Live(s') == Live(s)
    ensures LiveKept(s, s')
  {
    forall u | u in s'.ups && s'.ups[u].Open? ensures u in s.ups && s.ups[u].Open? {
      assert ClosedAt(HeapOf(s), HeapOf(s'), th, u);
    }
  }

  // ---- atomic ----

  /** The collector has worked on marks and lists; the program sees the same graph. */
  ghost predicate Progressed(s: Snap, s': Snap) {
    && s' == s.(objs := s'.objs, ups := s'.ups, marked := s'.marked, gray := s'.gray, grayagain := s'.grayagain,
                twups := s'.twups, gcstate := s'.gcstate, currentwhite := s'.currentwhite)
    && SameGraph(HeapOf(s), HeapOf(s')) && s'.marked.Keys == s.marked.Keys && NonWhite(s.marked) <= NonWhite(s'.marked)
  }

  lemma ProgressedTransitive(s: Snap, s1: Snap, s2: Snap)
    requires Progressed(s, s1) && Progressed(s1, s2)
    ensures Progressed(s, s2)
  {
    forall x | x in s.objs ensures SameObj(s.objs, s2.objs, x) {
      assert SameObj(s.objs, s1.objs, x) && SameObj(s1.objs, s2.objs, x);
    }
  }

  lemma AdvancedIsProgress(s: Snap, s': Snap)
    requires Advanced(s, s')
    ensures Progressed(s, s')
  {
    AdvancedGraph(s, s');
  }

  /** The state in which a sweep may begin. */
  ghost predicate CanSweep(s: Snap) {
    && Structure(s) && LiveOk(s) && s.mainthread in NonWhite(s.marked) && s.sweepgc.None?
    && (forall th :: th in s.twups ==> IsThread(HeapOf(s), th) && th in Live(s))
    && (forall th :: th in Live(s) && HasOpen(HeapOf(s), th) ==> th in s.twups)
  }

  /** The mark phase is over: flip the current white. */
  lemma AtomicFlip(s0: Snap, s: Snap, done: seq<Ref>, s': Snap)
    requires Structure(s0) && Progressed(s0, s) && s.sweepgc.None?
    requires Marking(s, [], done, {}, true) && s.gray == []
    requires Roots(s) <= NonWhite(s.marked) && s' == s.(currentwhite := Ow(s))
    ensures CanSweep(s') && Progressed(s0, s') && Live(s') == NonWhite(s'.marked)
  {
    AtomicDone(s, done, s');
    forall x | x in s'.fixedgc ensures IsFixed(s', x) {
      assert IsFixed(s, x);
    }
    forall x ensures Owners(s', x) == Count(x in s'.objs) {
      assert Owners(s', x) == Owners(s0, x) && s'.objs.Keys == s0.objs.Keys;
    }
    assert SameObj(s0.objs, s'.objs, s0.mainthread) && SameObj(s0.objs, s'.objs, s0.running);
  }

  /** A sweep at the beginning of the list has passed nothing. */
  lemma SweepBegins(s: Snap, s': Snap)
    requires CanSweep(s) && s' == s.(gcstate := SwpAllGc, sweepgc := Some(0))
    ensures Inv(s') && Live(s') == Live(s)
  {
    assert Live(s') == Live(s);
    forall x | x in s'.fixedgc ensures IsFixed(s', x) {
      assert IsFixed(s, x);
    }
    forall x ensures Owners(s', x) == Count(x in s'.objs) {
      assert Owners(s', x) == Owners(s, x);
    }
  }

  /** A sweep may begin at any time during the mark phase; it will free nothing. */
  lemma MarkingCanSweep(s: Snap)
    requires Inv(s) && KeepInvariant(s.gcstate)
    ensures CanSweep(s) && Live(s) == s.objs.Keys
  {
    AllLive(s);
  }

  lemma RootsAgain(s: Snap, s1: Snap, s2: Snap)
    requires Marking(s, s.grayagain, [], ToSet(s.twups), false) && s1 == s.(gcstate := InsideAtomic)
    requires s2 == s1.(marked := s2.marked, gray := s2.gray) && Grown(s1.objs, s1.marked, s1.gray, s2.marked, s2.gray)
    requires s.mainthread in NonWhite(s.marked) && s.running in NonWhite(s2.marked)
    requires PtrSet([s.registry] + s.mt) <= NonWhite(s2.marked)
    ensures Marking(s2, s2.grayagain, [], ToSet(s2.twups), false) && Roots(s2) <= NonWhite(s2.marked) &&
            Progressed(s, s2)
  {
    SamePhaseTri(s, s1, s.grayagain, [], ToSet(s.twups), false);
    SamePhaseGraph(s, s1, ToSet(s.twups), false);
    RootsMarked(s1, s2, s.grayagain, ToSet(s.twups));
    AdvancedGraph(s1, s2);
    GrownWhites(s1.objs, s1.marked, s1.gray, s2.marked, s2.gray);
  }

  lemma SamePhaseGraph(s: Snap, s': Snap, waiting: set<Ref>, atomic: bool)
    requires Graph(s, waiting, atomic) && s' == s.(gcstate := s'.gcstate, gray := s'.gray)
    ensures Graph(s', waiting, atomic)
  {
    forall x | x in s'.fixedgc ensures IsFixed(s', x) {
      assert IsFixed(s, x);
    }
    forall th | th in s'.twups ensures IsTwup(s', th, atomic) {
      assert IsTwup(s, th, atomic);
    }
  }

  /** What was to be visited again is put on the gray list. */
  lemma AgainIsGray(s: Snap, s': Snap, again: seq<Ref>, done: seq<Ref>)
    requires Marking(s, again, done, {}, true) && s.gray == [] && s' == s.(gray := again)
    ensures Marking(s', [], done, {}, true) && Progressed(s, s')
  {
    var none: seq<Ref> := [];
    BlacksKept(s, s', {}, true, {});
    DonesKept(s, s', done);
    forall x | x in s'.marked ensures ColorOk(s', x) {
      assert ColorOk(s, x);
    }
    forall x ensures OnLists(s'.gray, none, done, x) == Count(MustBeListed(s'.marked, s'.fixedgc, x)) {
      assert OnLists(s.gray, again, done, x) == Count(MustBeListed(s.marked, s.fixedgc, x));
    }
    SamePhaseGraph(s, s', {}, true);
  }

  // ---- Whole steps ----

  /** As it comes out on a machine with pointers of eight bytes. */
  const GCSWEEPMAX: nat := 85

  /** What is left to do in the present state. */
  function Inner(s: Snap): nat {
    if s.gcstate.Propagate? then Remaining(s)
    else if s.gcstate.SwpAllGc? && s.sweepgc.Some? && s.sweepgc.value <= |s.allgc| then 1 + |s.allgc| - s.sweepgc.value
    else 0
  }

  /** Whatever the program can get at is still there with the same contents, every
      upvalue has the same value, and there are no new objects. */
  ghost predicate Safe(s: Snap, s': Snap) {
    && s'.mainthread == s.mainthread && s'.running == s.running && s'.registry == s.registry && s'.mt == s.mt
    && s'.fixedgc == s.fixedgc && s'.objs.Keys <= s.objs.Keys
    && (forall x :: Accessible(s, x) ==> Survives(s, s', x))
    && (forall u :: UpValue(HeapOf(s'), u) == UpValue(HeapOf(s), u))
  }

  ghost predicate Survives(s: Snap, s': Snap, x: Ref) {
    x in s.objs && x in s'.objs && SameObj(s.objs, s'.objs, x) && Accessible(s', x)
  }

  lemma NotOpenIn(h: Heap, th: Ref)
    requires UpvaluesOk(h) && !IsThread(h, th)
    ensures forall u :: u in h.ups && h.ups[u].Open? ==> h.ups[u].thread != th
  {
    forall u | u in h.ups && h.ups[u].Open? ensures h.ups[u].thread != th {
      assert OpenUpOk(h, u);
    }
  }

  lemma ListedExists(s: Snap, i: nat)
    requires Structure(s) && i < |s.allgc|
    ensures s.allgc[i] in s.marked && s.allgc[i] in s.objs
  {
    SweepTarget(s, i);
  }

  lemma SafeSame(s: Snap)
    requires LiveOk(s)
    ensures Safe(s, s)
  {
    forall x | Accessible(s, x) ensures Survives(s, s, x) {
      AccessibleIsLive(s, x);
    }
  }

  lemma SafeTransitive(s: Snap, s1: Snap, s2: Snap)
    requires Safe(s, s1) && Safe(s1, s2)
    ensures Safe(s, s2)
  {
    forall x | Accessible(s, x) ensures Survives(s, s2, x) {
      assert Survives(s, s1, x) && Survives(s1, s2, x);
    }
  }

  lemma SameGraphSafe(s: Snap, s': Snap)
    requires LiveOk(s) && SameGraph(HeapOf(s), HeapOf(s')) && s'.fixedgc == s.fixedgc
    requires s'.mainthread == s.mainthread && s'.running == s.running && s'.registry == s.registry && s'.mt == s.mt
    ensures Safe(s, s')
  {
    forall x | Accessible(s, x) ensures Survives(s, s', x) {
      AccessibleIsLive(s, x);
      SameGraphReaches(HeapOf(s), HeapOf(s'), Roots(s), x);
      assert SameObj(s.objs, s'.objs, x);
    }
  }

  lemma LiveKeptSafe(s: Snap, s': Snap)
    requires LiveOk(s) && LiveKept(s.(gcstate := s'.gcstate), s')
    ensures Safe(s, s')
  {
    var s0 := s.(gcstate := s'.gcstate);
    assert Live(s0) == Live(s);
    forall x | Accessible(s, x) ensures Survives(s, s', x) {
      AccessibleIsLive(s, x);
      assert KeptObj(s0, s', x);
      var p :| IsPath(HeapOf(s), Roots(s), p) && p[|p| - 1] == x;
      forall i | 0 <= i < |p| - 1 ensures Edge(HeapOf(s'), p[i], p[i + 1]) {
        PathIsLive(s, p, i);
        assert KeptObj(s0, s', p[i]) && Edge(HeapOf(s), p[i], p[i + 1]);
      }
      assert IsPath(HeapOf(s'), Roots(s'), p);
    }
  }

  lemma PathIsLive(s: Snap, p: seq<Ref>, i: nat)
    requires LiveOk(s) && IsPath(HeapOf(s), Roots(s), p) && i < |p|
    ensures p[i] in Live(s)
  {
    var q := p[..i + 1];
    assert forall j :: 0 <= j < |q| - 1 ==> Edge(HeapOf(s), p[j], p[j + 1]) ==> Edge(HeapOf(s), q[j], q[j + 1]);
    assert IsPath(HeapOf(s), Roots(s), q);
    ReachableStays(HeapOf(s), Roots(s), Live(s), q);
  }

  /** The mark phase has gone on. */
  ghost predicate Visited(s: Snap, s': Snap) {
    Advanced(s, s') && Marking(s', s'.grayagain, [], ToSet(s'.twups), false)
  }

  lemma Propagated(s: Snap, s2: Snap)
    requires Inv(s) && KeepInvariant(s.gcstate) && Visited(s, s2.(gcstate := s.gcstate))
    requires s2.gcstate == if s2.gray == [] then Atomic else s.gcstate
    ensures Inv(s2) && Safe(s, s2)
  {
    var s1 := s2.(gcstate := s.gcstate);
    AdvancedGraph(s, s1);
    SamePhaseTri(s1, s2, s1.grayagain, [], ToSet(s1.twups), false);
    SamePhaseGraph(s1, s2, ToSet(s1.twups), false);
    InvIsMarking(s);
    ChangedPhase(s, s1, s2);
    MarkingIsInv(s.(gcstate := s2.gcstate), s2);
    SameGraphSafe(s, s2);
  }

  lemma ChangedPhase(s: Snap, s1: Snap, s2: Snap)
    requires Structure(s) && Advanced(s, s1) && KeepInvariant(s.gcstate) && s2 == s1.(gcstate := s2.gcstate)
    requires KeepInvariant(s2.gcstate)
    ensures Structure(s.(gcstate := s2.gcstate)) && Advanced(s.(gcstate := s2.gcstate), s2)
  {
    var a := s.(gcstate := s2.gcstate);
    forall x | x in a.fixedgc ensures IsFixed(a, x) {
      assert IsFixed(s, x);
    }
    forall x ensures Owners(a, x) == Count(x in a.objs) {
      assert Owners(a, x) == Owners(s, x);
    }
  }

  lemma AtomicSafe(s: Snap, s1: Snap, s2: Snap, s3: Snap)
    requires Safe(s, s1) && LiveOk(s1) && Progressed(s1, s2) && LiveOk(s2) && LiveKept(s2.(gcstate := SwpAllGc), s3)
    ensures Safe(s, s3)
  {
    SameGraphSafe(s1, s2);
    LiveKeptSafe(s2, s3);
    SafeTransitive(s, s1, s2);
    SafeTransitive(s, s2, s3);
  }

  /** Only the position of the sweep and the state differ. */
  lemma SweepMoved(s: Snap, s': Snap)
    requires Inv(s) && SweepPhase(s.gcstate) && s' == s.(gcstate := s'.gcstate, sweepgc := s'.sweepgc)
    requires SweepPhase(s'.gcstate) && s'.sweepgc.None? && (s.sweepgc.Some? ==> s.sweepgc.value == |s.allgc|)
    ensures Inv(s')
  {
    OtherState(s, s');
    assert SweepPhaseOk(s');
  }

  lemma SweepOver(s: Snap, s': Snap)
    requires Inv(s) && s.gcstate.SwpAllGc? && s.sweepgc == Some(|s.allgc|) && s' == s.(sweepgc := None)
    ensures Inv(s')
  {
    SweepMoved(s, s');
  }

  lemma NextSweep(s: Snap, s1: Snap, s2: Snap)
    requires Inv(s1) && LiveKept(s, s1) && SweepPhase(s1.gcstate) && s1.sweepgc.None? && SweepPhase(s2.gcstate)
    requires s2 == s1.(gcstate := s2.gcstate)
    ensures Inv(s2) && LiveKept(s.(gcstate := s2.gcstate), s2)
  {
    SweepMoved(s1, s2);
    KeptInPhase(s, s1, s2);
  }

  lemma KeptInPhase(s: Snap, s1: Snap, s2: Snap)
    requires LiveKept(s, s1) && s2 == s1.(gcstate := s2.gcstate)
    ensures LiveKept(s.(gcstate := s2.gcstate), s2)
  {
    var a := s.(gcstate := s2.gcstate);
    assert HeapOf(a) == HeapOf(s) && HeapOf(s2) == HeapOf(s1) && Live(a) == Live(s) && Live(s2) == Live(s1);
    forall x | x in Live(a) ensures KeptObj(a, s2, x) {
      assert KeptObj(s, s1, x);
    }
  }

  lemma SweepFinished(s: Snap, s': Snap)
    requires Inv(s) && s.gcstate.SwpEnd?
    requires s' == s.(marked := s.marked[s.mainthread := s.currentwhite], gcstate := CallFin)
    ensures Inv(s') && LiveKept(s.(gcstate := CallFin), s')
  {
    MainNotFixed(s);
    Whitened(s, s', s.mainthread);
    forall x | x in s'.marked && x !in s'.fixedgc ensures s'.marked[x] == s.currentwhite {
      if x != s.mainthread { WhereListed(s, x); }
    }
    assert RestPhaseOk(s');
  }

  lemma MainNotFixed(s: Snap)
    requires Common(s)
    ensures s.mainthread !in s.fixedgc && s.mainthread in Live(s)
  {
    assert s.mainthread in s.fixedgc ==> IsFixed(s, s.mainthread);
  }

  lemma WhereListed(s: Snap, x: Ref)
    requires Structure(s) && x in s.objs && x !in s.fixedgc && x != s.mainthread
    ensures exists i :: 0 <= i < |s.allgc| && s.allgc[i] == x
  {
    assert Owners(s, x) == Count(x in s.objs);
    assert x in s.fixedgc <==> multiset(s.fixedgc)[x] >= 1;
    assert x in multiset(s.allgc);
  }

  lemma CycleOver(s: Snap, s': Snap)
    requires Inv(s) && s.gcstate.CallFin? && s' == s.(gcstate := Pause)
    ensures Inv(s') && Safe(s, s')
  {
    OtherState(s, s');
    assert RestPhaseOk(s');
    LiveKeptSafe(s, s');
  }

  /** Only the state of the collector changes. */
  lemma OtherState(s: Snap, s': Snap)
    requires Common(s) && s' == s.(gcstate := s'.gcstate, sweepgc := s'.sweepgc)
    ensures Common(s') && Live(s') == Live(s) && LiveKept(s.(gcstate := s'.gcstate), s')
  {
    assert Live(s') == Live(s) && HeapOf(s') == HeapOf(s);
    forall x ensures Owners(s', x) == Count(x in s'.objs) {
      assert Owners(s', x) == Owners(s, x) && Owners(s, x) == Count(x in s.objs);
    }
    forall x | x in s'.fixedgc ensures IsFixed(s', x) {
      assert IsFixed(s, x);
    }
    LiveKeptSame(s);
  }

  lemma DeadExists(s: Snap, i: nat)
    requires Inv(s) && i < |s.allgc|
    ensures s.allgc[i] in s.objs && UpvaluesOk(HeapOf(s))
  {
    SweepTarget(s, i);
  }

  /** The object at the position of the sweep has gone from the heap `h`. */
  function SweptAway(s: Snap, h: Heap, i: nat): Snap
    requires i < |s.allgc|
  {
    s.(objs := h.objs - {s.allgc[i]}, ups := h.ups, marked := s.marked - {s.allgc[i]},
       allgc := s.allgc[..i] + s.allgc[i + 1..])
  }

  /** A dead object has gone, after closing its upvalues gave the heap `h`. */
  lemma DeadSwept(s: Snap, h: Heap, i: nat)
    requires Inv(s) && s.gcstate.SwpAllGc? && s.sweepgc == Some(i) && i < |s.allgc| && s.allgc[i] !in Live(s)
    requires if IsThread(HeapOf(s), s.allgc[i])
             then ClosedUps(HeapOf(s), h, s.allgc[i]) && UpvaluesOk(h) && ClosedFrom(HeapOf(s), h, s.allgc[i], 0)
             else h == HeapOf(s)
    ensures Inv(SweptAway(s, h, i)) && LiveKept(s, SweptAway(s, h, i)) && Live(SweptAway(s, h, i)) == Live(s)
    ensures SweptAway(s, h, i).objs.Keys == s.objs.Keys - {s.allgc[i]}
  {
    var x, s1, s' := s.allgc[i], s.(objs := h.objs, ups := h.ups), SweptAway(s, h, i);
    if IsThread(HeapOf(s), x) {
      DeadThreadClosed(s, s1, x);
      forall u | u in h.ups && h.ups[u].Open? ensures h.ups[u].thread != x {
        assert ClosedAt(HeapOf(s), h, x, u);
        assert h.ups[u].thread == x ==> OpenIn(HeapOf(s), u, x) && OpenIn(h, u, x);
      }
    } else {
      NotOpenIn(h, x);
      LiveKeptSame(s);
    }
    SweptDead(s1, s', i);
    LiveKeptTransitive(s, s1, s');
  }

  lemma NothingFreed(s: Snap, s': Snap)
    requires LiveOk(s) && Live(s) == s.objs.Keys && LiveKept(s.(gcstate := SwpAllGc), s') && s'.gcstate.SwpAllGc?
    requires s'.objs.Keys <= s.objs.Keys
    ensures Safe(s, s') && s.objs.Keys <= Live(s') && s'.objs == s.objs
  {
    LiveKeptSafe(s, s');
    forall x | x in s.objs ensures x in Live(s') && x in s'.objs && s'.objs[x] == s.objs[x] {
      assert KeptObj(s.(gcstate := SwpAllGc), s', x);
    }
  }

  lemma NewState(s: Snap)
    requires s.objs == map[s.mainthread := Thread([], [])] && s.ups == map[] && s.marked == map[s.mainthread := White0]
    requires s.currentwhite.White0? && s.gcstate.Pause? && s.allgc == [] && s.fixedgc == [] && s.twups == []
    requires s.running == s.mainthread && s.registry == None && s.sweepgc.None?
    requires forall i :: 0 <= i < |s.mt| ==> s.mt[i] == None
    ensures Inv(s)
  {
    assert Live(s) == {s.mainthread};
    assert PtrSet([s.registry] + s.mt) == {};
    assert StaysIn(HeapOf(s), s.mainthread, Live(s));
    assert ThreadOk(HeapOf(s), s.mainthread);
    forall x ensures Owners(s, x) == Count(x in s.objs) {
    }
    assert RestPhaseOk(s);
  }

  lemma ObjectFixed(s: Snap, s': Snap)
    requires Inv(s) && s.gcstate.Pause? && s.allgc != [] && s.allgc[0] in s.objs && s.objs[s.allgc[0]].Str?
    requires s' == s.(marked := s.marked[s.allgc[0] := Gray], allgc := s.allgc[1..],
                      fixedgc := [s.allgc[0]] + s.fixedgc)
    ensures Inv(s') && s.allgc[0] in Live(s')
  {
    FixedCommon(s, s');
    assert RestPhaseOk(s');
  }

  lemma FixedCommon(s: Snap, s': Snap)
    requires Common(s) && s.allgc != [] && s.allgc[0] in s.objs && s.objs[s.allgc[0]].Str? && s.allgc[0] in Live(s)
    requires s' == s.(marked := s.marked[s.allgc[0] := Gray], allgc := s.allgc[1..],
                      fixedgc := [s.allgc[0]] + s.fixedgc)
    ensures Common(s') && s.allgc[0] in Live(s')
  {
    FixedLists(s, s');
    assert Live(s') == Live(s) && HeapOf(s') == HeapOf(s);
  }

  lemma FixedLists(s: Snap, s': Snap)
    requires Structure(s) && s.allgc != [] && s.allgc[0] in s.objs && s.objs[s.allgc[0]].Str? && s.allgc[0] in s.marked
    requires s' == s.(marked := s.marked[s.allgc[0] := Gray], allgc := s.allgc[1..],
                      fixedgc := [s.allgc[0]] + s.fixedgc)
    ensures FixedOk(s') && forall x :: Owners(s', x) == Count(x in s'.objs)
  {
    var o := s.allgc[0];
    assert s.allgc == [o] + s.allgc[1..];
    assert multiset(s.allgc) == multiset{o} + multiset(s.allgc[1..]);
    forall x ensures Owners(s', x) == Count(x in s'.objs) {
      assert Owners(s, x) == Count(x in s.objs);
    }
    forall x | x in s'.fixedgc ensures IsFixed(s', x) {
      assert x != o ==> IsFixed(s, x);
    }
  }

  // ---- What a sweep leaves ----

  /** The list after a sweep of `n` objects from position `i` on. */
  function Swept(l: seq<Ref>, i: nat, n: nat, live: set<Ref>): seq<Ref>
    decreases n
  {
    if i >= |l| || n == 0 then l
    else if l[i] in live then Swept(l, i + 1, n - 1, live)
    else Swept(l[..i] + l[i + 1..], i, n - 1, live)
  }

  /** Where the sweep stops; None at the end of the list. */
  function SweptTo(l: seq<Ref>, i: nat, n: nat, live: set<Ref>): Option<nat>
    decreases n
  {
    if i >= |l| then None
    else if n == 0 then Some(i)
    else if l[i] in live then SweptTo(l, i + 1, n - 1, live)
    else SweptTo(l[..i] + l[i + 1..], i, n - 1, live)
  }

  /** The dead objects among the `n` from position `i` on. */
  function DeadAmong(l: seq<Ref>, i: nat, n: nat, live: set<Ref>): set<Ref> {
    set j | i <= j < |l| && j < i + n && l[j] !in live :: l[j]
  }

  /** Sweeping on from `s'` ends as sweeping on from `s` would. */
  ghost predicate SweepLeads(s: Snap, i: nat, n: nat, s': Snap, i': nat, n': nat) {
    && Live(s') == Live(s)
    && Swept(s'.allgc, i', n', Live(s)) == Swept(s.allgc, i, n, Live(s))
    && SweptTo(s'.allgc, i', n', Live(s)) == SweptTo(s.allgc, i, n, Live(s))
    && s'.objs.Keys - DeadAmong(s'.allgc, i', n', Live(s)) == s.objs.Keys - DeadAmong(s.allgc, i, n, Live(s))
  }

  ghost predicate SweptSoFar(s: Snap, i: nat, n: nat, s': Snap, i': nat, n': nat) {
    LiveKept(s, s') && SweepLeads(s, i, n, s', i', n')
  }

  lemma SweepSame(s: Snap, i: nat, n: nat)
    requires s.marked.Keys == s.objs.Keys
    ensures SweptSoFar(s, i, n, s, i, n)
  {
    LiveKeptSame(s);
  }

  lemma SweepLeadsOn(s: Snap, i: nat, n: nat, s1: Snap, i1: nat, n1: nat, s2: Snap, i2: nat, n2: nat)
    requires SweptSoFar(s, i, n, s1, i1, n1) && SweptSoFar(s1, i1, n1, s2, i2, n2)
    ensures SweptSoFar(s, i, n, s2, i2, n2)
  {
    LiveKeptTransitive(s, s1, s2);
  }

  lemma SweepEnds(s: Snap, i: nat, n: nat, s': Snap, i': nat, n': nat)
    requires SweptSoFar(s, i, n, s', i', n') && (i' == |s'.allgc| || (i' < |s'.allgc| && n' == 0))
    ensures s'.allgc == Swept(s.allgc, i, n, Live(s))
    ensures SweptTo(s.allgc, i, n, Live(s)) == if i' == |s'.allgc| then None else Some(i')
    ensures s'.objs.Keys == s.objs.Keys - DeadAmong(s.allgc, i, n, Live(s))
  {
    assert DeadAmong(s'.allgc, i', n', Live(s)) == {};
  }

  lemma SweptOneDead(s: Snap, s': Snap, i: nat, n: nat)
    requires i < |s.allgc| && s'.allgc == s.allgc[..i] + s.allgc[i + 1..] && s.allgc[i] !in Live(s) && n > 0
    requires Live(s') == Live(s) && s'.objs.Keys == s.objs.Keys - {s.allgc[i]}
    ensures SweepLeads(s, i, n, s', i, n - 1)
  {
    var d, d', x := DeadAmong(s.allgc, i, n, Live(s)), DeadAmong(s'.allgc, i, n - 1, Live(s)), s.allgc[i];
    assert forall j :: i <= j < |s'.allgc| ==> s'.allgc[j] == s.allgc[j + 1];
    forall y ensures y in d <==> y == x || y in d' {
      if y in d && y != x {
        var j :| i <= j < |s.allgc| && j < i + n && s.allgc[j] !in Live(s) && s.allgc[j] == y;
        assert s'.allgc[j - 1] == y;
      }
    }
  }

  lemma SweptOneLive(s: Snap, s': Snap, i: nat, n: nat)
    requires i < |s.allgc| && s'.allgc == s.allgc && s.allgc[i] in Live(s) && n > 0
    requires Live(s') == Live(s) && s'.objs.Keys == s.objs.Keys
    ensures SweepLeads(s, i, n, s', i + 1, n - 1)
  {
    assert DeadAmong(s.allgc, i, n, Live(s)) == DeadAmong(s.allgc, i + 1, n - 1, Live(s));
  }

  /** A sweep stops further on, with less left to do. */
  lemma {:induction false} SweepProgress(l: seq<Ref>, i: nat, n: nat, live: set<Ref>)
    requires i <= |l|
    ensures var r, l' := SweptTo(l, i, n, live), Swept(l, i, n, live);
            r.Some? ==> i <= r.value < |l'| && |l'| - r.value + n == |l| - i
    decreases n
  {
    if i < |l| && n > 0 {
      if l[i] in live {
        SweepProgress(l, i + 1, n - 1, live);
      } else {
        SweepProgress(l[..i] + l[i + 1..], i, n - 1, live);
      }
    }
  }

  /** A sweep to the end of the list leaves no dead object in it. */
  lemma {:induction false} SweptClean(l: seq<Ref>, i: nat, n: nat, live: set<Ref>)
    requires i <= |l| && SweptTo(l, i, n, live).None? && forall j :: 0 <= j < i ==> l[j] in live
    ensures forall x :: x in Swept(l, i, n, live) <==> x in l && x in live
    decreases n
  {
    if i < |l| && n > 0 {
      if l[i] in live {
        SweptClean(l, i + 1, n - 1, live);
      } else {
        var l' := l[..i] + l[i + 1..];
        forall x ensures x in live ==> (x in l' <==> x in l) {
          if x in l && x in live {
            var j :| 0 <= j < |l| && l[j] == x;
            assert l'[if j < i then j else j - 1] == x;
          }
        }
        SweptClean(l', i, n - 1, live);
      }
    }
  }
}
