/** What a collection that runs alone leaves: nothing but what can be reached
    (src/lgc.c). */
module GcGarbage {
  import opened LuaValues
  import opened GcHeap
  import opened GcState
  import opened GcMarking
  import opened GcAtomic
  import opened GcSweeping

  /** What a collection starts from: the roots, and the values of open upvalues,
      whose threads may be garbage without the collector knowing it yet. */
  function Needed(s: Snap): set<Ref> {
    Roots(s) + OpenValues(HeapOf(s))
  }

  lemma FirstHalf(s: Snap, s1: Snap, s2: Snap, s3: Snap)
    requires Progressed(s, s1) && Confined(s, s1, Roots(s)) && s1.ups == s.ups
    requires RemarkedAll(s1, s2) && Advanced(s2, s3) && Confined(s2, s3, {})
    ensures Progressed(s, s3) && Confined(s, s3, Needed(s))
  {
    ProgressedTransitive(s, s1, s2);
    AdvancedIsProgress(s2, s3);
    ProgressedTransitive(s, s2, s3);
    OpenValuesProgress(s, s1);
    ConfinedTransitive(s, s1, s2, Roots(s), OpenValues(HeapOf(s1)), Needed(s));
    ConfinedTransitive(s, s2, s3, Needed(s), {}, Needed(s));
  }

  lemma AtomicEnd(s: Snap, s1: Snap, s2: Snap, s3: Snap, done: seq<Ref>, s4: Snap)
    requires Structure(s) && Progressed(s, s1) && Confined(s, s1, Needed(s)) && s2 == s1.(gray := s2.gray)
    requires Advanced(s2, s3) && Confined(s2, s3, {}) && s3.sweepgc.None? && Roots(s3) <= NonWhite(s3.marked)
    requires Marking(s3, [], done, {}, true) && s3.gray == [] && s4 == s3.(currentwhite := Ow(s3))
    ensures CanSweep(s4) && Progressed(s, s4) && Live(s4) == NonWhite(s4.marked) && Confined(s, s4, Needed(s))
  {
    assert Progressed(s, s2);
    AdvancedIsProgress(s2, s3);
    ProgressedTransitive(s, s2, s3);
    AtomicFlip(s, s3, done, s4);
    ConfinedTransitive(s, s2, s3, Needed(s), {}, Needed(s));
  }

  lemma OpenValuesProgress(s: Snap, s': Snap)
    requires Progressed(s, s') && s'.ups == s.ups
    ensures OpenValues(HeapOf(s')) == OpenValues(HeapOf(s))
  {
    assert forall u :: UpValue(HeapOf(s'), u) == UpValue(HeapOf(s), u);
  }

  /** In a collection that runs alone, nothing outside `keep` and the fixed objects
      is marked, stays live and in the end is left. */
  ghost predicate CycleOk(keep: set<Ref>, s: Snap) {
    && ClosedStrong(HeapOf(s), keep) && Needed(s) <= keep
    && (KeepInvariant(s.gcstate) ==> NonWhite(s.marked) <= keep + ToSet(s.fixedgc))
    && (SweepPhase(s.gcstate) ==> Live(s) <= keep + ToSet(s.fixedgc))
    && (s.gcstate.CallFin? ==> s.objs.Keys <= keep + ToSet(s.fixedgc))
  }

  ghost predicate Cycles(s: Snap, s': Snap) {
    forall keep {:trigger CycleOk(keep, s)} :: CycleOk(keep, s) ==> CycleOk(keep, s')
  }

  lemma CyclesTransitive(s: Snap, s1: Snap, s2: Snap)
    requires Cycles(s, s1) && Cycles(s1, s2)
    ensures Cycles(s, s2)
  {
    forall keep | CycleOk(keep, s) ensures CycleOk(keep, s2) {
      assert CycleOk(keep, s1);
    }
  }

  lemma OpenValuesSmaller(h: Heap, h': Heap)
    requires forall u :: u in h'.ups && h'.ups[u].Open? ==> u in h.ups && h.ups[u].Open?
    requires forall u :: UpValue(h', u) == UpValue(h, u)
    ensures OpenValues(h') <= OpenValues(h)
  {
  }

  lemma ClosedStrongSmaller(h: Heap, h': Heap, keep: set<Ref>)
    requires SmallerHeap(h, h') && (forall u :: UpValue(h', u) == UpValue(h, u)) && ClosedStrong(h, keep)
    ensures ClosedStrong(h', keep)
  {
    forall a | a in keep && a in h'.objs ensures KeptIn(h', a, keep) {
      assert StrongAt(h, h', a) && KeptIn(h, a, keep);
    }
  }

  /** The start of the mark phase, or a step of it. */
  lemma MarkCycles(s: Snap, s': Snap, extra: set<Ref>)
    requires Confined(s, s', extra) && extra <= Needed(s) && Roots(s') == Roots(s)
    requires OpenValues(HeapOf(s')) <= OpenValues(HeapOf(s)) && KeepInvariant(s'.gcstate)
    requires KeepInvariant(s.gcstate) || NonWhite(s.marked) <= ToSet(s.fixedgc)
    ensures Cycles(s, s')
  {
    forall keep | CycleOk(keep, s) ensures CycleOk(keep, s') {
      ClosedStrongSame(HeapOf(s), HeapOf(s'), keep);
    }
  }

  lemma RestIsWhite(s: Snap)
    requires Inv(s) && s.gcstate.Pause?
    ensures NonWhite(s.marked) <= ToSet(s.fixedgc)
  {
    forall x | x in NonWhite(s.marked) ensures x in s.fixedgc {
    }
  }

  lemma AdvancedOpen(s: Snap, s': Snap)
    requires Advanced(s, s')
    ensures OpenValues(HeapOf(s')) <= OpenValues(HeapOf(s))
  {
    AdvancedStrong(s, s');
    forall u | u in s'.ups && s'.ups[u].Open? ensures u in s.ups && s.ups[u].Open? {
      assert TouchedAt(s.ups, s'.ups, u);
    }
    OpenValuesSmaller(HeapOf(s), HeapOf(s'));
  }

  /** A step of the sweep, or from the sweep to the finalizers. */
  lemma SweepCycles(s: Snap, s': Snap)
    requires LiveKept(s.(gcstate := s'.gcstate), s') && SweepPhase(s.gcstate)
    requires SweepPhase(s'.gcstate) || (s'.gcstate.CallFin? && Live(s') == s'.objs.Keys)
    ensures Cycles(s, s')
  {
    var a := s.(gcstate := s'.gcstate);
    assert HeapOf(a) == HeapOf(s) && Live(a) == Live(s) && Roots(s') == Roots(s);
    OpenValuesSmaller(HeapOf(s), HeapOf(s'));
    forall keep | CycleOk(keep, s) ensures CycleOk(keep, s') {
      ClosedStrongSmaller(HeapOf(s), HeapOf(s'), keep);
    }
  }

  /** From the mark phase to the sweep. */
  lemma AtomicCycles(s: Snap, s1: Snap, s2: Snap, s3: Snap)
    requires Confined(s, s1, {}) && Advanced(s, s1) && Confined(s1, s2, Needed(s1)) && Progressed(s1, s2)
    requires Live(s2) == NonWhite(s2.marked) && KeepInvariant(s.gcstate)
    requires OpenValues(HeapOf(s2)) <= OpenValues(HeapOf(s1))
    requires LiveKept(s2.(gcstate := SwpAllGc), s3) && s3.gcstate.SwpAllGc?
    ensures Cycles(s, s3)
  {
    var a := s2.(gcstate := SwpAllGc);
    AdvancedOpen(s, s1);
    assert HeapOf(a) == HeapOf(s2) && Live(a) == Live(s2) && Roots(s1) == Roots(s) && Roots(s2) == Roots(s) &&
           Roots(s3) == Roots(s);
    OpenValuesSmaller(HeapOf(s2), HeapOf(s3));
    forall keep | CycleOk(keep, s) ensures CycleOk(keep, s3) {
      ClosedStrongSame(HeapOf(s), HeapOf(s1), keep);
      ClosedStrongSame(HeapOf(s1), HeapOf(s2), keep);
      ClosedStrongSmaller(HeapOf(s2), HeapOf(s3), keep);
    }
  }

  /** What can be reached, as a set. */
  ghost function ReachableSet(h: Heap, roots: set<Ref>): set<Ref> {
    set x | x in h.objs && Reachable(h, roots, x)
  }

  lemma ReachableClosed(h: Heap, roots: set<Ref>)
    requires ClosedSet(h, h.objs.Keys) && roots <= h.objs.Keys
    ensures ClosedStrong(h, ReachableSet(h, roots)) && roots <= ReachableSet(h, roots)
  {
    var keep := ReachableSet(h, roots);
    forall x | x in roots ensures x in keep {
      assert IsPath(h, roots, [x]) && [x][|[x]| - 1] == x;
    }
    forall a | a in keep && a in h.objs ensures KeptIn(h, a, keep) {
      assert StaysIn(h, a, h.objs.Keys);
      PointersReachable(h, roots, a, keep);
    }
  }

  /** Where a collection starts there is such a set to keep. */
  lemma CycleStarts(s: Snap)
    requires Inv(s) && s.gcstate.Pause?
    ensures CycleOk(ReachableSet(HeapOf(s), Needed(s)), s)
  {
    PauseAllLive(s);
    forall x | x in Needed(s) ensures x in s.objs {
      NeededExists(s, x);
    }
    ReachableClosed(HeapOf(s), Needed(s));
  }

  lemma PointersReachable(h: Heap, roots: set<Ref>, a: Ref, keep: set<Ref>)
    requires StaysIn(h, a, h.objs.Keys) && Reachable(h, roots, a)
    requires forall x :: x in h.objs && Reachable(h, roots, x) ==> x in keep
    ensures KeptIn(h, a, keep)
  {
    var ps, us := Direct(h.objs[a]), UpvalsOf(h.objs[a]);
    forall i | 0 <= i < |ps| ensures PtrIn(ps[i], keep) {
      assert PtrIn(ps[i], h.objs.Keys);
      if ps[i].Some? { assert Some(ps[i].value) in ps; OneFurther(h, roots, a, ps[i].value); }
    }
    forall i | 0 <= i < |us| ensures PtrIn(UpValue(h, us[i]), keep) {
      var v := UpValue(h, us[i]);
      assert PtrIn(v, h.objs.Keys);
      if v.Some? { assert us[i] in us; OneFurther(h, roots, a, v.value); }
    }
  }

  lemma OneFurther(h: Heap, roots: set<Ref>, a: Ref, b: Ref)
    requires Reachable(h, roots, a) && Edge(h, a, b)
    ensures Reachable(h, roots, b)
  {
    var p :| IsPath(h, roots, p) && p[|p| - 1] == a;
    var q := p + [b];
    forall i | 0 <= i < |q| - 1 ensures Edge(h, q[i], q[i + 1]) {
      if i < |p| - 1 { assert Edge(h, p[i], p[i + 1]); }
    }
    assert IsPath(h, roots, q) && q[|q| - 1] == b;
  }

  lemma PauseAllLive(s: Snap)
    requires Inv(s) && (s.gcstate.Pause? || s.gcstate.CallFin?)
    ensures Live(s) == s.objs.Keys
  {
    forall x | x in s.objs ensures x in Live(s) {
      assert x in s.fixedgc ==> IsFixed(s, x);
    }
  }

  lemma NeededExists(s: Snap, x: Ref)
    requires Inv(s) && Live(s) == s.objs.Keys && x in Needed(s)
    ensures x in s.objs
  {
    if x in OpenValues(HeapOf(s)) {
      var u :| u in s.ups && s.ups[u].Open? && UpValue(HeapOf(s), u) == Some(x);
      assert OpenUpOk(HeapOf(s), u);
      assert StaysIn(HeapOf(s), s.ups[u].thread, Live(s));
      assert PtrIn(Direct(s.objs[s.ups[u].thread])[s.ups[u].slot], Live(s));
    }
  }

  lemma RestCycles(s: Snap, s': Snap)
    requires s.gcstate.CallFin? && s' == s.(gcstate := Pause)
    ensures Cycles(s, s')
  {
    assert HeapOf(s') == HeapOf(s) && Roots(s') == Roots(s);
  }

  lemma PropagatedCycles(s: Snap, s': Snap)
    requires Advanced(s, s'.(gcstate := s.gcstate)) && Confined(s, s'.(gcstate := s.gcstate), {})
    requires KeepInvariant(s.gcstate) && KeepInvariant(s'.gcstate)
    ensures Cycles(s, s')
  {
    var a := s'.(gcstate := s.gcstate);
    AdvancedOpen(s, a);
    assert HeapOf(a) == HeapOf(s') && Roots(s') == Roots(s);
    MarkCycles(s, s', {});
  }

  lemma GarbageGone(start: Snap, s: Snap)
    requires Inv(start) && start.gcstate.Pause? && s.gcstate.CallFin? && Cycles(start, s)
    ensures s.objs.Keys <= ReachableSet(HeapOf(start), Needed(start)) + ToSet(s.fixedgc)
  {
    CycleStarts(start);
    assert CycleOk(ReachableSet(HeapOf(start), Needed(start)), s);
  }
}
