/** The start and the atomic end of the mark phase (src/lgc.c). */
module GcAtomic {
  import opened LuaValues
  import opened GcHeap
  import opened GcState
  import opened GcMarking

  /** While no object has the other white, every object is live. */
  lemma AllLive(s: Snap)
    requires ColorsOk(s) && s.marked.Keys == s.objs.Keys
    ensures Live(s) == s.objs.Keys
  {
    forall x | x in s.marked ensures x in Live(s) {
      assert ColorOk(s, x);
    }
  }

  /** The invariant between steps, as the mark phase uses it. */
  lemma InvIsMarking(s: Snap)
    requires Inv(s) && KeepInvariant(s.gcstate)
    ensures Marking(s, s.grayagain, [], ToSet(s.twups), false) && Roots(s) <= s.objs.Keys
  {
    AllLive(s);
  }

  lemma MarkingIsInv(s: Snap, s': Snap)
    requires Structure(s) && Roots(s) <= s.objs.Keys && Advanced(s, s') && KeepInvariant(s'.gcstate)
    requires Marking(s', s'.grayagain, [], ToSet(s'.twups), false)
    requires s'.mainthread in NonWhite(s'.marked) && s'.sweepgc.None? && (s'.gcstate.Propagate? ==> s'.gray != [])
    ensures Inv(s')
  {
    AllLive(s');
    AdvancedStructure(s, s');
  }

  lemma AdvancedStructure(s: Snap, s': Snap)
    requires Structure(s) && Advanced(s, s') && UpvaluesOk(HeapOf(s')) && FixedOk(s')
    ensures Structure(s')
  {
    assert s'.objs.Keys == s.objs.Keys;
    forall x ensures Owners(s', x) == Count(x in s'.objs) {
      assert Owners(s', x) == Owners(s, x);
    }
    assert SameObj(s.objs, s'.objs, s.mainthread) && SameObj(s.objs, s'.objs, s.running);
  }

  /** All is white before the mark phase starts. */
  lemma StartMarking(s: Snap, s': Snap)
    requires Inv(s) && s.gcstate.Pause? && s' == s.(gray := [], grayagain := [])
    ensures Marking(s', [], [], ToSet(s'.twups), false) && Roots(s) <= s.objs.Keys
    ensures IsWhite(s.marked[s.mainthread])
  {
    var none: seq<Ref> := [];
    forall x | x in s'.marked ensures ColorOk(s', x) {
      if x in s.fixedgc { assert IsFixed(s, x); }
    }
    forall x ensures OnLists(s'.gray, none, none, x) == Count(MustBeListed(s'.marked, s'.fixedgc, x)) {
    }
    assert BlacksOk(s', ToSet(s'.twups), false, {}) by {
      forall x | x in s'.marked ensures !s'.marked[x].Black? {
        assert x in s.fixedgc ==> IsFixed(s, x);
      }
    }
    AllLive(s');
    assert Live(s) == Live(s');
    assert s.mainthread in s.fixedgc ==> IsFixed(s, s.mainthread);
  }

  /** Marking from the roots. */
  lemma RootsMarked(s: Snap, s': Snap, again: seq<Ref>, waiting: set<Ref>)
    requires Marking(s, again, [], waiting, false)
    requires s' == s.(marked := s'.marked, gray := s'.gray) && Grown(s.objs, s.marked, s.gray, s'.marked, s'.gray)
    ensures Marking(s', again, [], waiting, false) && Advanced(s, s')
  {
    GrownTri(s, s', again, [], waiting, false, {});
    GrownWhites(s.objs, s.marked, s.gray, s'.marked, s'.gray);
  }

  lemma RootIsGray(s: Snap, s': Snap, again: seq<Ref>, waiting: set<Ref>, x: Ref)
    requires Marking(s', again, [], waiting, false) && x in s'.marked && again == []
    requires IsThread(HeapOf(s'), x) && x in NonWhite(s'.marked)
    ensures s'.gray != []
  {
    assert ColorOk(s', x);
    assert OnLists(s'.gray, [], [], x) == Count(MustBeListed(s'.marked, s'.fixedgc, x));
    assert x in s'.fixedgc ==> IsFixed(s', x);
  }

  // ---- remarkupvals ----

  /** The touched upvalues of thread `th` have been visited. */
  ghost predicate Remarked(h: Heap, ups': map<Up, UpVal>, th: Ref, l: seq<Up>, m: Marks) {
    && ups'.Keys == h.ups.Keys
    && (forall u :: u in h.ups ==> RemarkedAt(h, ups', th, u))
    && (forall i :: 0 <= i < |l| ==> l[i] in h.ups && h.ups[l[i]].Open? &&
                                     (h.ups[l[i]].touched ==> PtrIn(UpValue(h, l[i]), NonWhite(m))))
  }

  predicate RemarkedAt(h: Heap, ups': map<Up, UpVal>, th: Ref, u: Up)
    requires u in h.ups && u in ups'
  {
    ups'[u] == h.ups[u] || (OpenIn(h, u, th) && ups'[u] == h.ups[u].(touched := false))
  }

  lemma RemarkedUpValue(h: Heap, h': Heap, th: Ref, u: Up)
    requires h'.objs == h.objs && h'.ups.Keys == h.ups.Keys && (u in h.ups ==> RemarkedAt(h, h'.ups, th, u))
    ensures UpValue(h', u) == UpValue(h, u)
  {
  }

  lemma RemarkedTri(s: Snap, s': Snap, th: Ref, again: seq<Ref>, waiting: set<Ref>, waiting': set<Ref>)
    requires TriColor(s, again, [], waiting, true, {}) && Basics(s) && IsThread(HeapOf(s), th)
    requires s' == s.(marked := s'.marked, gray := s'.gray, ups := s'.ups, twups := s'.twups)
    requires Grown(s.objs, s.marked, s.gray, s'.marked, s'.gray)
    requires Remarked(HeapOf(s), s'.ups, th, s.objs[th].openupval, s'.marked) && waiting <= waiting' + {th}
    ensures TriColor(s', again, [], waiting', true, {})
  {
    var a := s.(marked := s'.marked, gray := s'.gray);
    GrownTri(s, a, again, [], waiting, true, {});
    forall x | x in s'.marked ensures ColorOk(s', x) {
      assert ColorOk(a, x);
    }
    forall x | x in s'.marked && s'.marked[x].Black? ensures BlackAt(s', x, waiting', true) {
      assert BlackAt(a, x, waiting, true);
      var us := UpvalsOf(s.objs[x]);
      forall i | 0 <= i < |us| ensures UpBlackOk(HeapOf(s'), s'.marked, us[i], waiting', true) {
        RemarkedUp(a, s', th, us[i], waiting, waiting');
      }
    }
  }

  lemma RemarkedUp(a: Snap, s': Snap, th: Ref, u: Up, waiting: set<Ref>, waiting': set<Ref>)
    requires UpvaluesOk(HeapOf(a)) && IsThread(HeapOf(a), th) && s' == a.(ups := s'.ups, twups := s'.twups)
    requires Remarked(HeapOf(a), s'.ups, th, a.objs[th].openupval, a.marked) && waiting <= waiting' + {th}
    requires UpBlackOk(HeapOf(a), a.marked, u, waiting, true)
    ensures UpBlackOk(HeapOf(s'), s'.marked, u, waiting', true)
  {
    if u in a.ups {
      assert RemarkedAt(HeapOf(a), s'.ups, th, u);
      RemarkedUpValue(HeapOf(a), HeapOf(s'), th, u);
      if OpenIn(HeapOf(a), u, th) {
        assert OpenUpOk(HeapOf(a), u);
        var i :| 0 <= i < |a.objs[th].openupval| && a.objs[th].openupval[i] == u;
      }
    }
  }

  lemma RemarkedBasics(s: Snap, s': Snap, th: Ref, l: seq<Up>)
    requires Basics(s) && s' == s.(marked := s'.marked, gray := s'.gray, ups := s'.ups, twups := s'.twups)
    requires Grown(s.objs, s.marked, s.gray, s'.marked, s'.gray) && Remarked(HeapOf(s), s'.ups, th, l, s'.marked)
    ensures Basics(s')
  {
    var h, h' := HeapOf(s), HeapOf(s');
    forall x | x in s'.fixedgc ensures IsFixed(s', x) {
      assert IsFixed(s, x) && GrownAt(s.objs, s.marked, s'.marked, x);
    }
    forall t | IsThread(h', t) ensures ThreadOk(h', t) {
      assert ThreadOk(h, t);
      var l := h.objs[t].openupval;
      forall i | 0 <= i < |l| ensures OpenIn(h', l[i], t) && h'.ups[l[i]].slot == h.ups[l[i]].slot {
        assert OpenIn(h, l[i], t) && RemarkedAt(h, h'.ups, th, l[i]);
      }
    }
    forall u | u in h'.ups && h'.ups[u].Open? ensures OpenUpOk(h', u) {
      assert RemarkedAt(h, h'.ups, th, u) && OpenUpOk(h, u);
    }
    forall a | a in h'.objs ensures ClosureOk(h', h'.objs[a]) && StaysIn(h', a, h'.objs.Keys) {
      assert ClosureOk(h, h.objs[a]) && StaysIn(h, a, h.objs.Keys);
      forall i | 0 <= i < |UpvalsOf(h.objs[a])| ensures PtrIn(UpValue(h', UpvalsOf(h.objs[a])[i]), h.objs.Keys) {
        assert RemarkedAt(h, h'.ups, th, UpvalsOf(h.objs[a])[i]);
        RemarkedUpValue(h, h', th, UpvalsOf(h.objs[a])[i]);
      }
    }
  }

  // ---- The end of the mark phase ----

  /** What is not marked when nothing is left to traverse is garbage. */
  lemma AtomicDone(s: Snap, done: seq<Ref>, s': Snap)
    requires Marking(s, [], done, {}, true) && s.gray == []
    requires Roots(s) <= NonWhite(s.marked) && s' == s.(currentwhite := Ow(s))
    ensures LiveOk(s') && Live(s') == NonWhite(s.marked)
    ensures forall th :: th in s'.twups ==> IsThread(HeapOf(s'), th) && th in Live(s')
    ensures forall th :: th in Live(s') && HasOpen(HeapOf(s'), th) ==> th in s'.twups
  {
    forall x | x in s.marked ensures x in Live(s') <==> x in NonWhite(s.marked) {
      assert ColorOk(s, x);
    }
    forall x | x in Live(s') ensures StaysIn(HeapOf(s'), x, Live(s')) {
      MarkedIsClosed(s, done, x);
    }
    forall th | th in Live(s') && HasOpen(HeapOf(s'), th) ensures th in s'.twups {
      GrayThreadDone(s, done, th);
    }
  }

  lemma GrayThreadDone(s: Snap, done: seq<Ref>, th: Ref)
    requires Marking(s, [], done, {}, true) && s.gray == [] && IsThread(HeapOf(s), th) && th in NonWhite(s.marked)
    ensures DoneOk(s, th)
  {
    assert ColorOk(s, th);
    assert OnLists(s.gray, [], done, th) == Count(MustBeListed(s.marked, s.fixedgc, th));
    assert th in s.fixedgc ==> IsFixed(s, th);
  }

  lemma MarkedIsClosed(s: Snap, done: seq<Ref>, x: Ref)
    requires Marking(s, [], done, {}, true) && s.gray == [] && x in NonWhite(s.marked)
    ensures StaysIn(HeapOf(s), x, NonWhite(s.marked))
  {
    assert ColorOk(s, x) && StaysIn(HeapOf(s), x, s.objs.Keys);
    if s.marked[x].Black? {
      assert BlackAt(s, x, {}, true);
      var us := UpvalsOf(s.objs[x]);
      forall i | 0 <= i < |us| ensures PtrIn(UpValue(HeapOf(s), us[i]), NonWhite(s.marked)) {
        assert UpBlackOk(HeapOf(s), s.marked, us[i], {}, true);
        MarkedUpvalue(s, done, us[i]);
      }
    } else if IsThread(HeapOf(s), x) {
      GrayThreadDone(s, done, x);
    } else {
      assert OnLists(s.gray, [], done, x) == Count(MustBeListed(s.marked, s.fixedgc, x));
      assert x in done ==> DoneOk(s, x);
      assert x in s.fixedgc ==> IsFixed(s, x);
    }
  }

  lemma MarkedUpvalue(s: Snap, done: seq<Ref>, u: Up)
    requires Marking(s, [], done, {}, true) && s.gray == [] && UpBlackOk(HeapOf(s), s.marked, u, {}, true)
    ensures PtrIn(UpValue(HeapOf(s), u), NonWhite(s.marked))
  {
    if Excused(HeapOf(s), s.marked, u, {}, true) {
      var th, slot := s.ups[u].thread, s.ups[u].slot;
      assert OpenUpOk(HeapOf(s), u);
      GrayThreadDone(s, done, th);
      if slot < |s.objs[th].stack| { assert PtrIn(s.objs[th].stack[slot], NonWhite(s.marked)); }
    }
  }

  // ---- The program sees the same graph ----

  /** Same references between the same objects, closure caches aside. */
  ghost predicate SameGraph(h: Heap, h': Heap) {
    SameObjs(h.objs, h'.objs) && forall u :: UpValue(h', u) == UpValue(h, u)
  }

  lemma AdvancedGraph(s: Snap, s': Snap)
    requires Advanced(s, s')
    ensures SameGraph(HeapOf(s), HeapOf(s'))
  {
    forall x ensures SameStack(s.objs, s'.objs, x) {
      assert x in s.objs ==> SameObj(s.objs, s'.objs, x);
    }
    forall u ensures UpValue(HeapOf(s'), u) == UpValue(HeapOf(s), u) {
      SameUpValue(HeapOf(s), HeapOf(s'), u);
    }
  }

  lemma SameGraphReaches(h: Heap, h': Heap, roots: set<Ref>, x: Ref)
    requires SameGraph(h, h') && Reachable(h, roots, x)
    ensures Reachable(h', roots, x)
  {
    var p :| IsPath(h, roots, p) && p[|p| - 1] == x;
    forall i | 0 <= i < |p| - 1 ensures Edge(h', p[i], p[i + 1]) {
      assert Edge(h, p[i], p[i + 1]);
      assert SameObj(h.objs, h'.objs, p[i]);
    }
    assert IsPath(h', roots, p);
  }

  // ---- Lemmas for the methods ----

  lemma PointersMarked(registry: Ptr, mt: seq<Ptr>, s: set<Ref>)
    requires PtrIn(registry, s) && AllIn(mt, s)
    ensures PtrSet([registry] + mt) <= s
  {
    var ps := [registry] + mt;
    forall x | x in PtrSet(ps) ensures x in s {
      var i :| 0 <= i < |ps| && ps[i].Some? && ps[i].value == x;
      assert i > 0 ==> PtrIn(mt[i - 1], s);
    }
  }

  lemma RootsExist(s: Snap)
    requires Roots(s) <= s.objs.Keys
    ensures PtrIn(s.registry, s.objs.Keys) && AllIn(s.mt, s.objs.Keys)
    ensures s.mainthread in s.objs && s.running in s.objs
  {
    var ps := [s.registry] + s.mt;
    assert PtrSet(ps) <= s.objs.Keys;
    assert ps[0] == s.registry;
    if s.registry.Some? { assert ps[0].Some? && ps[0].value in PtrSet(ps); }
    forall i | 0 <= i < |s.mt| ensures PtrIn(s.mt[i], s.objs.Keys) {
      assert ps[i + 1] == s.mt[i];
      if s.mt[i].Some? { assert ps[i + 1].value in PtrSet(ps); }
    }
  }

  lemma AfterRestart(s: Snap, s1: Snap, s2: Snap, s3: Snap)
    requires Inv(s) && s.gcstate.Pause? && s1 == s.(gray := [], grayagain := [])
    requires s2 == s1.(marked := s2.marked, gray := s2.gray) && Grown(s1.objs, s1.marked, s1.gray, s2.marked, s2.gray)
    requires s.mainthread in NonWhite(s2.marked) && s3 == s2.(gcstate := Propagate)
    ensures Inv(s3) && SameGraph(HeapOf(s), HeapOf(s3))
  {
    StartMarking(s, s1);
    RootsMarked(s1, s2, [], ToSet(s.twups));
    RootIsGray(s1, s2, [], ToSet(s.twups), s.mainthread);
    AdvancedGraph(s1, s2);
    Restarted(s, s1, s2, s3);
  }

  lemma Restarted(s: Snap, s1: Snap, s2: Snap, s3: Snap)
    requires Inv(s) && s.gcstate.Pause? && s1 == s.(gray := [], grayagain := []) && Roots(s) <= s.objs.Keys
    requires Marking(s2, [], [], ToSet(s2.twups), false) && Advanced(s1, s2) && s2.grayagain == []
    requires s.mainthread in NonWhite(s2.marked) && s2.gray != [] && s3 == s2.(gcstate := Propagate)
    ensures Inv(s3)
  {
    var a := s1.(gcstate := Propagate);
    assert Structure(a) by { assert forall x :: Owners(a, x) == Owners(s, x); }
    assert TriColor(s3, [], [], ToSet(s3.twups), false, {}) by {
      SamePhaseTri(s2, s3, [], [], ToSet(s2.twups), false);
    }
    MarkingIsInv(a, s3);
  }

  /** The main invariant does not look at the state or at other fields. */
  lemma SamePhaseTri(s: Snap, s': Snap, again: seq<Ref>, done: seq<Ref>, waiting: set<Ref>, atomic: bool)
    requires TriColor(s, again, done, waiting, atomic, {})
    requires s' == s.(gcstate := s'.gcstate, grayagain := s'.grayagain, running := s'.running, registry := s'.registry,
                      mt := s'.mt)
    ensures TriColor(s', again, done, waiting, atomic, {})
  {
    BlacksKept(s, s', waiting, atomic, {});
    DonesKept(s, s', done);
    forall x | x in s'.marked ensures ColorOk(s', x) {
      assert ColorOk(s, x);
    }
  }

  lemma UntouchedClosed(h: Heap, h': Heap, u: Up, s: set<Ref>)
    requires ClosedSet(h, s) && u in h.ups && h.ups[u].Open? && h' == h.(ups := h.ups[u := h.ups[u].(touched := false)])
    ensures ClosedSet(h', s)
  {
    forall a | a in s ensures StaysIn(h', a, s) {
      assert StaysIn(h, a, s);
      forall i | 0 <= i < |UpvalsOf(h.objs[a])| ensures PtrIn(UpValue(h', UpvalsOf(h.objs[a])[i]), s) {
        assert UpValue(h', UpvalsOf(h.objs[a])[i]) == UpValue(h, UpvalsOf(h.objs[a])[i]);
      }
    }
  }

  lemma OpenValueIn(h: Heap, u: Up, th: Ref, s: set<Ref>)
    requires ClosedSet(h, s) && OpenIn(h, u, th) && th in s
    ensures PtrIn(UpValue(h, u), s)
  {
    assert StaysIn(h, th, s);
    var slot := h.ups[u].slot;
    if h.objs[th].Thread? && slot < |h.objs[th].stack| { assert PtrIn(Direct(h.objs[th])[slot], s); }
  }

  lemma RemarkedStep(h: Heap, h1: Heap, ups2: map<Up, UpVal>, th: Ref, l: seq<Up>, i: nat, m1: Marks, m2: Marks)
    requires h1.objs == h.objs && i < |l| && Remarked(h, h1.ups, th, l[..i], m1) && OpenIn(h, l[i], th)
    requires ups2 == h1.ups[l[i] := h1.ups[l[i]].(touched := false)] && NonWhite(m1) <= NonWhite(m2)
    requires h1.ups[l[i]].touched ==> PtrIn(UpValue(Heap(h.objs, ups2), l[i]), NonWhite(m2))
    requires forall j :: 0 <= j < i ==> l[j] != l[i]
    requires h.ups[l[i]].touched ==> h1.ups[l[i]].touched
    ensures Remarked(h, ups2, th, l[..i + 1], m2)
  {
    assert RemarkedAt(h, h1.ups, th, l[i]);
    forall u | u in h.ups ensures RemarkedAt(h, ups2, th, u) {
      assert RemarkedAt(h, h1.ups, th, u);
    }
    assert l[..i + 1] == l[..i] + [l[i]];
    RemarkedUpValue(h, Heap(h.objs, ups2), th, l[i]);
  }

  /** What remarkupvals changes. */
  ghost predicate RemarkedAll(s: Snap, s': Snap) {
    && s' == s.(marked := s'.marked, gray := s'.gray, ups := s'.ups, twups := s'.twups)
    && s'.marked.Keys == s.marked.Keys && NonWhite(s.marked) <= NonWhite(s'.marked)
    && SameGraph(HeapOf(s), HeapOf(s'))
    && Confined(s, s', OpenValues(HeapOf(s))) && OpenValues(HeapOf(s')) <= OpenValues(HeapOf(s))
  }

  predicate TwupAt(s: Snap, j: nat, i: nat)
    requires j < |s.twups|
  {
    IsThread(HeapOf(s), s.twups[j]) && s.twups[j] in s.marked && (j < i ==> !IsWhite(s.marked[s.twups[j]]))
  }

  /** What holds while the list of threads with open upvalues is gone through. */
  ghost predicate Remarking(s0: Snap, s: Snap, again: seq<Ref>, i: nat) {
    && i <= |s.twups| && RemarkedAll(s0, s) && Basics(s)
    && TriColor(s, again, [], ToSet(s.twups[i..]), true, {})
    && (forall j {:trigger TwupAt(s, j, i)} :: 0 <= j < |s.twups| ==> TwupAt(s, j, i))
  }

  lemma RemarkStart(s: Snap, again: seq<Ref>)
    requires Marking(s, again, [], ToSet(s.twups), false)
    ensures Remarking(s, s, again, 0)
  {
    var waiting := ToSet(s.twups);
    ConfinedSame(s, OpenValues(HeapOf(s)));
    assert s.twups[0..] == s.twups;
    forall x | x in s.marked && s.marked[x].Black? ensures BlackAt(s, x, waiting, true) {
      assert BlackAt(s, x, waiting, false);
      var us := UpvalsOf(s.objs[x]);
      forall i | 0 <= i < |us| ensures UpBlackOk(HeapOf(s), s.marked, us[i], waiting, true) {
        assert UpBlackOk(HeapOf(s), s.marked, us[i], waiting, false);
      }
    }
    forall x ensures x in s.objs ==> SameObj(s.objs, s.objs, x) {
    }
    forall j | 0 <= j < |s.twups| ensures TwupAt(s, j, 0) {
      assert IsTwup(s, s.twups[j], false);
    }
  }

  lemma RemarkEnd(s0: Snap, s: Snap, again: seq<Ref>, i: nat)
    requires Remarking(s0, s, again, i) && i == |s.twups|
    ensures Marking(s, again, [], {}, true)
  {
    assert ToSet(s.twups[i..]) == {};
    forall th | th in s.twups ensures IsTwup(s, th, true) {
      var j :| 0 <= j < |s.twups| && s.twups[j] == th;
      assert TwupAt(s, j, i);
    }
  }

  lemma TailSet(l: seq<Ref>, i: nat)
    requires i < |l|
    ensures ToSet(l[i..]) == {l[i]} + ToSet(l[i + 1..])
  {
    assert l[i..] == [l[i]] + l[i + 1..];
  }

  /** A marked thread excuses its own upvalues. */
  lemma KeptThread(s0: Snap, s: Snap, again: seq<Ref>, i: nat)
    requires Remarking(s0, s, again, i) && i < |s.twups| && s.twups[i] in NonWhite(s.marked)
    ensures Remarking(s0, s, again, i + 1)
  {
    var waiting, waiting' := ToSet(s.twups[i..]), ToSet(s.twups[i + 1..]);
    TailSet(s.twups, i);
    assert forall j {:trigger TwupAt(s, j, i + 1)} :: 0 <= j < |s.twups| && TwupAt(s, j, i) ==> TwupAt(s, j, i + 1);
    forall x | x in s.marked && s.marked[x].Black? ensures BlackAt(s, x, waiting', true) {
      assert BlackAt(s, x, waiting, true);
      var us := UpvalsOf(s.objs[x]);
      forall i | 0 <= i < |us| ensures UpBlackOk(HeapOf(s), s.marked, us[i], waiting', true) {
        assert UpBlackOk(HeapOf(s), s.marked, us[i], waiting, true);
      }
    }
  }

  lemma RemovedThread(s: Snap, s1: Snap, s2: Snap, again: seq<Ref>, i: nat)
    requires Remarking(s, s1, again, i) && i < |s1.twups| && IsThread(HeapOf(s1), s1.twups[i])
    requires s2 == s1.(marked := s2.marked, gray := s2.gray, ups := s2.ups, twups := s1.twups[..i] + s1.twups[i + 1..])
    requires Grown(s1.objs, s1.marked, s1.gray, s2.marked, s2.gray)
    requires Remarked(HeapOf(s1), s2.ups, s1.twups[i], s1.objs[s1.twups[i]].openupval, s2.marked)
    requires OnlyOpen(HeapOf(s1), s1.marked, s2.marked)
    ensures Remarking(s, s2, again, i)
  {
    var th := s1.twups[i];
    RemarkedConfined(s, s1, s2, th);
    GrownWhites(s1.objs, s1.marked, s1.gray, s2.marked, s2.gray);
    assert TriColor(s2, again, [], ToSet(s2.twups[i..]), true, {}) by {
      TailSet(s1.twups, i);
      assert s2.twups[i..] == s1.twups[i + 1..];
      RemarkedTri(s1, s2, th, again, ToSet(s1.twups[i..]), ToSet(s2.twups[i..]));
    }
    RemarkedBasics(s1, s2, th, s1.objs[th].openupval);
    forall u ensures UpValue(HeapOf(s2), u) == UpValue(HeapOf(s1), u) {
      assert u in s1.ups ==> RemarkedAt(HeapOf(s1), s2.ups, th, u);
      RemarkedUpValue(HeapOf(s1), HeapOf(s2), th, u);
    }
    forall j | 0 <= j < |s2.twups| ensures TwupAt(s2, j, i) {
      assert s2.twups[j] == s1.twups[if j < i then j else j + 1];
      assert TwupAt(s1, if j < i then j else j + 1, i);
      assert j < i ==> s1.twups[j] in NonWhite(s1.marked);
    }
  }

  lemma RemarkedConfined(s: Snap, s1: Snap, s2: Snap, th: Ref)
    requires Confined(s, s1, OpenValues(HeapOf(s))) && OpenValues(HeapOf(s1)) <= OpenValues(HeapOf(s))
    requires s2 == s1.(marked := s2.marked, gray := s2.gray, ups := s2.ups, twups := s2.twups)
    requires s2.ups.Keys == s1.ups.Keys && (forall u :: u in s1.ups ==> RemarkedAt(HeapOf(s1), s2.ups, th, u))
    requires OnlyOpen(HeapOf(s1), s1.marked, s2.marked)
    ensures Confined(s, s2, OpenValues(HeapOf(s))) && OpenValues(HeapOf(s2)) <= OpenValues(HeapOf(s))
  {
    forall u ensures UpValue(HeapOf(s2), u) == UpValue(HeapOf(s1), u) {
      assert u in s1.ups ==> RemarkedAt(HeapOf(s1), s2.ups, th, u);
      RemarkedUpValue(HeapOf(s1), HeapOf(s2), th, u);
    }
    ConfinedOpen(s1, s2);
    ConfinedTransitive(s, s1, s2, OpenValues(HeapOf(s)), OpenValues(HeapOf(s1)), OpenValues(HeapOf(s)));
    forall x | x in OpenValues(HeapOf(s2)) ensures x in OpenValues(HeapOf(s1)) {
      var u :| u in s2.ups && s2.ups[u].Open? && UpValue(HeapOf(s2), u) == Some(x);
      assert RemarkedAt(HeapOf(s1), s2.ups, th, u);
    }
  }

  /** The roots are all that a cycle starts from. */
  lemma RootsConfined(s: Snap, s3: Snap, th: Ref)
    requires s3 == s.(marked := s3.marked, gray := s3.gray, grayagain := s3.grayagain, gcstate := s3.gcstate)
    requires th in Roots(s)
    requires OnlyMarks(HeapOf(s), s.marked, s3.marked, [Some(th)] + ([s.registry] + s.mt))
    ensures Confined(s, s3, Roots(s))
  {
    var ps := [Some(th)] + ([s.registry] + s.mt);
    forall i | 0 <= i < |ps| ensures PtrIn(ps[i], Roots(s)) {
      var qs := [s.registry] + s.mt;
      if i > 0 && ps[i].Some? {
        assert qs[i - 1] == ps[i];
        assert qs[i - 1].value in PtrSet(qs);
      }
    }
    ConfinedMarks(s, s3, ps, Roots(s));
  }

  lemma RemarkedStrong(h: Heap, h1: Heap, th: Ref, l: seq<Up>, m: Marks)
    requires h1.objs == h.objs && Remarked(h, h1.ups, th, l, m)
    ensures SameStrong(h, h1)
  {
    forall u ensures UpValue(h1, u) == UpValue(h, u) {
      assert u in h.ups ==> RemarkedAt(h, h1.ups, th, u);
      RemarkedUpValue(h, h1, th, u);
    }
  }
}
