/** How the invariant of the collector follows what the program does between two of
    its steps: stores with their barriers, stack stores without one, new objects
    and upvalues (src/lgc.c, src/lfunc.c). */
module StoreSteps {
  import opened LuaValues
  import opened GcHeap
  import opened GcState
  import opened GcMarking
  import opened GcAtomic
  import opened GcSweeping

  // ---- Stores into objects that have barriers ----

  /** `b` is `a` with one more reference. */
  ghost predicate OneMore(a: Obj, b: Obj, v: Ptr) {
    && SameKind(a, b) && !a.Thread? && !a.Str? && !a.LClosure? && CacheOf(b) == CacheOf(a)
    && (a.Proto? ==> b.upvalues == a.upvalues)
    && forall i :: 0 <= i < |Direct(b)| ==> Direct(b)[i] == v || Direct(b)[i] in Direct(a)
  }

  /** The state after the contents of `a` have been replaced. */
  function Stored(s: Snap, a: Ref, b: Obj): Snap {
    s.(objs := s.objs[a := b])
  }

  lemma OneMoreIn(a: Obj, b: Obj, v: Ptr, s: set<Ref>)
    requires OneMore(a, b, v) && AllIn(Direct(a), s) && PtrIn(v, s)
    ensures AllIn(Direct(b), s)
  {
    forall i | 0 <= i < |Direct(b)| ensures PtrIn(Direct(b)[i], s) {
      if Direct(b)[i] in Direct(a) {
        var j :| 0 <= j < |Direct(a)| && Direct(a)[j] == Direct(b)[i];
        assert PtrIn(Direct(a)[j], s);
      }
    }
  }

  /** All other threads and upvalues are as before. */
  lemma StoredUpvalues(h: Heap, a: Ref, b: Obj)
    requires UpvaluesOk(h) && a in h.objs && SameKind(h.objs[a], b) && !b.Thread? && UpvalsOf(b) == UpvalsOf(h.objs[a])
    ensures UpvaluesOk(Heap(h.objs[a := b], h.ups)) && SameStacks(h.objs, h.objs[a := b])
    ensures forall u :: UpValue(Heap(h.objs[a := b], h.ups), u) == UpValue(h, u)
  {
    var h' := Heap(h.objs[a := b], h.ups);
    forall t | IsThread(h', t) ensures ThreadOk(h', t) {
      assert ThreadOk(h, t);
    }
    forall u | u in h'.ups && h'.ups[u].Open? ensures OpenUpOk(h', u) {
      assert OpenUpOk(h, u);
    }
    forall x | x in h'.objs ensures ClosureOk(h', h'.objs[x]) {
      assert ClosureOk(h, h.objs[x]);
    }
  }

  lemma StoredCommon(s: Snap, a: Ref, b: Obj, v: Ptr)
    requires Common(s) && a in Live(s) && OneMore(s.objs[a], b, v) && PtrIn(v, Live(s))
    ensures Common(Stored(s, a, b)) && Live(Stored(s, a, b)) == Live(s)
  {
    var s', h, h' := Stored(s, a, b), HeapOf(s), HeapOf(Stored(s, a, b));
    StoredUpvalues(h, a, b);
    assert Live(s') == Live(s) && s'.objs.Keys == s.objs.Keys;
    forall x ensures Owners(s', x) == Count(x in s'.objs) {
      assert Owners(s, x) == Count(x in s.objs) && Owners(s', x) == Owners(s, x);
    }
    forall x | x in s'.fixedgc ensures IsFixed(s', x) {
      assert IsFixed(s, x);
    }
    forall x | x in Live(s') ensures StaysIn(h', x, Live(s')) {
      assert StaysIn(h, x, Live(s));
      if x == a { OneMoreIn(s.objs[a], b, v, Live(s)); }
    }
    forall t | t in Live(s') && HasOpen(h', t) ensures t in s'.twups {
      assert HasOpen(h, t);
    }
  }

  /** After the store everything is in order but the object itself. */
  lemma StoredInv(s: Snap, a: Ref, b: Obj, v: Ptr)
    requires Inv(s) && a in Live(s) && a in s.objs && OneMore(s.objs[a], b, v) && PtrIn(v, Live(s))
    ensures InvExcept(Stored(s, a, b), {a}) && Live(Stored(s, a, b)) == Live(s)
  {
    var s' := Stored(s, a, b);
    StoredCommon(s, a, b, v);
    if KeepInvariant(s.gcstate) {
      assert TriColor(s, s.grayagain, [], ToSet(s.twups), false, {});
      assert BlacksOk(s, ToSet(s.twups), false, {a}) by {
        forall x | x in s.marked && s.marked[x].Black? && x !in {a} ensures BlackAt(s, x, ToSet(s.twups), false) {
        }
      }
      StoredUpvalues(HeapOf(s), a, b);
      BlacksKept(s, s', ToSet(s.twups), false, {a});
      forall x | x in s'.marked ensures ColorOk(s', x) {
        assert ColorOk(s, x);
      }
      assert MarkPhaseOk(s', {a});
    }
  }

  /** The whole state after a store with the forward barrier. */
  lemma ForwardStore(s: Snap, a: Ref, b: Obj, v: Ptr, s2: Snap)
    requires Inv(s) && a in Live(s) && a in s.objs && OneMore(s.objs[a], b, v) && PtrIn(v, Live(s))
    requires s2 == Stored(s, a, b).(marked := s2.marked, gray := s2.gray)
    requires KeepInvariant(s.gcstate) ==>
               Grown(Stored(s, a, b).objs, s.marked, s.gray, s2.marked, s2.gray) &&
               (s2.marked[a].Black? ==> PtrIn(v, NonWhite(s2.marked)))
    requires !KeepInvariant(s.gcstate) ==>
               s2.gray == s.gray && (s2.marked == s.marked ||
                                     (s.marked[a].Black? && s2.marked == s.marked[a := s.currentwhite]))
    ensures Inv(s2)
  {
    StoredInv(s, a, b, v);
    if KeepInvariant(s.gcstate) {
      ForwardMarked(s, a, b, v, s2);
    } else {
      SweptAhead(Stored(s, a, b), a, s2);
    }
  }

  lemma ForwardMarked(s: Snap, a: Ref, b: Obj, v: Ptr, s2: Snap)
    requires Inv(s) && KeepInvariant(s.gcstate) && a in s.objs && OneMore(s.objs[a], b, v) &&
             InvExcept(Stored(s, a, b), {a})
    requires s2 == Stored(s, a, b).(marked := s2.marked, gray := s2.gray)
    requires Grown(Stored(s, a, b).objs, s.marked, s.gray, s2.marked, s2.gray)
    requires s2.marked[a].Black? ==> PtrIn(v, NonWhite(s2.marked))
    ensures Inv(s2)
  {
    var s1 := Stored(s, a, b);
    GrownWhites(s1.objs, s.marked, s.gray, s2.marked, s2.gray);
    GrownInv(s1, s2, {a});
    assert GrownAt(s1.objs, s.marked, s2.marked, a);
    if s2.marked[a].Black? {
      if s.marked[a].Black? {
        BlackOfInv(s, a);
        StoredBlack(s, a, b, v, s2, ToSet(s.twups));
      } else {
        assert BlackAt(s2, a, ToSet(s2.twups), false);
      }
    }
    ExceptDone(s2, a);
  }

  /** A black object with one more reference to what is not white is in order. */
  lemma StoredBlack(s: Snap, a: Ref, b: Obj, v: Ptr, s2: Snap, waiting: set<Ref>)
    requires a in s.objs && OneMore(s.objs[a], b, v) && BlackAt(s, a, waiting, false)
    requires s2.objs == s.objs[a := b] && s2.ups == s.ups && s2.marked.Keys == s.marked.Keys
    requires NonWhite(s.marked) <= NonWhite(s2.marked) && PtrIn(v, NonWhite(s2.marked))
    ensures BlackAt(s2, a, waiting, false)
  {
    assert SameStacks(s.objs, s2.objs);
    BlackMore(HeapOf(s), HeapOf(s2), s.marked, s2.marked, s.objs[a], waiting, false);
    OneMoreIn(s.objs[a], b, v, NonWhite(s2.marked));
  }

  /** Nothing is wrong with the excepted object any more. */
  lemma ExceptDone(s: Snap, a: Ref)
    requires InvExcept(s, {a}) && KeepInvariant(s.gcstate)
    requires a in s.marked && s.marked[a].Black? ==> BlackAt(s, a, ToSet(s.twups), false)
    ensures Inv(s)
  {
    assert TriColor(s, s.grayagain, [], ToSet(s.twups), false, {a});
    assert BlacksOk(s, ToSet(s.twups), false, {}) by {
      forall x | x in s.marked && s.marked[x].Black? ensures BlackAt(s, x, ToSet(s.twups), false) {
      }
    }
    assert MarkPhaseOk(s, {});
  }

  /** Marking in the mark phase. */
  lemma GrownInv(s: Snap, s': Snap, except: set<Ref>)
    requires InvExcept(s, except) && KeepInvariant(s.gcstate)
    requires s' == s.(marked := s'.marked, gray := s'.gray) && Grown(s.objs, s.marked, s.gray, s'.marked, s'.gray)
    ensures InvExcept(s', except) && Live(s') == s.objs.Keys == Live(s)
  {
    AllLive(s);
    GrownTri(s, s', s.grayagain, [], ToSet(s.twups), false, except);
    GrownWhites(s.objs, s.marked, s.gray, s'.marked, s'.gray);
    AllLive(s');
    if s.gray != [] { GrayStays(s.objs, s, s'); }
    forall x ensures Owners(s', x) == Count(x in s'.objs) {
      assert Owners(s, x) == Count(x in s.objs) && Owners(s', x) == Owners(s, x);
    }
    assert HeapOf(s') == HeapOf(s);
    assert MarkPhaseOk(s', except);
  }

  /** A black object is swept before its turn. */
  lemma SweptAhead(s: Snap, a: Ref, s2: Snap)
    requires Inv(s) && !KeepInvariant(s.gcstate) && a in s.objs && !s.objs[a].Thread? && !s.objs[a].Str?
    requires s2 == s.(marked := s2.marked)
    requires s2.marked == s.marked || (s.marked[a].Black? && s2.marked == s.marked[a := s.currentwhite])
    ensures Inv(s2)
  {
    Recolored(s, a, s2);
    if SweepPhase(s.gcstate) {
      assert SweepPhaseOk(s2);
    } else {
      assert a in s.fixedgc ==> IsFixed(s, a);
      assert RestPhaseOk(s2);
    }
  }

  /** A live object that is neither fixed nor a thread gets another live colour. */
  lemma Recolored(s: Snap, a: Ref, s2: Snap)
    requires Common(s) && a in s.objs && !s.objs[a].Thread? && !s.objs[a].Str? && s2 == s.(marked := s2.marked)
    requires s2.marked == s.marked || (s.marked[a].Black? && a in s2.marked && s2.marked[a] != Ow(s) &&
                                       s2.marked == s.marked[a := s2.marked[a]])
    ensures Common(s2) && Live(s2) == Live(s)
  {
    assert a in s.fixedgc ==> IsFixed(s, a);
    assert Live(s2) == Live(s) && HeapOf(s2) == HeapOf(s);
    forall x ensures Owners(s2, x) == Count(x in s2.objs) {
      assert Owners(s, x) == Count(x in s.objs) && Owners(s2, x) == Owners(s, x);
    }
    forall x | x in s2.fixedgc ensures IsFixed(s2, x) {
      assert IsFixed(s, x);
    }
  }

  /** The whole state after a store with the backward barrier. */
  lemma BackStore(s: Snap, a: Ref, b: Obj, v: Ptr, s2: Snap)
    requires Inv(s) && a in Live(s) && a in s.objs && s.objs[a].Table? && OneMore(s.objs[a], b, v) && PtrIn(v, Live(s))
    requires s2 == Stored(s, a, b).(marked := s2.marked, grayagain := s2.grayagain)
    requires if s.marked[a].Black? && v.Some? && IsWhite(s.marked[v.value])
             then s2.marked == s.marked[a := Gray] && s2.grayagain == [a] + s.grayagain
             else s2.marked == s.marked && s2.grayagain == s.grayagain
    ensures Inv(s2)
  {
    StoredInv(s, a, b, v);
    var s1 := Stored(s, a, b);
    Recolored(s1, a, s1.(marked := s2.marked));
    SameButAgain(s1.(marked := s2.marked), s2);
    if KeepInvariant(s.gcstate) {
      BackMarked(s, a, b, v, s2);
    } else if SweepPhase(s.gcstate) {
      assert SweepPhaseOk(s2);
    } else {
      assert a in s.fixedgc ==> IsFixed(s, a);
      assert RestPhaseOk(s2);
    }
  }

  lemma SameButAgain(s: Snap, s2: Snap)
    requires Common(s) && s2 == s.(grayagain := s2.grayagain)
    ensures Common(s2)
  {
    assert Live(s2) == Live(s) && HeapOf(s2) == HeapOf(s);
    forall x ensures Owners(s2, x) == Count(x in s2.objs) {
      assert Owners(s, x) == Count(x in s.objs) && Owners(s2, x) == Owners(s, x);
    }
    forall x | x in s2.fixedgc ensures IsFixed(s2, x) {
      assert IsFixed(s, x);
    }
  }

  lemma BackMarked(s: Snap, a: Ref, b: Obj, v: Ptr, s2: Snap)
    requires Inv(s) && KeepInvariant(s.gcstate) && a in s.objs && s.objs[a].Table? && OneMore(s.objs[a], b, v)
    requires InvExcept(Stored(s, a, b), {a}) && Common(s2)
    requires s2 == Stored(s, a, b).(marked := s2.marked, grayagain := s2.grayagain)
    requires if s.marked[a].Black? && v.Some? && v.value in s.marked && IsWhite(s.marked[v.value])
             then s2.marked == s.marked[a := Gray] && s2.grayagain == [a] + s.grayagain
             else s2.marked == s.marked && s2.grayagain == s.grayagain
    requires v.Some? ==> v.value in s.marked
    ensures Inv(s2)
  {
    var s1 := Stored(s, a, b);
    assert TriColor(s1, s.grayagain, [], ToSet(s.twups), false, {a});
    BackTri(s1, s2, a);
    assert MarkPhaseOk(s2, {a});
    if s2.marked[a].Black? {
      BlackOfInv(s, a);
      StoredBlack(s, a, b, v, s2, ToSet(s.twups));
    }
    ExceptDone(s2, a);
  }

  /** The object is listed again if it has become gray. */
  lemma BackTri(s1: Snap, s2: Snap, a: Ref)
    requires Common(s1) && MarkingOk(s1, {a}) && a in s1.objs && s1.objs[a].Table?
    requires s2 == s1.(marked := s2.marked, grayagain := s2.grayagain)
    requires (s1.marked[a].Black? && s2.marked == s1.marked[a := Gray] && s2.grayagain == [a] + s1.grayagain) ||
             (s2.marked == s1.marked && s2.grayagain == s1.grayagain)
    ensures MarkingOk(s2, {a}) && NonWhite(s2.marked) == NonWhite(s1.marked)
  {
    assert NonWhite(s2.marked) == NonWhite(s1.marked);
    BlacksKept(s1, s2, ToSet(s1.twups), false, {a});
    forall x | x in s2.marked ensures ColorOk(s2, x) {
      assert ColorOk(s1, x);
    }
    assert a in s1.fixedgc ==> IsFixed(s1, a);
    forall x ensures OnLists(s2.gray, s2.grayagain, [], x) == Count(MustBeListed(s2.marked, s2.fixedgc, x)) {
      assert OnLists(s1.gray, s1.grayagain, [], x) == Count(MustBeListed(s1.marked, s1.fixedgc, x));
    }
  }

  // ---- Stacks and upvalues ----

  /** The state after the stack of a thread has become `stack`. */
  function WithStack(s: Snap, th: Ref, stack: seq<Ptr>): Snap
    requires IsThread(HeapOf(s), th)
  {
    s.(objs := s.objs[th := Thread(stack, s.objs[th].openupval)])
  }

  /** The new stack covers all open upvalues; what is new in it is live. */
  ghost predicate StackFits(s: Snap, th: Ref, stack: seq<Ptr>)
    requires IsThread(HeapOf(s), th)
  {
    && (forall u :: u in s.ups && OpenIn(HeapOf(s), u, th) ==> s.ups[u].slot < |stack|)
    && (forall i :: 0 <= i < |stack| ==> StackSlotOk(s, s.objs[th].stack, stack, i))
  }

  predicate StackSlotOk(s: Snap, stack: seq<Ptr>, stack': seq<Ptr>, i: nat)
    requires i < |stack'|
  {
    PtrIn(stack'[i], Live(s)) || (i < |stack| && stack'[i] == stack[i])
  }

  lemma WithStackUpvalues(s: Snap, th: Ref, stack: seq<Ptr>)
    requires UpvaluesOk(HeapOf(s)) && IsThread(HeapOf(s), th) && StackFits(s, th, stack)
    ensures UpvaluesOk(HeapOf(WithStack(s, th, stack)))
  {
    var h, h' := HeapOf(s), HeapOf(WithStack(s, th, stack));
    forall t | IsThread(h', t) ensures ThreadOk(h', t) {
      assert ThreadOk(h, t);
      var l := h.objs[t].openupval;
      forall i | 0 <= i < |l| ensures OpenIn(h', l[i], t) && h'.ups[l[i]].slot < |h'.objs[t].stack| {
        assert OpenIn(h, l[i], t);
      }
    }
    forall u | u in h'.ups && h'.ups[u].Open? ensures OpenUpOk(h', u) {
      assert OpenUpOk(h, u);
    }
    forall x | x in h'.objs ensures ClosureOk(h', h'.objs[x]) {
      assert ClosureOk(h, h.objs[x]);
    }
  }

  /** A value seen through an upvalue of a live closure is still live. */
  lemma WithStackUp(s: Snap, th: Ref, stack: seq<Ptr>, u: Up)
    requires UpvaluesOk(HeapOf(s)) && IsThread(HeapOf(s), th) && StackFits(s, th, stack)
    requires PtrIn(UpValue(HeapOf(s), u), Live(s))
    ensures PtrIn(UpValue(HeapOf(WithStack(s, th, stack)), u), Live(s))
  {
    if u in s.ups && OpenIn(HeapOf(s), u, th) {
      assert OpenUpOk(HeapOf(s), u) && ThreadOk(HeapOf(s), th);
      assert StackSlotOk(s, s.objs[th].stack, stack, s.ups[u].slot);
    }
  }

  lemma StackCommon(s: Snap, th: Ref, stack: seq<Ptr>)
    requires Common(s) && IsThread(HeapOf(s), th) && StackFits(s, th, stack)
    ensures Common(WithStack(s, th, stack)) && Live(WithStack(s, th, stack)) == Live(s)
  {
    var s', h, h' := WithStack(s, th, stack), HeapOf(s), HeapOf(WithStack(s, th, stack));
    WithStackUpvalues(s, th, stack);
    assert Live(s') == Live(s) && s'.objs.Keys == s.objs.Keys;
    SameLists(s, s');
    WithStackClosed(s, th, stack);
    forall t | t in Live(s') && HasOpen(h', t) ensures t in s'.twups {
      assert HasOpen(h, t);
    }
  }

  lemma WithStackClosed(s: Snap, th: Ref, stack: seq<Ptr>)
    requires ClosedSet(HeapOf(s), Live(s)) && UpvaluesOk(HeapOf(s)) && IsThread(HeapOf(s), th) &&
             StackFits(s, th, stack)
    ensures ClosedSet(HeapOf(WithStack(s, th, stack)), Live(s))
  {
    var h, h' := HeapOf(s), HeapOf(WithStack(s, th, stack));
    forall x | x in Live(s) ensures StaysIn(h', x, Live(s)) {
      assert StaysIn(h, x, Live(s));
      if x == th {
        forall i | 0 <= i < |stack| ensures PtrIn(stack[i], Live(s)) {
          assert StackSlotOk(s, s.objs[th].stack, stack, i);
          assert i < |s.objs[th].stack| ==> PtrIn(Direct(s.objs[th])[i], Live(s));
        }
      }
      forall i | 0 <= i < |UpvalsOf(h.objs[x])| ensures PtrIn(UpValue(h', UpvalsOf(h.objs[x])[i]), Live(s)) {
        WithStackUp(s, th, stack, UpvalsOf(h.objs[x])[i]);
      }
    }
  }

  /** A stack changes without any barrier. */
  lemma StackStore(s: Snap, th: Ref, stack: seq<Ptr>)
    requires Inv(s) && IsThread(HeapOf(s), th) && StackFits(s, th, stack)
    ensures Inv(WithStack(s, th, stack)) && Live(WithStack(s, th, stack)) == Live(s)
  {
    var s' := WithStack(s, th, stack);
    StackCommon(s, th, stack);
    if KeepInvariant(s.gcstate) {
      assert TriColor(s, s.grayagain, [], ToSet(s.twups), false, {});
      forall x | x in s'.marked ensures ColorOk(s', x) {
        assert ColorOk(s, x);
      }
      forall x | x in s'.marked && s'.marked[x].Black? ensures BlackAt(s', x, ToSet(s.twups), false) {
        assert BlackAt(s, x, ToSet(s.twups), false) && ColorOk(s, x);
        var us := UpvalsOf(s.objs[x]);
        forall i | 0 <= i < |us| ensures UpBlackOk(HeapOf(s'), s'.marked, us[i], ToSet(s.twups), false) {
          assert UpBlackOk(HeapOf(s), s.marked, us[i], ToSet(s.twups), false);
        }
      }
      assert MarkPhaseOk(s', {});
    }
  }

  // ---- Closed upvalues ----

  lemma ClosedStoreCommon(s: Snap, u: Up, v: Ptr, s': Snap)
    requires Common(s) && u in s.ups && s.ups[u].Closed? && PtrIn(v, Live(s)) && s' == s.(ups := s.ups[u := Closed(v)])
    ensures Common(s') && Live(s') == Live(s)
  {
    SameLists(s, s');
    assert Live(s') == Live(s);
    ClosedStoreUpvalues(HeapOf(s), u, v);
    ClosedStoreClosed(HeapOf(s), u, v, Live(s));
  }

  lemma ClosedStoreUpvalues(h: Heap, u: Up, v: Ptr)
    requires UpvaluesOk(h) && u in h.ups && h.ups[u].Closed?
    ensures UpvaluesOk(Heap(h.objs, h.ups[u := Closed(v)]))
  {
    var h' := Heap(h.objs, h.ups[u := Closed(v)]);
    forall t | IsThread(h', t) ensures ThreadOk(h', t) {
      assert ThreadOk(h, t);
      var l := h.objs[t].openupval;
      forall i | 0 <= i < |l| ensures OpenIn(h', l[i], t) && h'.ups[l[i]] == h.ups[l[i]] {
        assert OpenIn(h, l[i], t);
      }
    }
    forall w | w in h'.ups && h'.ups[w].Open? ensures OpenUpOk(h', w) {
      assert OpenUpOk(h, w);
    }
    forall x | x in h'.objs ensures ClosureOk(h', h'.objs[x]) {
      assert ClosureOk(h, h.objs[x]);
    }
  }

  lemma ClosedStoreClosed(h: Heap, u: Up, v: Ptr, s: set<Ref>)
    requires ClosedSet(h, s) && u in h.ups && h.ups[u].Closed? && PtrIn(v, s)
    ensures ClosedSet(Heap(h.objs, h.ups[u := Closed(v)]), s)
  {
    var h' := Heap(h.objs, h.ups[u := Closed(v)]);
    forall x | x in s ensures StaysIn(h', x, s) {
      assert StaysIn(h, x, s);
      var us := UpvalsOf(h.objs[x]);
      forall i | 0 <= i < |us| ensures PtrIn(UpValue(h', us[i]), s) {
        assert us[i] != u ==> UpValue(h', us[i]) == UpValue(h, us[i]);
      }
    }
  }

  /** Open upvalues have been closed, or the value of a closed one has changed, and
      in the mark phase the new values have been marked. */
  lemma UpvaluesMarked(s: Snap, s1: Snap, s2: Snap)
    requires Inv(s) && KeepInvariant(s.gcstate) && Common(s1)
    requires s1 == s.(objs := s1.objs, ups := s1.ups) && s2 == s1.(marked := s2.marked, gray := s2.gray)
    requires Grown(s1.objs, s.marked, s.gray, s2.marked, s2.gray)
    requires s1.objs.Keys == s.objs.Keys && forall x :: x in s.objs && !s.objs[x].Thread? ==> s1.objs[x] == s.objs[x]
    requires forall x :: x in s.objs ==> SameKind(s.objs[x], s1.objs[x])
    requires forall u :: u in s.ups ==> u in s1.ups && UpMarked(s, s1, u, s2.marked)
    ensures Inv(s2)
  {
    UpvaluesTri(s, s1, s2);
    AllLive(s);
    assert Live(s1) == Live(s);
    GrownWhites(s1.objs, s.marked, s.gray, s2.marked, s2.gray);
    MarkedCommon(s1, s2);
    if s.gray != [] { GrayStays(s1.objs, s, s2); }
    assert MarkPhaseOk(s2, {});
  }

  lemma GrayStays(objs: map<Ref, Obj>, s: Snap, s': Snap)
    requires Grown(objs, s.marked, s.gray, s'.marked, s'.gray) && s.gray != []
    ensures s'.gray != []
  {
    var x := s.gray[0];
    assert x in multiset(s.gray);
    assert multiset(s'.gray)[x] == multiset(s.gray)[x] + Count(NewGray(s.marked, s'.marked, x));
  }

  lemma UpvaluesTri(s: Snap, s1: Snap, s2: Snap)
    requires Inv(s) && KeepInvariant(s.gcstate)
    requires s1 == s.(objs := s1.objs, ups := s1.ups) && s2 == s1.(marked := s2.marked, gray := s2.gray)
    requires Grown(s1.objs, s.marked, s.gray, s2.marked, s2.gray)
    requires s1.objs.Keys == s.objs.Keys && forall x :: x in s.objs && !s.objs[x].Thread? ==> s1.objs[x] == s.objs[x]
    requires forall x :: x in s.objs ==> SameKind(s.objs[x], s1.objs[x])
    requires forall u :: u in s.ups ==> u in s1.ups && UpMarked(s, s1, u, s2.marked)
    ensures TriColor(s2, s.grayagain, [], ToSet(s.twups), false, {}) && FixedOk(s2)
  {
    var m1 := s.(marked := s2.marked, gray := s2.gray);
    forall x | x in s.marked ensures GrownAt(s.objs, s.marked, s2.marked, x) {
      assert GrownAt(s1.objs, s.marked, s2.marked, x);
    }
    InvIsMarking(s);
    GrownTri(s, m1, s.grayagain, [], ToSet(s.twups), false, {});
    MarkedBlacks(s, m1, s1, s2);
    forall x | x in s2.fixedgc ensures IsFixed(s2, x) {
      assert IsFixed(m1, x);
    }
  }

  lemma MarkedBlacks(s: Snap, m1: Snap, s1: Snap, s2: Snap)
    requires TriColor(m1, s.grayagain, [], ToSet(s.twups), false, {}) && UpvaluesOk(HeapOf(s))
    requires m1 == s.(marked := s2.marked, gray := s2.gray)
    requires s1 == s.(objs := s1.objs, ups := s1.ups) && s2 == s1.(marked := s2.marked, gray := s2.gray)
    requires s1.objs.Keys == s.objs.Keys && forall x :: x in s.objs && !s.objs[x].Thread? ==> s1.objs[x] == s.objs[x]
    requires forall x :: x in s.objs ==> SameKind(s.objs[x], s1.objs[x])
    requires forall u :: u in s.ups ==> u in s1.ups && UpMarked(s, s1, u, s2.marked)
    ensures TriColor(s2, s.grayagain, [], ToSet(s.twups), false, {})
  {
    var waiting := ToSet(s.twups);
    forall x | x in s2.marked ensures ColorOk(s2, x) {
      assert ColorOk(m1, x);
    }
    forall x | x in s2.marked && s2.marked[x].Black? ensures BlackAt(s2, x, waiting, false) {
      assert BlackAt(m1, x, waiting, false) && ColorOk(m1, x);
      var us := UpvalsOf(s.objs[x]);
      forall i | 0 <= i < |us| ensures UpBlackOk(HeapOf(s2), s2.marked, us[i], waiting, false) {
        assert UpBlackOk(HeapOf(m1), s2.marked, us[i], waiting, false);
        assert ClosureOk(HeapOf(s), s.objs[x]);
        assert us[i] in s.ups && UpMarked(s, s1, us[i], s2.marked);
      }
    }
  }

  /** The upvalue is as before, or has a value that is marked. */
  predicate UpMarked(s: Snap, s1: Snap, u: Up, m: Marks)
    requires u in s.ups && u in s1.ups
  {
    if s1.ups[u].Closed? then PtrIn(s1.ups[u].value, NonWhite(m)) || s1.ups[u] == s.ups[u]
    else s.ups[u].Open? && s1.ups[u].thread == s.ups[u].thread && (s.ups[u].touched ==> s1.ups[u].touched)
  }

  lemma MarkedCommon(s1: Snap, s2: Snap)
    requires Common(s1) && Live(s1) == s1.objs.Keys && ColorsOk(s2) && FixedOk(s2)
    requires s2 == s1.(marked := s2.marked, gray := s2.gray) && s2.marked.Keys == s1.marked.Keys
    ensures Common(s2)
  {
    AllLive(s2);
    assert HeapOf(s2) == HeapOf(s1) && Live(s2) == Live(s1);
    forall x ensures Owners(s2, x) == Count(x in s2.objs) {
      assert Owners(s1, x) == Count(x in s1.objs) && Owners(s2, x) == Owners(s1, x);
    }
  }

  // ---- New open upvalues ----

  /** The state after `u` has been opened at a slot, at place `i` of the list. */
  function Opened(s: Snap, th: Ref, slot: nat, i: nat, u: Up): Snap
    requires IsThread(HeapOf(s), th) && i <= |s.objs[th].openupval|
  {
    var t := s.objs[th];
    s.(ups := s.ups[u := Open(th, slot, true)],
       objs := s.objs[th := Thread(t.stack, t.openupval[..i] + [u] + t.openupval[i..])],
       twups := if th in s.twups then s.twups else [th] + s.twups)
  }

  /** Place `i` of the list is where the slot belongs. */
  ghost predicate PlaceFor(h: Heap, th: Ref, slot: nat, i: nat)
    requires IsThread(h, th) && i <= |h.objs[th].openupval|
  {
    var l := h.objs[th].openupval;
    && slot < |h.objs[th].stack|
    && (forall j :: 0 <= j < i ==> l[j] in h.ups && h.ups[l[j]].Open? && h.ups[l[j]].slot > slot)
    && (i < |l| ==> l[i] in h.ups && h.ups[l[i]].Open? && h.ups[l[i]].slot < slot)
  }

  lemma OpenedUpvalues(s: Snap, th: Ref, slot: nat, i: nat, u: Up)
    requires UpvaluesOk(HeapOf(s)) && IsThread(HeapOf(s), th) && i <= |s.objs[th].openupval|
    requires u !in s.ups && PlaceFor(HeapOf(s), th, slot, i)
    ensures UpvaluesOk(HeapOf(Opened(s, th, slot, i, u)))
    ensures forall w :: w != u ==> UpValue(HeapOf(Opened(s, th, slot, i, u)), w) == UpValue(HeapOf(s), w)
  {
    var h, h' := HeapOf(s), HeapOf(Opened(s, th, slot, i, u));
    forall t | IsThread(h', t) ensures ThreadOk(h', t) {
      assert ThreadOk(h, t);
      OpenedList(h, h', th, slot, i, u, t);
    }
    forall w | w in h'.ups && h'.ups[w].Open? ensures OpenUpOk(h', w) {
      if w != u {
        assert OpenUpOk(h, w);
        var l := h.objs[h.ups[w].thread].openupval;
        var j :| 0 <= j < |l| && l[j] == w;
        assert h.ups[w].thread == th ==> (l[..i] + [u] + l[i..])[if j < i then j else j + 1] == w;
      } else {
        assert h'.objs[th].openupval[i] == u;
      }
    }
    forall x | x in h'.objs ensures ClosureOk(h', h'.objs[x]) {
      assert ClosureOk(h, h.objs[x]);
    }
  }

  lemma OpenedList(h: Heap, h': Heap, th: Ref, slot: nat, i: nat, u: Up, t: Ref)
    requires IsThread(h, th) && i <= |h.objs[th].openupval| && u !in h.ups && PlaceFor(h, th, slot, i)
    requires h'.ups == h.ups[u := Open(th, slot, true)] && IsThread(h, t) && ThreadOk(h, t)
    requires var l := h.objs[th].openupval;
             h'.objs == h.objs[th := Thread(h.objs[th].stack, l[..i] + [u] + l[i..])]
    ensures ThreadOk(h', t)
  {
    var l := h.objs[t].openupval;
    forall j | 0 <= j < |l| ensures OpenIn(h', l[j], t) && h'.ups[l[j]] == h.ups[l[j]] {
      assert OpenIn(h, l[j], t);
    }
    if t == th { OpenedInto(h.ups, h'.ups, th, l, slot, i, u, |h.objs[th].stack|); }
  }

  /** The slots go down along a list with a new upvalue in its place. */
  lemma OpenedInto(ups: map<Up, UpVal>, ups': map<Up, UpVal>, th: Ref, l: seq<Up>, slot: nat, i: nat, u: Up, size: nat)
    requires i <= |l| && slot < size && u in ups' && ups'[u] == Open(th, slot, true)
    requires forall j :: 0 <= j < |l| ==> OpenAt(ups', th, l[j], size)
    requires forall j, k :: 0 <= j < k < |l| ==> SlotOf(ups', l[j]) > SlotOf(ups', l[k])
    requires i > 0 ==> SlotOf(ups', l[i - 1]) > slot
    requires i < |l| ==> SlotOf(ups', l[i]) < slot
    ensures var l' := l[..i] + [u] + l[i..];
            (forall j :: 0 <= j < |l'| ==> OpenAt(ups', th, l'[j], size)) &&
            forall j, k :: 0 <= j < k < |l'| ==> SlotOf(ups', l'[j]) > SlotOf(ups', l'[k])
  {
    var l' := l[..i] + [u] + l[i..];
    assert forall j :: 0 <= j < i ==> l'[j] == l[j];
    assert forall j :: i < j < |l'| ==> l'[j] == l[j - 1];
  }

  function SlotOf(ups: map<Up, UpVal>, u: Up): int {
    if u in ups && ups[u].Open? then ups[u].slot else -1
  }

  predicate OpenAt(ups: map<Up, UpVal>, th: Ref, u: Up, size: nat) {
    u in ups && ups[u].Open? && ups[u].thread == th && ups[u].slot < size
  }

  lemma OpenedCommon(s: Snap, th: Ref, slot: nat, i: nat, u: Up)
    requires Common(s) && IsThread(HeapOf(s), th) && th in Live(s) && i <= |s.objs[th].openupval|
    requires u !in s.ups && PlaceFor(HeapOf(s), th, slot, i)
    ensures Common(Opened(s, th, slot, i, u)) && Live(Opened(s, th, slot, i, u)) == Live(s)
  {
    var s' := Opened(s, th, slot, i, u);
    var h, h' := HeapOf(s), HeapOf(s');
    OpenedUpvalues(s, th, slot, i, u);
    assert Live(s') == Live(s);
    SameLists(s, s');
    forall x | x in Live(s') ensures StaysIn(h', x, Live(s')) {
      assert StaysIn(h, x, Live(s)) && ClosureOk(h, h.objs[x]);
    }
    forall t | t in Live(s') && HasOpen(h', t) ensures t in s'.twups {
      assert t != th ==> HasOpen(h, t);
    }
  }

  lemma OpenedInv(s: Snap, th: Ref, slot: nat, i: nat, u: Up)
    requires Inv(s) && IsThread(HeapOf(s), th) && th in Live(s) && i <= |s.objs[th].openupval|
    requires u !in s.ups && PlaceFor(HeapOf(s), th, slot, i)
    ensures Inv(Opened(s, th, slot, i, u)) && Live(Opened(s, th, slot, i, u)) == Live(s)
  {
    var s' := Opened(s, th, slot, i, u);
    OpenedCommon(s, th, slot, i, u);
    if KeepInvariant(s.gcstate) {
      OpenedUpvalues(s, th, slot, i, u);
      OpenedBlacks(s, s', th, u);
      assert MarkPhaseOk(s', {});
    }
  }

  lemma OpenedBlacks(s: Snap, s': Snap, th: Ref, u: Up)
    requires TriColor(s, s.grayagain, [], ToSet(s.twups), false, {}) && UpvaluesOk(HeapOf(s)) && IsThread(HeapOf(s), th)
    requires s' == s.(objs := s'.objs, ups := s'.ups, twups := s'.twups) && ToSet(s.twups) <= ToSet(s'.twups)
    requires u !in s.ups && u in s'.ups && s'.ups == s.ups[u := s'.ups[u]]
    requires forall w :: w != u ==> UpValue(HeapOf(s'), w) == UpValue(HeapOf(s), w)
    requires s'.objs.Keys == s.objs.Keys && IsThread(HeapOf(s'), th) && forall x :: x in s.objs && x != th ==>
               s'.objs[x] == s.objs[x]
    ensures TriColor(s', s'.grayagain, [], ToSet(s'.twups), false, {})
  {
    forall x | x in s'.marked ensures ColorOk(s', x) {
      assert ColorOk(s, x);
    }
    forall x | x in s'.marked && s'.marked[x].Black? ensures BlackAt(s', x, ToSet(s'.twups), false) {
      assert BlackAt(s, x, ToSet(s.twups), false) && ColorOk(s, x) && ClosureOk(HeapOf(s), s.objs[x]);
      var us := UpvalsOf(s.objs[x]);
      forall j | 0 <= j < |us| ensures UpBlackOk(HeapOf(s'), s'.marked, us[j], ToSet(s'.twups), false) {
        assert UpBlackOk(HeapOf(s), s.marked, us[j], ToSet(s.twups), false);
      }
    }
  }

  // ---- New objects ----

  /** The state after luaC_newobj. */
  function Created(s: Snap, x: Ref, o: Obj): Snap {
    s.(objs := s.objs[x := o], marked := s.marked[x := s.currentwhite], allgc := [x] + s.allgc,
       sweepgc := if s.sweepgc.Some? && s.sweepgc.value > 0 then Some(s.sweepgc.value + 1) else s.sweepgc)
  }

  lemma CreatedInv(s: Snap, x: Ref, o: Obj)
    requires Inv(s) && x !in s.objs && PointsInto(HeapOf(s), o, Live(s)) && ClosureOk(HeapOf(s), o)
    requires ProtoFits(s.objs, o) && CacheOf(o) == None && (o.Thread? ==> o.openupval == [])
    ensures Inv(Created(s, x, o)) && Live(Created(s, x, o)) == Live(s) + {x}
  {
    var s' := Created(s, x, o);
    CreatedStructure(s, x, o);
    CreatedCommon(s, x, o);
    if KeepInvariant(s.gcstate) {
      CreatedMarking(s, x, o);
      assert MarkPhaseOk(s', {});
    } else if SweepPhase(s.gcstate) {
      CreatedSweep(s, x, o);
      assert SweepPhaseOk(s');
    } else {
      assert RestPhaseOk(s');
    }
  }

  lemma CreatedCommon(s: Snap, x: Ref, o: Obj)
    requires Common(s) && x !in s.objs && PointsInto(HeapOf(s), o, Live(s)) && Structure(Created(s, x, o))
    requires ProtoFits(s.objs, o) && CacheOf(o) == None && (o.Thread? ==> o.openupval == [])
    requires forall u :: UpValue(HeapOf(Created(s, x, o)), u) == UpValue(HeapOf(s), u)
    ensures Common(Created(s, x, o)) && Live(Created(s, x, o)) == Live(s) + {x}
  {
    var s' := Created(s, x, o);
    var h, h' := HeapOf(s), HeapOf(s');
    assert s'.currentwhite != Ow(s');
    assert Live(s') == Live(s) + {x};
    forall y | y in Live(s') ensures StaysIn(h', y, Live(s')) {
      if y != x { assert StaysIn(h, y, Live(s)); }
    }
    forall t | t in Live(s') && HasOpen(h', t) ensures t in s'.twups {
      assert t != x ==> HasOpen(h, t);
    }
  }

  /** What a sweep has passed stays passed. */
  lemma CreatedSweep(s: Snap, x: Ref, o: Obj)
    requires SweepOk(s) && x !in s.marked && IsWhite(s.currentwhite)
    ensures SweepOk(Created(s, x, o))
  {
    var s' := Created(s, x, o);
    forall i | 0 <= i < |s'.allgc| && (s'.sweepgc.Some? ==> i < s'.sweepgc.value)
      ensures s'.allgc[i] in s'.marked && s'.marked[s'.allgc[i]] == s'.currentwhite
    {
      assert i > 0 ==> s'.allgc[i] == s.allgc[i - 1];
    }
    assert NonWhite(s.marked) <= NonWhite(s'.marked);
  }

  lemma CreatedStructure(s: Snap, x: Ref, o: Obj)
    requires Structure(s) && x !in s.objs && ClosureOk(HeapOf(s), o) && (o.Thread? ==> o.openupval == [])
    ensures Structure(Created(s, x, o))
    ensures forall u :: UpValue(HeapOf(Created(s, x, o)), u) == UpValue(HeapOf(s), u)
  {
    var s' := Created(s, x, o);
    var h, h' := HeapOf(s), HeapOf(s');
    assert multiset(s'.allgc) == multiset{x} + multiset(s.allgc);
    forall y ensures Owners(s', y) == Count(y in s'.objs) {
      assert Owners(s, y) == Count(y in s.objs);
    }
    forall y | y in s'.fixedgc ensures IsFixed(s', y) {
      assert IsFixed(s, y);
    }
    forall u ensures UpValue(h', u) == UpValue(h, u) {
      assert u in h.ups && h.ups[u].Open? ==> OpenUpOk(h, u);
    }
    forall t | IsThread(h', t) ensures ThreadOk(h', t) {
      if t != x { assert ThreadOk(h, t); }
    }
    forall u | u in h'.ups && h'.ups[u].Open? ensures OpenUpOk(h', u) {
      assert OpenUpOk(h, u);
    }
    forall y | y in h'.objs ensures ClosureOk(h', h'.objs[y]) {
      if y != x { assert ClosureOk(h, h.objs[y]); }
    }
  }

  lemma CreatedMarking(s: Snap, x: Ref, o: Obj)
    requires Inv(s) && KeepInvariant(s.gcstate) && x !in s.objs
    requires forall u :: UpValue(HeapOf(Created(s, x, o)), u) == UpValue(HeapOf(s), u)
    ensures MarkingOk(Created(s, x, o), {})
  {
    var s', waiting := Created(s, x, o), ToSet(s.twups);
    assert TriColor(s, s.grayagain, [], waiting, false, {});
    forall y | y in s'.marked ensures ColorOk(s', y) {
      if y != x { assert ColorOk(s, y); }
    }
    assert NonWhite(s'.marked) == NonWhite(s.marked);
    forall y | y in s'.marked && s'.marked[y].Black? ensures BlackAt(s', y, waiting, false) {
      assert BlackAt(s, y, waiting, false);
      var us := UpvalsOf(s.objs[y]);
      forall j | 0 <= j < |us| ensures UpBlackOk(HeapOf(s'), s'.marked, us[j], waiting, false) {
        assert UpBlackOk(HeapOf(s), s.marked, us[j], waiting, false);
      }
    }
    forall y ensures OnLists(s'.gray, s'.grayagain, [], y) == Count(MustBeListed(s'.marked, s'.fixedgc, y)) {
      assert OnLists(s.gray, s.grayagain, [], y) == Count(MustBeListed(s.marked, s.fixedgc, y));
    }
  }

  // ---- Roots, caches, closing ----

  /** The program's roots may change to other live objects without notice. */
  lemma RootsChanged(s: Snap, s': Snap)
    requires Inv(s) && s' == s.(running := s'.running, registry := s'.registry, mt := s'.mt)
    requires IsThread(HeapOf(s), s'.running) && Roots(s') <= Live(s)
    ensures Inv(s')
  {
    SameLists(s, s');
    assert Live(s') == Live(s) && HeapOf(s') == HeapOf(s);
    assert Common(s');
    if KeepInvariant(s.gcstate) {
      SamePhaseTri(s, s', s.grayagain, [], ToSet(s.twups), false);
      assert MarkPhaseOk(s', {});
    } else if SweepPhase(s.gcstate) {
      assert SweepPhaseOk(s');
    } else {
      assert RestPhaseOk(s');
    }
  }

  lemma CacheCommon(s: Snap, p: Ref, c: Ptr)
    requires Common(s) && p in Live(s) && p in s.objs && s.objs[p].Proto? && PtrIn(c, Live(s))
    requires c.Some? ==> IsClosureOf(s.objs, c.value, p)
    ensures Common(Stored(s, p, s.objs[p].(cache := c))) && Live(Stored(s, p, s.objs[p].(cache := c))) == Live(s)
  {
    var b := s.objs[p].(cache := c);
    var s', h, h' := Stored(s, p, b), HeapOf(s), HeapOf(Stored(s, p, b));
    StoredUpvalues(h, p, b);
    SameLists(s, s');
    assert Live(s') == Live(s);
    forall x | x in Live(s') ensures StaysIn(h', x, Live(s')) {
      assert StaysIn(h, x, Live(s));
    }
    forall t | t in Live(s') && HasOpen(h', t) ensures t in s'.twups {
      assert HasOpen(h, t);
    }
  }

  /** A prototype that is not black may remember any live closure. */
  lemma CacheStored(s: Snap, p: Ref, c: Ptr)
    requires Inv(s) && p in Live(s) && p in s.objs && s.objs[p].Proto? && !s.marked[p].Black? && PtrIn(c, Live(s))
    requires c.Some? ==> IsClosureOf(s.objs, c.value, p)
    ensures Inv(Stored(s, p, s.objs[p].(cache := c))) && Live(Stored(s, p, s.objs[p].(cache := c))) == Live(s)
  {
    var s' := Stored(s, p, s.objs[p].(cache := c));
    CacheCommon(s, p, c);
    if KeepInvariant(s.gcstate) {
      assert TriColor(s, s.grayagain, [], ToSet(s.twups), false, {});
      StoredUpvalues(HeapOf(s), p, s'.objs[p]);
      BlacksKept(s, s', ToSet(s.twups), false, {});
      forall x | x in s'.marked ensures ColorOk(s', x) {
        assert ColorOk(s, x);
      }
      assert MarkPhaseOk(s', {});
    } else if SweepPhase(s.gcstate) {
      assert SweepPhaseOk(s');
    } else {
      assert RestPhaseOk(s');
    }
  }

  /** Upvalues have been closed, with their barriers. */
  lemma ClosedInv(s: Snap, s2: Snap, th: Ref)
    requires Inv(s) && s2 == s.(objs := s2.objs, ups := s2.ups, marked := s2.marked, gray := s2.gray)
    requires ClosedUps(HeapOf(s), HeapOf(s2), th) && UpvaluesOk(HeapOf(s2))
    requires KeepInvariant(s.gcstate) ==>
               Grown(s2.objs, s.marked, s.gray, s2.marked, s2.gray) && NewlyClosed(s.ups, s2.ups, NonWhite(s2.marked))
    requires !KeepInvariant(s.gcstate) ==> s2.marked == s.marked && s2.gray == s.gray
    ensures Inv(s2)
  {
    var s1 := s.(objs := s2.objs, ups := s2.ups);
    ClosedCommon(s, s1, th);
    if KeepInvariant(s.gcstate) {
      forall u | u in s.ups ensures u in s1.ups && UpMarked(s, s1, u, s2.marked) {
        assert ClosedAt(HeapOf(s), HeapOf(s2), th, u);
      }
      UpvaluesMarked(s, s1, s2);
    } else if SweepPhase(s.gcstate) {
      assert SweepPhaseOk(s2);
    } else {
      assert RestPhaseOk(s2);
    }
  }

  /** A closed upvalue has a new value, with its barrier. */
  lemma ClosedStore(s: Snap, u: Up, v: Ptr, s2: Snap)
    requires Inv(s) && u in s.ups && s.ups[u].Closed? && PtrIn(v, Live(s))
    requires s2 == s.(ups := s.ups[u := Closed(v)], marked := s2.marked, gray := s2.gray)
    requires KeepInvariant(s.gcstate) ==>
               Grown(s.objs, s.marked, s.gray, s2.marked, s2.gray) && PtrIn(v, NonWhite(s2.marked))
    requires !KeepInvariant(s.gcstate) ==> s2.marked == s.marked && s2.gray == s.gray
    ensures Inv(s2)
  {
    var s1 := s.(ups := s.ups[u := Closed(v)]);
    ClosedStoreCommon(s, u, v, s1);
    if KeepInvariant(s.gcstate) {
      UpvaluesMarked(s, s1, s2);
    } else if SweepPhase(s.gcstate) {
      assert SweepPhaseOk(s2);
    } else {
      assert RestPhaseOk(s2);
    }
  }

  /** In the mark phase every live object can be marked. */
  lemma CanMarkNow(s: Snap)
    requires Inv(s) && KeepInvariant(s.gcstate)
    ensures s.marked.Keys == s.objs.Keys && ClosedSet(HeapOf(s), s.objs.Keys) && Live(s) == s.objs.Keys
  {
    AllLive(s);
  }

  lemma CanMarkStored(s: Snap, a: Ref, b: Obj, v: Ptr)
    requires Inv(s) && KeepInvariant(s.gcstate) && a in s.objs && a in Live(s) && OneMore(s.objs[a], b, v) &&
             PtrIn(v, Live(s))
    ensures ClosedSet(HeapOf(Stored(s, a, b)), Stored(s, a, b).objs.Keys) && Stored(s, a, b).objs.Keys == s.marked.Keys
    ensures PtrIn(v, s.objs.Keys)
  {
    AllLive(s);
    StoredCommon(s, a, b, v);
  }
}
